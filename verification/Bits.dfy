/** A byte as its eight bits, for registers whose bits mean different things. */
module ByteBits {
  datatype Bits = Bits(b7: bool, b6: bool, b5: bool, b4: bool, b3: bool, b2: bool, b1: bool, b0: bool)

  const ZERO := Bits(false, false, false, false, false, false, false, false)
  const ALL_ONES := Bits(true, true, true, true, true, true, true, true)

  function Pow2(n: nat): nat {
    if n == 0 then 1 else 2 * Pow2(n - 1)
  }

  /** The number with these bits, lowest bit first. */
  function ToNat(s: seq<bool>): (n: nat)
    ensures n < Pow2(|s|)
  {
    if s == [] then 0 else (if s[0] then 1 else 0) + 2 * ToNat(s[1..])
  }

  /** The low `len` bits of a number, lowest bit first. */
  function OfNat(n: nat, len: nat): (s: seq<bool>)
    ensures |s| == len
    decreases len, n
  {
    if len == 0 then [] else [n % 2 == 1] + OfNat(n / 2, len - 1)
  }

  lemma {:induction false} ToNatOfNat(n: nat, len: nat)
    requires n < Pow2(len)
    ensures ToNat(OfNat(n, len)) == n
  {
    if len > 0 {
      ToNatOfNat(n / 2, len - 1);
      assert OfNat(n, len)[1..] == OfNat(n / 2, len - 1);
    }
  }

  lemma {:induction false} OfNatToNat(s: seq<bool>)
    ensures OfNat(ToNat(s), |s|) == s
  {
    if s != [] {
      OfNatToNat(s[1..]);
      assert s == [s[0]] + s[1..];
    }
  }

  lemma EightBits()
    ensures Pow2(7) == 128 && Pow2(8) == 256
  {
    assert Pow2(4) == 16;
  }

  function Value(b: Bits): (n: nat)
    ensures n < 256
  {
    EightBits();
    ToNat([b.b0, b.b1, b.b2, b.b3, b.b4, b.b5, b.b6, b.b7])
  }

  lemma {:induction false} TopBit(n: nat, k: nat)
    requires n < Pow2(k + 1)
    ensures OfNat(n, k + 1)[k] <==> n >= Pow2(k)
  {
    if k > 0 {
      TopBit(n / 2, k - 1);
      assert OfNat(n, k + 1) == [n % 2 == 1] + OfNat(n / 2, k);
    }
  }

  function Spread(s: seq<bool>): (b: Bits)
    requires |s| == 8
    ensures Value(b) == ToNat(s) && b.b7 == s[7]
  {
    var b := Bits(s[7], s[6], s[5], s[4], s[3], s[2], s[1], s[0]);
    assert s == [b.b0, b.b1, b.b2, b.b3, b.b4, b.b5, b.b6, b.b7];
    b
  }

  lemma LowEight(n: nat, len: nat)
    requires n < 256 && len == 8
    ensures ToNat(OfNat(n, len)) == n && (OfNat(n, len)[7] <==> n >= 128)
  {
    EightBits();
    ToNatOfNat(n, len);
    TopBit(n, len - 1);
  }

  /** The bits of a byte. */
  function OfByte(n: nat): (b: Bits)
    requires n < 256
    ensures Value(b) == n
    ensures b.b7 <==> n >= 128
  {
    LowEight(n, 8);
    Spread(OfNat(n, 8))
  }

  lemma OfByteValue(b: Bits)
    ensures OfByte(Value(b)) == b
  {
    OfNatToNat([b.b0, b.b1, b.b2, b.b3, b.b4, b.b5, b.b6, b.b7]);
  }

  // ------------------------------------------------------------------ bits as powers of two

  function One(b: bool): nat {
    if b then 1 else 0
  }

  lemma ToNatFrom(s: seq<bool>, i: nat)
    requires i < |s|
    ensures ToNat(s[i..]) == One(s[i]) + 2 * ToNat(s[i + 1..])
  {
    assert s[i..][1..] == s[i + 1..];
  }

  lemma FourFrom(s: seq<bool>, i: nat)
    requires i + 4 <= |s|
    ensures ToNat(s[i..])
            == One(s[i]) + 2 * One(s[i + 1]) + 4 * One(s[i + 2]) + 8 * One(s[i + 3]) + 16 * ToNat(s[i + 4..])
  {
    hide ToNat;
    ToNatFrom(s, i);
    ToNatFrom(s, i + 1);
    ToNatFrom(s, i + 2);
    ToNatFrom(s, i + 3);
  }

  lemma EightDigits(s: seq<bool>)
    requires |s| == 8
    ensures ToNat(s) == One(s[0]) + 2 * One(s[1]) + 4 * One(s[2]) + 8 * One(s[3])
                        + 16 * One(s[4]) + 32 * One(s[5]) + 64 * One(s[6]) + 128 * One(s[7])
  {
    assert s[0..] == s && s[8..] == [];
    assert ToNat(s[8..]) == 0;
    hide ToNat, One;
    FourFrom(s, 0);
    FourFrom(s, 4);
  }

  /** Each bit of a byte counts its power of two. */
  lemma ByPowers(b: Bits)
    ensures Value(b) == One(b.b0) + 2 * One(b.b1) + 4 * One(b.b2) + 8 * One(b.b3)
                        + 16 * One(b.b4) + 32 * One(b.b5) + 64 * One(b.b6) + 128 * One(b.b7)
  {
    EightDigits([b.b0, b.b1, b.b2, b.b3, b.b4, b.b5, b.b6, b.b7]);
    hide ToNat, One;
  }

  /** The bits of a byte, as the digits of its value. */
  lemma ByDigits(b: Bits)
    ensures b.b0 == (Value(b) % 2 == 1) && b.b1 == (Value(b) / 2 % 2 == 1)
    ensures b.b2 == (Value(b) / 4 % 2 == 1) && b.b3 == (Value(b) / 8 % 2 == 1)
    ensures b.b4 == (Value(b) / 16 % 2 == 1) && b.b5 == (Value(b) / 32 % 2 == 1)
    ensures b.b6 == (Value(b) / 64 % 2 == 1) && b.b7 == (Value(b) / 128 % 2 == 1)
  {
    ByPowers(b);
    hide Value;
  }

  /** A number below 256 is the value of its bits, and these are its binary digits. */
  lemma DigitsOf(n: nat)
    requires n < 256
    ensures var b := OfByte(n);
            && b.b0 == (n % 2 == 1) && b.b1 == (n / 2 % 2 == 1) && b.b2 == (n / 4 % 2 == 1) && b.b3 == (n / 8 % 2 == 1)
            && b.b4 == (n / 16 % 2 == 1) && b.b5 == (n / 32 % 2 == 1) && b.b6 == (n / 64 % 2 == 1)
            && b.b7 == (n / 128 % 2 == 1)
  {
    ByDigits(OfByte(n));
    hide OfByte;
  }

  function Both(a: Bits, b: Bits): Bits {
    Bits(a.b7 && b.b7, a.b6 && b.b6, a.b5 && b.b5, a.b4 && b.b4, a.b3 && b.b3, a.b2 && b.b2, a.b1 && b.b1, a.b0 && b.b0)
  }

  function Either(a: Bits, b: Bits): Bits {
    Bits(a.b7 || b.b7, a.b6 || b.b6, a.b5 || b.b5, a.b4 || b.b4, a.b3 || b.b3, a.b2 || b.b2, a.b1 || b.b1, a.b0 || b.b0)
  }

  function Differing(a: Bits, b: Bits): Bits {
    Bits(a.b7 != b.b7, a.b6 != b.b6, a.b5 != b.b5, a.b4 != b.b4, a.b3 != b.b3, a.b2 != b.b2, a.b1 != b.b1, a.b0 != b.b0)
  }

  lemma ZeroBits(n: nat)
    requires n < 256
    ensures OfByte(n) == ZERO <==> n == 0
  {
    ByPowers(OfByte(n));
    DigitsOf(n);
    hide OfByte, Value;
  }
}
