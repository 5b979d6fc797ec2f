/** Bytes, words, and bitwise operations on the low bits of natural numbers. */
module Bitwise {
  import opened ByteBits

  type Byte = n: int | 0 <= n < 256
  type Word = n: int | 0 <= n < 65536

  function WordOf(low: Byte, high: Byte): Word {
    low as int + 256 * high as int
  }

  lemma Joined(w: Word)
    ensures WordOf(w % 256, w / 256) == w
  {
  }

  /** The bytes of a value that is still to be cut to 16 bits. */
  lemma BytesOfWrapped(x: int)
    ensures x / 256 % 256 == x % 65536 / 256 && x % 256 == x % 65536 % 256
  {
    var q, high, low := x / 65536, x % 65536 / 256, x % 65536 % 256;
    assert x == 256 * (256 * q + high) + low;
  }

  lemma NextByte(k: nat)
    ensures (k % 256 + 1) % 256 == (k + 1) % 256
  {
    var p := k % 256 + 1;
    assert k + 1 == 256 * (p / 256 + k / 256) + p % 256;
  }

  function BitAnd(a: nat, b: nat, width: nat): (r: nat)
    ensures r < Pow2(width)
    decreases width, a, b
  {
    if width == 0 then 0
    else (if a % 2 == 1 && b % 2 == 1 then 1 else 0) + 2 * BitAnd(a / 2, b / 2, width - 1)
  }

  function BitOr(a: nat, b: nat, width: nat): (r: nat)
    ensures r < Pow2(width)
    decreases width, a, b
  {
    if width == 0 then 0
    else (if a % 2 == 1 || b % 2 == 1 then 1 else 0) + 2 * BitOr(a / 2, b / 2, width - 1)
  }

  function BitXor(a: nat, b: nat, width: nat): (r: nat)
    ensures r < Pow2(width)
    decreases width, a, b
  {
    if width == 0 then 0
    else (if a % 2 != b % 2 then 1 else 0) + 2 * BitXor(a / 2, b / 2, width - 1)
  }

  function And(a: Byte, b: Byte): Byte {
    EightBits();
    BitAnd(a, b, 8)
  }

  function Or(a: Byte, b: Byte): Byte {
    EightBits();
    BitOr(a, b, 8)
  }

  function Xor(a: Byte, b: Byte): Byte {
    EightBits();
    BitXor(a, b, 8)
  }

  // ------------------------------------------------------------------ bit by bit

  lemma Halves(n: nat, low: bool, high: nat)
    requires n == (if low then 1 else 0) + 2 * high
    ensures n / 2 == high && (n % 2 == 1 <==> low)
  {
  }

  lemma OfNatAt(n: nat, width: nat, k: nat)
    requires k < width
    ensures OfNat(n, width)[k] == if k == 0 then n % 2 == 1 else OfNat(n / 2, width - 1)[k - 1]
  {
  }

  lemma AndHalves(a: nat, b: nat, width: nat)
    requires width > 0
    ensures BitAnd(a, b, width) / 2 == BitAnd(a / 2, b / 2, width - 1)
    ensures BitAnd(a, b, width) % 2 == 1 <==> a % 2 == 1 && b % 2 == 1
  {
    Halves(BitAnd(a, b, width), a % 2 == 1 && b % 2 == 1, BitAnd(a / 2, b / 2, width - 1));
  }

  lemma {:induction false} AndAt(a: nat, b: nat, width: nat, k: nat)
    requires k < width
    ensures OfNat(BitAnd(a, b, width), width)[k] <==> OfNat(a, width)[k] && OfNat(b, width)[k]
  {
    AndHalves(a, b, width);
    OfNatAt(BitAnd(a, b, width), width, k);
    OfNatAt(a, width, k);
    OfNatAt(b, width, k);
    hide BitAnd, OfNat;
    if k > 0 {
      AndAt(a / 2, b / 2, width - 1, k - 1);
    }
  }

  lemma OrHalves(a: nat, b: nat, width: nat)
    requires width > 0
    ensures BitOr(a, b, width) / 2 == BitOr(a / 2, b / 2, width - 1)
    ensures BitOr(a, b, width) % 2 == 1 <==> a % 2 == 1 || b % 2 == 1
  {
    Halves(BitOr(a, b, width), a % 2 == 1 || b % 2 == 1, BitOr(a / 2, b / 2, width - 1));
  }

  lemma {:induction false} OrAt(a: nat, b: nat, width: nat, k: nat)
    requires k < width
    ensures OfNat(BitOr(a, b, width), width)[k] <==> OfNat(a, width)[k] || OfNat(b, width)[k]
  {
    OrHalves(a, b, width);
    OfNatAt(BitOr(a, b, width), width, k);
    OfNatAt(a, width, k);
    OfNatAt(b, width, k);
    hide BitOr, OfNat;
    if k > 0 {
      OrAt(a / 2, b / 2, width - 1, k - 1);
    }
  }

  lemma XorHalves(a: nat, b: nat, width: nat)
    requires width > 0
    ensures BitXor(a, b, width) / 2 == BitXor(a / 2, b / 2, width - 1)
    ensures BitXor(a, b, width) % 2 == 1 <==> a % 2 != b % 2
  {
    Halves(BitXor(a, b, width), a % 2 != b % 2, BitXor(a / 2, b / 2, width - 1));
  }

  lemma {:induction false} XorAt(a: nat, b: nat, width: nat, k: nat)
    requires k < width
    ensures OfNat(BitXor(a, b, width), width)[k] <==> OfNat(a, width)[k] != OfNat(b, width)[k]
  {
    XorHalves(a, b, width);
    OfNatAt(BitXor(a, b, width), width, k);
    OfNatAt(a, width, k);
    OfNatAt(b, width, k);
    hide BitXor, OfNat;
    if k > 0 {
      XorAt(a / 2, b / 2, width - 1, k - 1);
    }
  }

  lemma SixteenBits()
    ensures Pow2(16) == 65536
  {
    EightBits();
    assert Pow2(12) == 4096;
  }

  lemma PowerPositive(n: nat)
    ensures Pow2(n) > 0
  {
  }

  lemma Remainder(x: int, m: int, q: int, r: int)
    requires 0 <= r < m && x == m * q + r
    ensures x % m == r
  {
    var k := q - x / m;
    assert m * k == x % m - r;
    assert k >= 1 ==> m * k >= m;
    assert k <= -1 ==> m * k <= -m;
  }

  lemma Euclid(n: int, d: int)
    requires d > 0
    ensures n == d * (n / d) + n % d && 0 <= n % d < d
  {
  }

  lemma Doubled(m: int, q: int, d: int)
    requires d == 2 * m
    ensures d * q == 2 * (m * q)
  {
  }

  lemma HalfOf(n: int, m: int, d: int, q: int, r: int)
    requires d == 2 * m && n == d * q + r && 0 <= r < d
    ensures n / 2 % m == r / 2 && n % 2 == r % 2
  {
    Doubled(m, q, d);
    Halved(n, m * q, r);
    Remainder(n / 2, m, q, r / 2);
  }

  lemma HalfModulo(n: int, m: int, d: int)
    requires m > 0 && d == 2 * m
    ensures n / 2 % m == n % d / 2 && n % 2 == n % d % 2
  {
    Euclid(n, d);
    HalfOf(n, m, d, n / d, n % d);
  }

  lemma Halved(n: int, k: int, r: int)
    requires n == 2 * k + r
    ensures n / 2 == k + r / 2 && n % 2 == r % 2
  {
  }

  /** Numbers that agree modulo a power of two have the bits below it in common. */
  lemma {:induction false} SameLow(a: nat, b: nat, width: nat, j: nat, k: nat)
    requires k < j <= width && Pow2(j) > 0 && a % Pow2(j) == b % Pow2(j)
    ensures OfNat(a, width)[k] <==> OfNat(b, width)[k]
  {
    PowerPositive(j);
    PowerPositive(j - 1);
    HalfModulo(a, Pow2(j - 1), Pow2(j));
    HalfModulo(b, Pow2(j - 1), Pow2(j));
    OfNatAt(a, width, k);
    OfNatAt(b, width, k);
    hide OfNat;
    if k > 0 {
      SameLow(a / 2, b / 2, width - 1, j - 1, k - 1);
    }
  }

  /** The lowest `j` bits are clear. */
  predicate Clear(s: seq<bool>, j: nat)
    requires j <= |s|
  {
    forall k :: 0 <= k < j ==> !s[k]
  }

  lemma ClearFrom(s: seq<bool>, low: bool, rest: seq<bool>, j: nat)
    requires 0 < j <= |s| && s == [low] + rest
    ensures Clear(s, j) <==> !low && Clear(rest, j - 1)
  {
    if Clear(s, j) {
      assert !s[0];
      forall k | 0 <= k < j - 1
        ensures !rest[k]
      {
        assert !s[k + 1];
      }
    }
  }

  /** A number is a multiple of a power of two exactly when the bits below it are clear. */
  lemma {:induction false} LowClear(n: nat, width: nat, j: nat)
    requires j <= width && Pow2(j) > 0
    ensures n % Pow2(j) == 0 <==> Clear(OfNat(n, width), j)
  {
    if j == 0 {
      assert Pow2(0) == 1;
    } else {
      PowerPositive(j - 1);
      HalfModulo(n, Pow2(j - 1), Pow2(j));
      LowClear(n / 2, width - 1, j - 1);
      ClearFrom(OfNat(n, width), n % 2 == 1, OfNat(n / 2, width - 1), j);
    }
    hide Clear;
  }

  /** A bit of the result is set exactly when that bit of both operands, of one of them, or of one but not
      the other is. */
  lemma AndByBits(a: Byte, b: Byte)
    ensures OfByte(And(a, b)) == Both(OfByte(a), OfByte(b))
  {
    EightBits();
    forall k: nat | k < 8
      ensures OfNat(And(a, b), 8)[k] <==> OfNat(a, 8)[k] && OfNat(b, 8)[k]
    {
      AndAt(a, b, 8, k);
    }
    hide And, OfNat;
  }

  lemma OrByBits(a: Byte, b: Byte)
    ensures OfByte(Or(a, b)) == Either(OfByte(a), OfByte(b))
  {
    EightBits();
    forall k: nat | k < 8
      ensures OfNat(Or(a, b), 8)[k] <==> OfNat(a, 8)[k] || OfNat(b, 8)[k]
    {
      OrAt(a, b, 8, k);
    }
    hide Or, OfNat;
  }

  lemma XorByBits(a: Byte, b: Byte)
    ensures OfByte(Xor(a, b)) == Differing(OfByte(a), OfByte(b))
  {
    EightBits();
    forall k: nat | k < 8
      ensures OfNat(Xor(a, b), 8)[k] <==> OfNat(a, 8)[k] != OfNat(b, 8)[k]
    {
      XorAt(a, b, 8, k);
    }
    hide Xor, OfNat;
  }

  /** `(a ^ b) & 0x80`. */
  predicate SignsDiffer(a: int, b: int) {
    a / 128 % 2 != b / 128 % 2
  }
}
