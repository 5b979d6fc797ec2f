/** Chains of ADC or SBC through the carry, lowest byte first, add and subtract numbers of any length. */
module MultiPrecision {
  import opened Bitwise
  import opened Mos6510
  import opened DecimalArithmetic

  function Power(base: nat, n: nat): (p: nat)
    ensures base > 0 ==> p > 0
  {
    if n == 0 then 1 else base * Power(base, n - 1)
  }

  predicate IsDigits(b: Byte) {
    b % 16 <= 9 && b / 16 <= 9
  }

  function TwoDigits(b: Byte): nat {
    10 * (b / 16) + b % 16
  }

  ghost predicate IsBcd(s: seq<Byte>) {
    forall i :: 0 <= i < |s| ==> IsDigits(s[i])
  }

  function DecimalValue(s: seq<Byte>): nat {
    if s == [] then 0 else TwoDigits(s[0]) + 100 * DecimalValue(s[1..])
  }

  // ------------------------------------------------------------------ chains

  function CarryBit(carry: bool): (c: nat)
    ensures c <= 1
  {
    if carry then 1 else 0
  }

  /** One digit or byte after the other, lowest first, each with the carry of the one before. */
  function Chain<T>(step: (T, T, nat) -> (T, bool), x: seq<T>, y: seq<T>, c: nat): (r: (seq<T>, nat))
    requires |x| == |y| && c <= 1
    ensures |r.0| == |x| && r.1 <= 1
  {
    if x == [] then ([], c)
    else
      var (s, carry) := step(x[0], y[0], c);
      var (rest, carryOut) := Chain(step, x[1..], y[1..], CarryBit(carry));
      ([s] + rest, carryOut)
  }

  lemma ChainFirst<T>(step: (T, T, nat) -> (T, bool), a: T, x: seq<T>, m: T, y: seq<T>, c: nat)
    requires |x| == |y| && c <= 1
    ensures var (s, carry) := step(a, m, c);
            var (rest, out) := Chain(step, x, y, CarryBit(carry));
            Chain(step, [a] + x, [m] + y, c) == ([s] + rest, out)
  {
    assert ([a] + x)[1..] == x && ([m] + y)[1..] == y;
  }

  lemma PrefixFrom<T>(x: seq<T>, i: nat)
    requires 0 < i <= |x|
    ensures x[..i] == [x[0]] + x[1..][..i - 1]
  {
  }

  lemma Regrouped<T>(a: seq<T>, b: seq<T>, c: seq<T>)
    ensures a + (b + c) == (a + b) + c
  {
  }

  /** The chain on the next digit or byte. */
  lemma {:induction false} ChainNext<T>(step: (T, T, nat) -> (T, bool), x: seq<T>, y: seq<T>, c: nat, i: nat)
    requires |x| == |y| && c <= 1 && i < |x|
    ensures var (s, k) := Chain(step, x[..i], y[..i], c);
            var (d, carry) := step(x[i], y[i], k);
            Chain(step, x[..i + 1], y[..i + 1], c) == (s + [d], CarryBit(carry))
    decreases i
  {
    var (s0, carry0) := step(x[0], y[0], c);
    if i == 0 {
      assert x[..i] == [] && x[..i + 1] == [x[0]] + [] && y[..i + 1] == [y[0]] + [];
      ChainFirst(step, x[0], [], y[0], [], c);
      assert [s0] + [] == [] + [s0];
    } else {
      var x', y' := x[1..], y[1..];
      ChainNext(step, x', y', CarryBit(carry0), i - 1);
      PrefixFrom(x, i);
      PrefixFrom(y, i);
      PrefixFrom(x, i + 1);
      PrefixFrom(y, i + 1);
      ChainFirst(step, x[0], x'[..i - 1], y[0], y'[..i - 1], c);
      ChainFirst(step, x[0], x'[..i], y[0], y'[..i], c);
      var (s, k) := Chain(step, x'[..i - 1], y'[..i - 1], CarryBit(carry0));
      Regrouped([s0], s, [step(x[i], y[i], k).0]);
    }
  }

  // ------------------------------------------------------------------ decimal addition

  function AddChain(x: seq<Byte>, y: seq<Byte>, c: nat): (r: (seq<Byte>, nat))
    requires |x| == |y| && c <= 1
    ensures |r.0| == |x| && r.1 <= 1
  {
    Chain(DecimalAdd, x, y, c)
  }

  lemma DigitOfSum(sum: nat)
    requires sum <= 19
    ensures Corrected(sum) % 16 == if sum > 9 then sum - 10 else sum
  {
  }

  lemma ByteSumExact(a: Byte, m: Byte, c: nat)
    requires IsDigits(a) && IsDigits(m) && c <= 1
    ensures var (s, carry) := DecimalAdd(a, m, c);
            IsDigits(s) && TwoDigits(s) + (if carry then 100 else 0) == TwoDigits(a) + TwoDigits(m) + c
  {
    DigitOfSum(LowSum(a, m, c));
    DigitOfSum(HighSum(a, m, c));
    Digits(Corrected(HighSum(a, m, c)) % 16, Corrected(LowSum(a, m, c)) % 16);
  }

  /** `s` and the carry `k` are the exact sum of the numbers `x` and `y` and of the carry `c`. */
  ghost predicate IsSum(x: seq<Byte>, y: seq<Byte>, c: nat, s: seq<Byte>, k: nat) {
    IsBcd(s) && DecimalValue(s) + k * Power(100, |x|) == DecimalValue(x) + DecimalValue(y) + c
  }

  /** The chain gives the exact decimal sum and the carry out of it. */
  lemma {:induction false} DecimalSumExact(x: seq<Byte>, y: seq<Byte>, c: nat)
    requires |x| == |y| && c <= 1 && IsBcd(x) && IsBcd(y)
    ensures IsSum(x, y, c, AddChain(x, y, c).0, AddChain(x, y, c).1)
  {
    if x != [] {
      var (s, carry) := DecimalAdd(x[0], y[0], c);
      ByteSumExact(x[0], y[0], c);
      DecimalSumExact(x[1..], y[1..], CarryBit(carry));
      var (rest, carryOut) := AddChain(x[1..], y[1..], CarryBit(carry));
      assert ([s] + rest)[1..] == rest;
      Scale(100, carryOut, |x|);
    }
  }

  lemma Scale(base: nat, c: nat, n: nat)
    requires n > 0 && c <= 1
    ensures c * Power(base, n) == base * (c * Power(base, n - 1))
  {
  }

  // ------------------------------------------------------------------ decimal subtraction

  function SubtractChain(x: seq<Byte>, y: seq<Byte>, c: nat): (r: (seq<Byte>, nat))
    requires |x| == |y| && c <= 1
    ensures |r.0| == |x| && r.1 <= 1
  {
    Chain(DecimalSubtract, x, y, c)
  }

  lemma ByteDifferenceExact(a: Byte, m: Byte, c: nat)
    requires IsDigits(a) && IsDigits(m) && c <= 1
    ensures var (s, carry) := DecimalSubtract(a, m, c);
            IsDigits(s) && TwoDigits(s) == TwoDigits(a) - TwoDigits(m) - (1 - c) + (if carry then 0 else 100)
  {
    var low, high := LowDifference(a, m, c), HighDifference(a, m, c);
    var l, h := Borrowed(low) % 16, Borrowed(high) % 16;
    assert l == (if low < 0 then low + 10 else low) && h == (if high < 0 then high + 10 else high);
    Digits(h, l);
  }

  /** `s` is the exact difference of `x` and `y`; a clear carry is a borrow, on the way in and out. */
  ghost predicate IsDifference(x: seq<Byte>, y: seq<Byte>, c: nat, s: seq<Byte>, k: nat) {
    IsBcd(s) && DecimalValue(s) - (1 - k) * Power(100, |x|) == DecimalValue(x) - DecimalValue(y) - (1 - c)
  }

  /** The chain gives the exact decimal difference and the borrow out of it. */
  lemma {:induction false} DecimalDifferenceExact(x: seq<Byte>, y: seq<Byte>, c: nat)
    requires |x| == |y| && c <= 1 && IsBcd(x) && IsBcd(y)
    ensures IsDifference(x, y, c, SubtractChain(x, y, c).0, SubtractChain(x, y, c).1)
  {
    if x != [] {
      var (s, carry) := DecimalSubtract(x[0], y[0], c);
      ByteDifferenceExact(x[0], y[0], c);
      DecimalDifferenceExact(x[1..], y[1..], CarryBit(carry));
      var (rest, carryOut) := SubtractChain(x[1..], y[1..], CarryBit(carry));
      assert ([s] + rest)[1..] == rest;
      Scale(100, 1 - carryOut, |x|);
    }
  }

  /** BCD operands never borrow so deeply that the 65C02 departs from the others. */
  lemma BcdNeverBorrowsDeeply(a: Byte, m: Byte, c: nat)
    requires IsDigits(a) && IsDigits(m) && c <= 1
    ensures !DeepBorrow(a, m, c)
  {
  }

  // ------------------------------------------------------------------ sixteen bits at a time

  function WideStep(step: (Byte, Byte, nat) -> (Byte, bool)): (Word, Word, nat) -> (Word, bool) {
    (a, m, c) => Paired(step, a, m, c)
  }

  function WideAddChain(x: seq<Word>, y: seq<Word>, c: nat): (r: (seq<Word>, nat))
    requires |x| == |y| && c <= 1
    ensures |r.0| == |x| && r.1 <= 1
  {
    Chain(WideStep(DecimalAdd), x, y, c)
  }

  function Bytes(x: seq<Word>): (b: seq<Byte>)
    ensures |b| == 2 * |x|
  {
    if x == [] then [] else [x[0] % 256] + ([x[0] / 256] + Bytes(x[1..]))
  }

  lemma Rejoined(low: Byte, high: Byte)
    ensures (low + 256 * high as int) % 256 == low && (low + 256 * high as int) / 256 == high
  {
  }

  lemma TwoSteps<T>(step: (T, T, nat) -> (T, bool), a0: T, a1: T, x: seq<T>, m0: T, m1: T, y: seq<T>, c: nat)
    requires |x| == |y| && c <= 1
    ensures var (s0, carry0) := step(a0, m0, c);
            var (s1, carry1) := step(a1, m1, CarryBit(carry0));
            var (rest, out) := Chain(step, x, y, CarryBit(carry1));
            Chain(step, [a0] + ([a1] + x), [m0] + ([m1] + y), c) == ([s0] + ([s1] + rest), out)
  {
    ChainFirst(step, a1, x, m1, y, CarryBit(step(a0, m0, c).1));
    ChainFirst(step, a0, [a1] + x, m0, [m1] + y, c);
  }

  lemma BytesFirst(w: Word, x: seq<Word>)
    ensures Bytes([w] + x) == [w % 256] + ([w / 256] + Bytes(x))
  {
    assert ([w] + x)[1..] == x;
  }

  lemma BytesOfPair(step: (Byte, Byte, nat) -> (Byte, bool), a: Word, m: Word, c: nat)
    ensures var (low, carry) := step(a % 256, m % 256, c);
            var (high, carryOut) := step(a / 256, m / 256, CarryBit(carry));
            var (s, wide) := WideStep(step)(a, m, c);
            s % 256 == low && s / 256 == high && wide == carryOut
  {
    var (low, carry) := step(a % 256, m % 256, c);
    Rejoined(low, step(a / 256, m / 256, CarryBit(carry)).0);
  }

  /** A chain of words computes what the chain of their bytes computes. */
  lemma {:induction false} WideChainAgrees(step: (Byte, Byte, nat) -> (Byte, bool), x: seq<Word>, y: seq<Word>, c: nat)
    requires |x| == |y| && c <= 1
    ensures var (s, k) := Chain<Word>(WideStep(step), x, y, c);
            Chain<Byte>(step, Bytes(x), Bytes(y), c) == (Bytes(s), k)
    decreases |x|
  {
    if x != [] {
      var (s, carry) := WideStep(step)(x[0], y[0], c);
      WideChainAgrees(step, x[1..], y[1..], CarryBit(carry));
      TwoSteps<Byte>(step, x[0] % 256, x[0] / 256, Bytes(x[1..]), y[0] % 256, y[0] / 256, Bytes(y[1..]), c);
      BytesOfPair(step, x[0], y[0], c);
      BytesFirst(s, Chain<Word>(WideStep(step), x[1..], y[1..], CarryBit(carry)).0);
    }
  }

  /** So the 16-bit adder and the 8-bit ones agree. */
  lemma WideAddersAgree(x: seq<Word>, y: seq<Word>, c: nat)
    requires |x| == |y| && c <= 1
    ensures AddChain(Bytes(x), Bytes(y), c) == (Bytes(WideAddChain(x, y, c).0), WideAddChain(x, y, c).1)
  {
    WideChainAgrees(DecimalAdd, x, y, c);
  }

  // ------------------------------------------------------------------ the chain on the 6510

  /** LDA, ADC or SBC, STA for each byte: the bytes stored and the registers at the end. */
  function Chain6510(op: LoadOp, r: Regs, x: seq<Byte>, y: seq<Byte>): (seq<Byte>, Regs)
    requires |x| == |y|
    decreases |x|
  {
    if x == [] then ([], r)
    else
      var t := Loaded(op, Loaded(LDA, r, x[0]), y[0]);
      var (rest, u) := Chain6510(op, t, x[1..], y[1..]);
      ([t.a] + rest, u)
  }

  lemma {:induction false} DecimalChain6510(r: Regs, x: seq<Byte>, y: seq<Byte>)
    requires |x| == |y| && r.f.d
    ensures Chain6510(ADC, r, x, y).0 == AddChain(x, y, CarryIn(r.f)).0
    ensures CarryIn(Chain6510(ADC, r, x, y).1.f) == AddChain(x, y, CarryIn(r.f)).1
    decreases |x|
  {
    if x != [] {
      var l := Loaded(LDA, r, x[0]);
      Adc6510(l, y[0]);
      DecimalChain6510(Adc(l, y[0]), x[1..], y[1..]);
    }
  }

  lemma {:induction false} SubtractChain6510(r: Regs, x: seq<Byte>, y: seq<Byte>)
    requires |x| == |y| && r.f.d
    ensures Chain6510(SBC, r, x, y).0 == SubtractChain(x, y, CarryIn(r.f)).0
    ensures CarryIn(Chain6510(SBC, r, x, y).1.f) == SubtractChain(x, y, CarryIn(r.f)).1
    decreases |x|
  {
    if x != [] {
      var l := Loaded(LDA, r, x[0]);
      Sbc6510(l, y[0]);
      SubtractChain6510(Sbc(l, y[0]), x[1..], y[1..]);
    }
  }

  // ------------------------------------------------------------------ the chains on the other chips

  /** ADC of each byte in turn, with the carry of the one before. */
  method AddChain65C02(x: seq<Byte>, y: seq<Byte>, c: nat) returns (s: seq<Byte>, k: nat)
    requires |x| == |y| && c <= 1
    ensures (s, k) == AddChain(x, y, c)
    ensures IsBcd(x) && IsBcd(y) ==> IsSum(x, y, c, s, k)
  {
    s, k := [], c;
    for i := 0 to |x|
      invariant k <= 1 && (s, k) == AddChain(x[..i], y[..i], c)
    {
      ChainNext(DecimalAdd, x, y, c, i);
      var r := DecimalAdc65C02(x[i], y[i], k);
      s, k := s + [r.a], CarryBit(r.c);
    }
    assert x[..|x|] == x && y[..|y|] == y;
    if IsBcd(x) && IsBcd(y) {
      DecimalSumExact(x, y, c);
    }
  }

  method AddChain65816(x: seq<Byte>, y: seq<Byte>, c: nat) returns (s: seq<Byte>, k: nat)
    requires |x| == |y| && c <= 1
    ensures (s, k) == AddChain(x, y, c)
    ensures IsBcd(x) && IsBcd(y) ==> IsSum(x, y, c, s, k)
  {
    s, k := [], c;
    for i := 0 to |x|
      invariant k <= 1 && (s, k) == AddChain(x[..i], y[..i], c)
    {
      ChainNext(DecimalAdd, x, y, c, i);
      var r := DecimalAdc65816(x[i], y[i], k);
      s, k := s + [r.a], CarryBit(r.c);
    }
    assert x[..|x|] == x && y[..|y|] == y;
    if IsBcd(x) && IsBcd(y) {
      DecimalSumExact(x, y, c);
    }
  }

  /** The same, two bytes at a time: the bytes of the sum are those of the other adders. */
  method WideAddChain65816(x: seq<Word>, y: seq<Word>, c: nat) returns (s: seq<Word>, k: nat)
    requires |x| == |y| && c <= 1
    ensures (Bytes(s), k) == AddChain(Bytes(x), Bytes(y), c)
    ensures IsBcd(Bytes(x)) && IsBcd(Bytes(y)) ==> IsSum(Bytes(x), Bytes(y), c, Bytes(s), k)
  {
    s, k := [], c;
    for i := 0 to |x|
      invariant k <= 1 && (s, k) == WideAddChain(x[..i], y[..i], c)
    {
      ChainNext(WideStep(DecimalAdd), x, y, c, i);
      var sum, carry, _, _, _ := DecimalAdc65816Wide(x[i], y[i], k);
      s, k := s + [sum], CarryBit(carry);
    }
    assert x[..|x|] == x && y[..|y|] == y;
    WideAddersAgree(x, y, c);
    if IsBcd(Bytes(x)) && IsBcd(Bytes(y)) {
      DecimalSumExact(Bytes(x), Bytes(y), c);
    }
  }

  method SubtractChain65816(x: seq<Byte>, y: seq<Byte>, c: nat) returns (s: seq<Byte>, k: nat)
    requires |x| == |y| && c <= 1
    ensures (s, k) == SubtractChain(x, y, c)
    ensures IsBcd(x) && IsBcd(y) ==> IsDifference(x, y, c, s, k)
  {
    s, k := [], c;
    for i := 0 to |x|
      invariant k <= 1 && (s, k) == SubtractChain(x[..i], y[..i], c)
    {
      ChainNext(DecimalSubtract, x, y, c, i);
      var r := DecimalSbc65816(x[i], y[i], k);
      s, k := s + [r.a], CarryBit(r.c);
    }
    assert x[..|x|] == x && y[..|y|] == y;
    if IsBcd(x) && IsBcd(y) {
      DecimalDifferenceExact(x, y, c);
    }
  }

  /** The carry that reaches byte `i` of a difference. */
  function BorrowInto(x: seq<Byte>, y: seq<Byte>, c: nat, i: nat): (k: nat)
    requires |x| == |y| && c <= 1 && i <= |x|
    ensures k <= 1
  {
    SubtractChain(x[..i], y[..i], c).1
  }

  ghost predicate DeepAt(x: seq<Byte>, y: seq<Byte>, c: nat, i: nat)
    requires |x| == |y| && c <= 1 && i < |x|
  {
    DeepBorrow(x[i], y[i], BorrowInto(x, y, c, i))
  }

  /** The carry is always that of the other chips, and each byte exactly where there is no second
      borrow: so everywhere for BCD operands. */
  method SubtractChain65C02(x: seq<Byte>, y: seq<Byte>, c: nat) returns (s: seq<Byte>, k: nat)
    requires |x| == |y| && c <= 1
    ensures |s| == |x| && k == SubtractChain(x, y, c).1
    ensures forall i: nat :: i < |x| ==> (s[i] == SubtractChain(x, y, c).0[i] <==> !DeepAt(x, y, c, i))
    ensures IsBcd(x) && IsBcd(y) ==> s == SubtractChain(x, y, c).0 && IsDifference(x, y, c, s, k)
  {
    s, k := [], c;
    for i := 0 to |x|
      invariant |s| == i && k == BorrowInto(x, y, c, i)
      invariant forall j: nat :: j < i ==> (s[j] == SubtractChain(x[..i], y[..i], c).0[j] <==> !DeepAt(x, y, c, j))
    {
      ChainNext(DecimalSubtract, x, y, c, i);
      var r := Sbc65C02(x[i], y[i], k, true);
      BorrowIsNegative(x[i], y[i], k);
      s, k := s + [r.a], CarryBit(r.c);
    }
    assert x[..|x|] == x && y[..|y|] == y;
    if IsBcd(x) && IsBcd(y) {
      forall i: nat | i < |x| ensures s[i] == SubtractChain(x, y, c).0[i] {
        BcdNeverBorrowsDeeply(x[i], y[i], BorrowInto(x, y, c, i));
      }
      DecimalDifferenceExact(x, y, c);
    }
  }

  ghost predicate AreBcd(x: seq<Word>) {
    forall i :: 0 <= i < |x| ==> IsDigits(x[i] % 256) && IsDigits(x[i] / 256)
  }

  ghost predicate FitBytes(x: seq<Word>) {
    forall i :: 0 <= i < |x| ==> x[i] < 0x100
  }

  function WideSubtractChain(x: seq<Word>, y: seq<Word>, c: nat): (r: (seq<Word>, nat))
    requires |x| == |y| && c <= 1
    ensures |r.0| == |x| && r.1 <= 1
  {
    Chain(WideStep(DecimalSubtract), x, y, c)
  }

  lemma NothingLess(a: Byte, m: Byte, c: nat)
    requires IsDigits(a) && IsDigits(m) && c <= 1
    ensures DecimalSubtract(0, m, c).0 == DecimalSubtract(a, m, c).0 <==> a == 0
  {
    assert IsDigits(0) && TwoDigits(0) == 0;
    ByteDifferenceExact(a, m, c);
    ByteDifferenceExact(0, m, c);
  }

  /** Forgetting the high byte of a BCD accumulator gives the wrong word, unless that byte is zero. */
  lemma HighByteMatters(a: Word, m: Word, c: nat)
    requires IsDigits(a % 256) && IsDigits(a / 256) && IsDigits(m / 256) && c <= 1
    ensures WideDecimalSubtract(a % 256, m, c).0 == WideDecimalSubtract(a, m, c).0 <==> a < 0x100
    ensures a < 0x100 ==> WideDecimalSubtract(a % 256, m, c) == WideDecimalSubtract(a, m, c)
  {
    var (low, carry) := DecimalSubtract(a % 256, m % 256, c);
    assert a % 256 % 256 == a % 256 && a % 256 / 256 == 0;
    NothingLess(a / 256, m / 256, CarryBit(carry));
    Rejoined(low, DecimalSubtract(0, m / 256, CarryBit(carry)).0);
    Rejoined(low, DecimalSubtract(a / 256, m / 256, CarryBit(carry)).0);
  }

  /** Two bytes at a time the 65816 subtracts BCD numbers right exactly if no word of the minuend needs
      its high byte. */
  method WideSubtractChain65816(x: seq<Word>, y: seq<Word>, c: nat) returns (s: seq<Word>, k: nat)
    requires |x| == |y| && c <= 1 && AreBcd(x) && AreBcd(y)
    ensures s == WideSubtractChain(x, y, c).0 <==> FitBytes(x)
    ensures FitBytes(x) ==> (Bytes(s), k) == SubtractChain(Bytes(x), Bytes(y), c)
  {
    s, k := [], c;
    for i := 0 to |x|
      invariant k <= 1 && RightIfFit(x[..i], y[..i], c, s, k)
    {
      var difference, carry, _, _, _ := DecimalSbc65816Wide(x[i], y[i], k);
      RightIfFitNext(x, y, c, i, s, k, difference, carry);
      s, k := s + [difference], CarryBit(carry);
    }
    assert x[..|x|] == x && y[..|y|] == y;
    WideChainAgrees(DecimalSubtract, x, y, c);
  }

  ghost predicate RightIfFit(x: seq<Word>, y: seq<Word>, c: nat, s: seq<Word>, k: nat)
    requires |x| == |y| && c <= 1
  {
    && |s| == |x| && (s == WideSubtractChain(x, y, c).0 <==> FitBytes(x))
    && (FitBytes(x) ==> k == WideSubtractChain(x, y, c).1)
  }

  lemma RightIfFitNext(x: seq<Word>, y: seq<Word>, c: nat, i: nat, s: seq<Word>, k: nat, d: Word, carry: bool)
    requires |x| == |y| && c <= 1 && k <= 1 && i < |x| && AreBcd(x) && AreBcd(y)
    requires RightIfFit(x[..i], y[..i], c, s, k) && (d, carry) == WideDecimalSubtract(x[i] % 256, y[i], k)
    ensures RightIfFit(x[..i + 1], y[..i + 1], c, s + [d], CarryBit(carry))
  {
    ChainNext(WideStep(DecimalSubtract), x, y, c, i);
    HighByteMatters(x[i], y[i], k);
    var (t, kk) := WideSubtractChain(x[..i], y[..i], c);
    assert WideStep(DecimalSubtract)(x[i], y[i], kk) == WideDecimalSubtract(x[i], y[i], kk);
    hide WideDecimalSubtract, Chain;
    OneMoreWord(s, t, d, WideDecimalSubtract(x[i], y[i], kk).0);
    assert x[..i + 1] == x[..i] + [x[i]];
  }

  lemma OneMoreWord(s: seq<Word>, t: seq<Word>, d: Word, e: Word)
    requires |s| == |t|
    ensures s + [d] == t + [e] <==> s == t && d == e
  {
    assert (s + [d])[..|s|] == s && (t + [e])[..|s|] == t;
    assert (s + [d])[|s|] == d && (t + [e])[|s|] == e;
  }

  /** 0x0100 minus nothing leaves nothing. */
  method HighByteForgotten() returns (result: Word)
    ensures WideDecimalSubtract(0x0100, 0, 1) == (0x0100, true) && result != 0x0100
  {
    hide WideDecimalSubtract;
    NothingTaken(0x0100);
    HighByteMatters(0x0100, 0, 1);
    var difference, _, _, _, _ := DecimalSbc65816Wide(0x0100, 0, 1);
    return difference;
  }

  lemma NoByteTaken(a: Byte)
    requires IsDigits(a)
    ensures DecimalSubtract(a, 0, 1) == (a, true)
  {
    var low, high := a % 16, a / 16;
    assert LowDifference(a, 0, 1) == low && HighDifference(a, 0, 1) == high;
    assert Borrowed(low) % 16 == low && Borrowed(high) % 16 == high;
  }

  lemma NothingTaken(a: Word)
    requires IsDigits(a % 256) && IsDigits(a / 256)
    ensures WideDecimalSubtract(a, 0, 1) == (a, true)
  {
    hide DecimalSubtract;
    NoByteTaken(a % 256);
    NoByteTaken(a / 256);
  }

  // ------------------------------------------------------------------ binary mode

  datatype Operation = Plus | Minus

  /** What a carry adds to a sum; a clear carry is a borrow. */
  function Excess(op: Operation, c: nat): int {
    if op.Plus? then c as int else c - 1
  }

  function Total(op: Operation, a: int, m: int, c: nat): int {
    (if op.Plus? then a + m else a - m) + Excess(op, c)
  }

  /** One digit of a binary sum or difference, and its carry. */
  function Step(op: Operation, base: nat): (int, int, nat) -> (int, bool) {
    (a: int, m: int, c: nat) =>
      var t := Total(op, a, m, c);
      if op.Plus? then (if t >= base then (t - base, true) else (t, false))
      else (if t < 0 then (t + base, false) else (t, true))
  }

  /** Digits of some base, lowest first, as a number and as a two's complement number. */
  function Number(base: nat, s: seq<int>): int {
    if s == [] then 0 else s[0] + base * Number(base, s[1..])
  }

  function SignedDigit(base: nat, d: int): int {
    if d >= base / 2 then d - base else d
  }

  function Signed(base: nat, s: seq<int>): int
    requires s != []
  {
    if |s| == 1 then SignedDigit(base, s[0]) else s[0] + base * Signed(base, s[1..])
  }

  predicate InSignedRange(base: nat, v: int, n: nat)
    requires n > 0
  {
    -(base / 2 * Power(base, n - 1)) <= v < base / 2 * Power(base, n - 1)
  }

  ghost predicate AreDigits(base: nat, s: seq<int>) {
    forall i :: 0 <= i < |s| ==> 0 <= s[i] < base
  }

  /** `s` and the carry `k` are the exact sum or difference of `x` and `y`, and `v` says whether it is
      out of the signed range. */
  ghost predicate IsResult(op: Operation, base: nat, x: seq<int>, y: seq<int>, c: nat, s: seq<int>, k: nat, v: bool)
    requires |x| == |y|
  {
    && |s| == |x|
    && Number(base, s) + Excess(op, k) * Power(base, |x|) == Total(op, Number(base, x), Number(base, y), c)
    && (x != [] ==> (v <==> !InSignedRange(base, Total(op, Signed(base, x), Signed(base, y), c), |x|)))
  }

  lemma StepExact(op: Operation, base: nat, a: int, m: int, c: nat)
    ensures var (s, carry) := Step(op, base)(a, m, c); s + base * Excess(op, CarryBit(carry)) == Total(op, a, m, c)
  {
  }

  lemma Shifted(base: nat, excess: int, n: nat)
    requires n > 0
    ensures excess * Power(base, n) == base * (excess * Power(base, n - 1))
  {
  }

  /** Total is the same digit by digit. */
  lemma TotalByDigits(op: Operation, base: nat, a: int, x: int, m: int, y: int, c: nat)
    ensures var (s, carry) := Step(op, base)(a, m, c);
            Total(op, a + base * x, m + base * y, c) == s + base * Total(op, x, y, CarryBit(carry))
  {
    var (s, carry) := Step(op, base)(a, m, c);
    StepExact(op, base, a, m, c);
    var k := Excess(op, CarryBit(carry));
    if op.Plus? {
      assert base * (x + y + k) == base * x + base * y + base * k;
    } else {
      assert base * (x - y + k) == base * x - base * y + base * k;
    }
  }

  /** In binary mode the chain gives the sum modulo a power of the base, and the carry out of it. */
  lemma {:induction false} BinaryChainExact(op: Operation, base: nat, x: seq<int>, y: seq<int>, c: nat)
    requires |x| == |y| && c <= 1
    ensures var (s, k) := Chain(Step(op, base), x, y, c);
            Number(base, s) + Excess(op, k) * Power(base, |x|) == Total(op, Number(base, x), Number(base, y), c)
    decreases |x|
  {
    if x != [] {
      var (s, carry) := Step(op, base)(x[0], y[0], c);
      BinaryChainExact(op, base, x[1..], y[1..], CarryBit(carry));
      var (rest, k) := Chain(Step(op, base), x[1..], y[1..], CarryBit(carry));
      assert ([s] + rest)[1..] == rest;
      Shifted(base, Excess(op, k), |x|);
      Spread(base, Number(base, rest), Excess(op, k) * Power(base, |x| - 1));
      TotalByDigits(op, base, x[0], Number(base, x[1..]), y[0], Number(base, y[1..]), c);
      hide Total, Excess, Power;
    }
  }

  lemma {:induction false} MultipleOf(base: nat, q: nat)
    ensures q > 0 ==> base * q >= base
    ensures base * q >= 0
  {
    if q > 0 {
      MultipleOf(base, q - 1);
      assert base * q == base * (q - 1) + base;
    }
  }

  lemma Multiple(base: nat, q: int)
    ensures q > 0 ==> base * q >= base
    ensures q <= 0 ==> base * q <= 0
    ensures base * -q == -(base * q)
  {
    MultipleOf(base, if q < 0 then -q else q);
  }

  lemma Spread(base: nat, p: int, q: int)
    ensures base * (p + q) == base * p + base * q
  {
  }

  lemma ScaledBound(base: nat, v: int, low: int, q: int)
    requires 0 <= low < base
    ensures base * v + low < base * q <==> v < q
    ensures -(base * q) <= base * v + low <==> -q <= v
  {
    Multiple(base, v);
    Spread(base, q, -v);
    Spread(base, q, v);
    Multiple(base, q - v);
    Multiple(base, q + v);
    Multiple(base, -(q + v));
  }

  lemma RangeByTop(base: nat, v: int, low: int, n: nat)
    requires n > 1 && 0 <= low < base
    ensures InSignedRange(base, low + base * v, n) <==> InSignedRange(base, v, n - 1)
  {
    Shifted(base, base / 2, n - 1);
    ScaledBound(base, v, low, base / 2 * Power(base, n - 2));
  }

  function CarryInto(op: Operation, base: nat, x: seq<int>, y: seq<int>, c: nat, i: nat): (k: nat)
    requires |x| == |y| && c <= 1 && i <= |x|
    ensures k <= 1
  {
    Chain(Step(op, base), x[..i], y[..i], c).1
  }

  lemma CarryIntoTail(op: Operation, base: nat, x: seq<int>, y: seq<int>, c: nat, i: nat)
    requires |x| == |y| && c <= 1 && 0 < i <= |x|
    ensures CarryInto(op, base, x, y, c, i)
            == CarryInto(op, base, x[1..], y[1..], CarryBit(Step(op, base)(x[0], y[0], c).1), i - 1)
  {
    PrefixFrom(x, i);
    PrefixFrom(y, i);
    ChainFirst(Step(op, base), x[0], x[1..][..i - 1], y[0], y[1..][..i - 1], c);
  }

  /** The top digit, with the carry into it, leaves the signed range. */
  predicate TopOverflows(op: Operation, base: nat, a: int, m: int, k: nat) {
    !(-(base / 2) <= Total(op, SignedDigit(base, a), SignedDigit(base, m), k) < base / 2)
  }

  lemma StepInRange(op: Operation, base: nat, a: int, m: int, c: nat)
    requires c <= 1 && 0 <= a < base && 0 <= m < base
    ensures 0 <= Step(op, base)(a, m, c).0 < base
  {
  }

  /** ... and that is the signed overflow of the whole numbers. */
  lemma {:induction false} BinaryOverflowExact(op: Operation, base: nat, x: seq<int>, y: seq<int>, c: nat)
    requires |x| == |y| > 0 && c <= 1 && AreDigits(base, x) && AreDigits(base, y)
    ensures var n := |x|;
            TopOverflows(op, base, x[n - 1], y[n - 1], CarryInto(op, base, x, y, c, n - 1))
            <==> !InSignedRange(base, Total(op, Signed(base, x), Signed(base, y), c), n)
    decreases |x|
  {
    var n := |x|;
    if n == 1 {
      assert x[..0] == [] && y[..0] == [];
      assert Power(base, 0) == 1;
    } else {
      var (s, carry) := Step(op, base)(x[0], y[0], c);
      var x', y' := x[1..], y[1..];
      BinaryOverflowExact(op, base, x', y', CarryBit(carry));
      CarryIntoTail(op, base, x, y, c, n - 1);
      TotalByDigits(op, base, x[0], Signed(base, x'), y[0], Signed(base, y'), c);
      StepInRange(op, base, x[0], y[0], c);
      RangeByTop(base, Total(op, Signed(base, x'), Signed(base, y'), CarryBit(carry)), s, n);
    }
  }

  // ------------------------------------------------------------------ binary chains on the chips

  /** The first `i` digits done, with the overflow of the last of them. */
  ghost predicate Chained(op: Operation, base: nat, x: seq<int>, y: seq<int>, c: nat, i: nat,
                          s: seq<int>, k: nat, v: bool)
    requires |x| == |y| && c <= 1
  {
    && i <= |x| && (s, k) == Chain(Step(op, base), x[..i], y[..i], c)
    && (i > 0 ==> v == TopOverflows(op, base, x[i - 1], y[i - 1], CarryInto(op, base, x, y, c, i - 1)))
  }

  lemma ChainedNone(op: Operation, base: nat, x: seq<int>, y: seq<int>, c: nat)
    requires |x| == |y| && c <= 1
    ensures Chained(op, base, x, y, c, 0, [], c, false)
  {
  }

  lemma ChainedNext(op: Operation, base: nat, x: seq<int>, y: seq<int>, c: nat, i: nat,
                    s: seq<int>, k: nat, v: bool, d: int, carry: bool, overflow: bool)
    requires |x| == |y| && c <= 1 && i < |x| && Chained(op, base, x, y, c, i, s, k, v)
    requires (d, carry) == Step(op, base)(x[i], y[i], k) && overflow == TopOverflows(op, base, x[i], y[i], k)
    ensures Chained(op, base, x, y, c, i + 1, s + [d], CarryBit(carry), overflow)
  {
    ChainNext(Step(op, base), x, y, c, i);
  }

  lemma ChainedExact(op: Operation, base: nat, x: seq<int>, y: seq<int>, c: nat, s: seq<int>, k: nat, v: bool)
    requires |x| == |y| && c <= 1 && AreDigits(base, x) && AreDigits(base, y)
    requires Chained(op, base, x, y, c, |x|, s, k, v)
    ensures IsResult(op, base, x, y, c, s, k, v)
  {
    assert x[..|x|] == x && y[..|y|] == y;
    BinaryChainExact(op, base, x, y, c);
    if x != [] {
      BinaryOverflowExact(op, base, x, y, c);
    }
  }

  /** The overflow flag of a byte, from the sign bits of operands and sum. */
  lemma SumOverflow(a: Byte, m: Byte, c: nat, s: Byte)
    requires c <= 1 && s == (if a + m + c >= 256 then a + m + c - 256 else a + m + c)
    ensures Overflows(a, m, s) == TopOverflows(Plus, 256, a, m, c)
  {
    SignBit(a);
    SignBit(m);
    SignBit(s);
  }

  lemma SignBit(a: Byte)
    ensures a / 128 % 2 == if a >= 128 then 1 else 0
  {
  }

  lemma DifferenceOverflow(a: Byte, m: Byte, c: nat)
    requires c <= 1
    ensures (SignsDiffer(a, a - m - (1 - c)) && SignsDiffer(a, m)) == TopOverflows(Minus, 256, a, m, c)
  {
    var d := a - m - (1 - c);
    SignBit(a);
    SignBit(m);
    if d < 0 {
      SignBit(d + 256);
      SignOfComplementSum(d);
    } else {
      SignBit(d);
    }
  }

  /** ADC or SBC of each byte in turn, decimal mode off. */
  method BinaryChain65C02(op: Operation, x: seq<Byte>, y: seq<Byte>, c: nat) returns (s: seq<Byte>, k: nat, v: bool)
    requires |x| == |y| && c <= 1
    ensures IsResult(op, 256, x, y, c, s, k, v)
  {
    s, k, v := [], c, false;
    ChainedNone(op, 256, x, y, c);
    for i := 0 to |x|
      invariant k <= 1 && Chained(op, 256, x, y, c, i, s, k, v)
    {
      var r := BinaryStep65C02(op, x[i], y[i], k);
      ChainedNext(op, 256, x, y, c, i, s, k, v, r.a, r.c, r.v);
      s, k, v := s + [r.a], CarryBit(r.c), r.v;
    }
    ChainedExact(op, 256, x, y, c, s, k, v);
  }

  method BinaryStep65C02(op: Operation, a: Byte, m: Byte, c: nat) returns (r: Outcome)
    requires c <= 1
    ensures (r.a as int, r.c) == Step(op, 256)(a, m, c) && r.v == TopOverflows(op, 256, a, m, c)
  {
    if op.Plus? {
      r := BinaryAdc65C02(a, m, c);
      SumOverflow(a, m, c, r.a);
    } else {
      r := Sbc65C02(a, m, c, false);
      DifferenceOverflow(a, m, c);
    }
  }

  method BinaryChain65816(op: Operation, x: seq<Byte>, y: seq<Byte>, c: nat) returns (s: seq<Byte>, k: nat, v: bool)
    requires |x| == |y| && c <= 1
    ensures IsResult(op, 256, x, y, c, s, k, v)
  {
    s, k, v := [], c, false;
    ChainedNone(op, 256, x, y, c);
    for i := 0 to |x|
      invariant k <= 1 && Chained(op, 256, x, y, c, i, s, k, v)
    {
      var r := BinaryStep65816(op, x[i], y[i], k);
      ChainedNext(op, 256, x, y, c, i, s, k, v, r.a, r.c, r.v);
      s, k, v := s + [r.a], CarryBit(r.c), r.v;
    }
    ChainedExact(op, 256, x, y, c, s, k, v);
  }

  method BinaryStep65816(op: Operation, a: Byte, m: Byte, c: nat) returns (r: Outcome)
    requires c <= 1
    ensures (r.a as int, r.c) == Step(op, 256)(a, m, c) && r.v == TopOverflows(op, 256, a, m, c)
  {
    if op.Plus? {
      r := BinaryAdc65816(a, m, c);
      SumOverflow(a, m, c, r.a);
    } else {
      r := BinarySbc65816(a, m, c);
      DifferenceOverflow(a, m, c);
    }
  }

  /** The same with a 16-bit accumulator, two bytes at a time. */
  method WideBinaryChain65816(op: Operation, x: seq<Word>, y: seq<Word>, c: nat)
    returns (s: seq<Word>, k: nat, v: bool)
    requires |x| == |y| && c <= 1
    ensures IsResult(op, 0x1_0000, x, y, c, s, k, v)
  {
    s, k, v := [], c, false;
    ChainedNone(op, 0x1_0000, x, y, c);
    for i := 0 to |x|
      invariant k <= 1 && Chained(op, 0x1_0000, x, y, c, i, s, k, v)
    {
      var w, carry, overflow := WideBinaryStep65816(op, x[i], y[i], k);
      ChainedNext(op, 0x1_0000, x, y, c, i, s, k, v, w, carry, overflow);
      s, k, v := s + [w], CarryBit(carry), overflow;
    }
    ChainedExact(op, 0x1_0000, x, y, c, s, k, v);
  }

  method WideBinaryStep65816(op: Operation, a: Word, m: Word, c: nat) returns (w: Word, carry: bool, overflow: bool)
    requires c <= 1
    ensures (w as int, carry) == Step(op, 0x1_0000)(a, m, c) && overflow == TopOverflows(op, 0x1_0000, a, m, c)
  {
    if op.Plus? {
      var sum, k, v, _, _ := BinaryAdc65816Wide(a, m, c);
      return sum, k, v;
    } else {
      var difference, k, v, _, _ := BinarySbc65816Wide(a, m, c);
      return difference, k, v;
    }
  }

  // ------------------------------------------------------------------ binary chains on the 6510

  function Macro6510(op: Operation): LoadOp {
    if op.Plus? then ADC else SBC
  }

  lemma SumStep6510(r: Regs, m: Byte)
    requires !r.f.d
    ensures var t := Adc(r, m); var c := CarryIn(r.f);
            && (t.a as int, t.f.c) == Step(Plus, 256)(r.a, m, c) && !t.f.d
            && t.f.v == TopOverflows(Plus, 256, r.a, m, c)
  {
    var sum := r.a + m + CarryIn(r.f);
    var s: Byte := if sum >= 256 then sum - 256 else sum;
    assert sum % 256 == s;
    SumOverflow(r.a, m, CarryIn(r.f), s);
    SignOfByte(sum, s);
  }

  lemma SignOfByte(sum: nat, s: Byte)
    requires sum == s || sum == s + 256
    ensures Negative(sum) == Negative(s)
  {
  }

  lemma DifferenceStep6510(r: Regs, m: Byte)
    requires !r.f.d
    ensures var t := Sbc(r, m); var c := CarryIn(r.f);
            && (t.a as int, t.f.c) == Step(Minus, 256)(r.a, m, c) && !t.f.d
            && t.f.v == TopOverflows(Minus, 256, r.a, m, c)
  {
    DifferenceOverflow(r.a, m, CarryIn(r.f));
    hide TopOverflows;
  }

  lemma BinaryStep6510(op: Operation, r: Regs, m: Byte)
    requires !r.f.d
    ensures var t := Loaded(Macro6510(op), r, m);
            && (t.a as int, t.f.c) == Step(op, 256)(r.a, m, CarryIn(r.f)) && !t.f.d
            && t.f.v == TopOverflows(op, 256, r.a, m, CarryIn(r.f))
  {
    if op.Plus? {
      SumStep6510(r, m);
    } else {
      DifferenceStep6510(r, m);
    }
    hide TopOverflows, Adc, Sbc, Step;
  }

  lemma {:induction false} ChainOf6510(op: Operation, r: Regs, x: seq<Byte>, y: seq<Byte>)
    requires |x| == |y| && !r.f.d
    ensures var (s, t) := Chain6510(Macro6510(op), r, x, y);
            && (s, CarryIn(t.f)) == Chain(Step(op, 256), x, y, CarryIn(r.f))
            && (x != [] ==> t.f.v == TopOverflows(op, 256, x[|x| - 1], y[|x| - 1],
                                                  CarryInto(op, 256, x, y, CarryIn(r.f), |x| - 1)))
    decreases |x|
  {
    if x != [] {
      var c := CarryIn(r.f);
      var t := Loaded(Macro6510(op), Loaded(LDA, r, x[0]), y[0]);
      BinaryStep6510(op, Loaded(LDA, r, x[0]), y[0]);
      ChainOf6510(op, t, x[1..], y[1..]);
      if |x| == 1 {
        assert x[..0] == [] && y[..0] == [];
      } else {
        CarryIntoTail(op, 256, x, y, c, |x| - 1);
      }
    }
  }

  /** LDA, ADC or SBC, STA over bytes of the 6510, decimal mode off. */
  lemma BinaryChain6510(op: Operation, r: Regs, x: seq<Byte>, y: seq<Byte>)
    requires |x| == |y| && !r.f.d
    ensures var (s, t) := Chain6510(Macro6510(op), r, x, y);
            IsResult(op, 256, x, y, CarryIn(r.f), s, CarryIn(t.f), t.f.v)
  {
    var (s, t) := Chain6510(Macro6510(op), r, x, y);
    ChainOf6510(op, r, x, y);
    assert x[..|x|] == x && y[..|y|] == y;
    ChainedExact(op, 256, x, y, CarryIn(r.f), s, CarryIn(t.f), t.f.v);
  }
}
