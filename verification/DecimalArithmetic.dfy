/** Decimal ADC and SBC in four implementations: the 6510 (both cores), the 65C02, and the 65816 with
    an 8-bit and with a 16-bit accumulator. */
module DecimalArithmetic {
  import opened ByteBits
  import opened Bitwise
  import opened Mos6510
  import Wide = Wdc65816

  // ------------------------------------------------------------------ digit-wise reference

  /** The sum of the low digits, and of the high digits with the carry from below. */
  function LowSum(a: Byte, m: Byte, c: nat): nat {
    a % 16 + m % 16 + c
  }

  function HighSum(a: Byte, m: Byte, c: nat): nat {
    a / 16 + m / 16 + if LowSum(a, m, c) > 9 then 1 else 0
  }

  function Corrected(digit: nat): nat {
    if digit > 9 then digit + 6 else digit
  }

  /** Both digits and the carry of a decimal sum; digits above nine are let through as the chips do. */
  function DecimalAdd(a: Byte, m: Byte, c: nat): (Byte, bool) {
    (16 * (Corrected(HighSum(a, m, c)) % 16) + Corrected(LowSum(a, m, c)) % 16, HighSum(a, m, c) > 9)
  }

  function LowDifference(a: Byte, m: Byte, c: nat): int {
    a % 16 - m % 16 - (1 - c)
  }

  function HighDifference(a: Byte, m: Byte, c: nat): int {
    a / 16 - m / 16 - if LowDifference(a, m, c) < 0 then 1 else 0
  }

  function Borrowed(digit: int): int {
    if digit < 0 then digit - 6 else digit
  }

  /** Both digits and the carry (no borrow) of a decimal difference. */
  function DecimalSubtract(a: Byte, m: Byte, c: nat): (Byte, bool) {
    (16 * (Borrowed(HighDifference(a, m, c)) % 16) + Borrowed(LowDifference(a, m, c)) % 16,
     HighDifference(a, m, c) >= 0)
  }

  lemma Digits(h: int, x: int)
    requires 0 <= x < 16
    ensures (16 * h + x) % 16 == x && (16 * h + x) / 16 == h
  {
  }

  lemma HighMod(h: int, x: int)
    requires 0 <= x < 16
    ensures (16 * h + x) % 256 == 16 * (h % 16) + x
  {
    assert 16 * h + x == 256 * (h / 16) + (16 * (h % 16) + x);
  }

  // ------------------------------------------------------------------ the 6510

  lemma Sum6510(a: Byte, m: Byte, c: nat)
    requires c <= 1
    ensures DecimalSum(a, m, c) == 16 * HighSum(a, m, c) + Corrected(LowSum(a, m, c)) % 16
  {
  }

  /** Decimal ADC of both 6510 cores, for all operands. */
  lemma Adc6510(r: Regs, m: Byte)
    requires r.f.d
    ensures (Adc(r, m).a, Adc(r, m).f.c) == DecimalAdd(r.a, m, CarryIn(r.f))
  {
    var c := CarryIn(r.f);
    Sum6510(r.a, m, c);
    CorrectedSum(HighSum(r.a, m, c), Corrected(LowSum(r.a, m, c)) % 16);
  }

  lemma CorrectedSum(high: nat, x: nat)
    requires high < 32 && x < 16
    ensures var t := 16 * high + x;
            var u := if t - t % 16 > 0x90 then t + 0x60 else t;
            u % 256 == 16 * (Corrected(high) % 16) + x && (u - u % 16 > 0xf0 <==> high > 9)
  {
    Digits(high, x);
    Digits(high + 6, x);
    HighMod(Corrected(high), x);
  }

  lemma Difference6510(a: Byte, m: Byte, c: nat)
    requires c <= 1
    ensures DecimalDifference(a, m, c)
            == 16 * Borrowed(HighDifference(a, m, c)) + Borrowed(LowDifference(a, m, c)) % 16
  {
  }

  lemma DifferenceIs(a: Byte, m: Byte, c: nat)
    requires c <= 1
    ensures DecimalDifference(a, m, c) % 256 == DecimalSubtract(a, m, c).0
  {
    Difference6510(a, m, c);
    HighMod(Borrowed(HighDifference(a, m, c)), Borrowed(LowDifference(a, m, c)) % 16);
  }

  lemma PartsOfSbc(r: Regs, m: Byte)
    requires r.f.d
    ensures Sbc(r, m).a == DecimalDifference(r.a, m, CarryIn(r.f)) % 256
    ensures Sbc(r, m).f.c == (r.a - m - (1 - CarryIn(r.f)) >= 0)
  {
  }

  /** Decimal SBC of both 6510 cores, for all operands. */
  lemma Sbc6510(r: Regs, m: Byte)
    requires r.f.d
    ensures (Sbc(r, m).a, Sbc(r, m).f.c) == DecimalSubtract(r.a, m, CarryIn(r.f))
  {
    PartsOfSbc(r, m);
    DifferenceIs(r.a, m, CarryIn(r.f));
    BorrowIsNegative(r.a, m, CarryIn(r.f));
  }

  lemma BorrowIsNegative(a: Byte, m: Byte, c: nat)
    requires c <= 1
    ensures a - m - (1 - c) >= 0 <==> HighDifference(a, m, c) >= 0
  {
  }

  // ------------------------------------------------------------------ the 65C02

  datatype Outcome = Outcome(a: Byte, c: bool, v: bool, n: bool, z: bool)

  /** LOCAL_SET_NZ and the assignment to the accumulator, of a byte or of a value that they cut to one. */
  function ByteResult(b: Byte, c: bool, v: bool): Outcome {
    Outcome(b, c, v, b >= 128, b == 0)
  }

  function Result(tmp: int, c: bool, v: bool): Outcome {
    ByteResult(tmp % 256, c, v)
  }

  /** N and Z describe the byte that ends up in the accumulator. */
  predicate Flagged(r: Outcome) {
    r.n == (r.a >= 128) && r.z == (r.a == 0)
  }

  /** The overflow of an addition whose sum, before decimal correction of the high digit, is `sum`. */
  predicate Overflows(a: Byte, m: Byte, sum: int) {
    !SignsDiffer(a, m) && SignsDiffer(a, sum)
  }

  lemma SignOfDigits(h: int, x: int)
    requires 0 <= x < 16
    ensures (16 * h + x) / 128 == h / 8 && 16 * h / 128 == h / 8
  {
  }

  /** The high digit of a sum, corrected in place, and its carry. */
  method CorrectHigh(sum: nat, ghost high: nat) returns (digit: int, carry: bool)
    requires sum == 16 * high
    ensures digit == 16 * (Corrected(high) % 16) && carry == (high > 9)
  {
    var tmp2 := if sum > 0x90 then sum + 0x60 else sum;
    HighNibble(Corrected(high));
    digit, carry := tmp2 % 256 - tmp2 % 16, tmp2 / 256 != 0;
  }

  lemma HighNibble(h: nat)
    ensures 16 * h % 16 == 0 && 16 * h % 256 == 16 * (h % 16) && (16 * h / 256 != 0 <==> h >= 16)
  {
    HighMod(h, 0);
  }

  /** Both digit sums, the low one corrected, the high one in place. */
  method DigitSums(a: Byte, value: Byte, c: nat) returns (low: nat, high: nat)
    requires c <= 1
    ensures low == Corrected(LowSum(a, value, c)) && high == 16 * HighSum(a, value, c)
  {
    low := a % 16 + value % 16 + c;
    high := (a - a % 16) + (value - value % 16);
    if low > 9 {
      high := high + 0x10;
      low := low + 6;
    }
  }

  method DecimalAdc65C02(a: Byte, value: Byte, c: nat) returns (r: Outcome)
    requires c <= 1
    ensures Flagged(r)
    ensures (r.a, r.c) == DecimalAdd(a, value, c) && r.v == Overflows(a, value, DecimalSum(a, value, c))
  {
    var tmp, tmp2 := DigitSums(a, value, c);
    var v := OverflowOfAdc65C02(a, value, c, tmp2);
    var digit, carry := CorrectHigh(tmp2, HighSum(a, value, c));
    r := ByteResult(tmp % 16 + digit, carry, v);
  }

  method OverflowOfAdc65C02(a: Byte, value: Byte, c: nat, tmp2: nat) returns (v: bool)
    requires c <= 1 && tmp2 == 16 * HighSum(a, value, c)
    ensures v == Overflows(a, value, DecimalSum(a, value, c))
  {
    v := !SignsDiffer(a, value) && SignsDiffer(a, tmp2);
    OverflowOfHighDigits(a, value, c);
  }

  lemma OverflowOfHighDigits(a: Byte, m: Byte, c: nat)
    requires c <= 1
    ensures SignsDiffer(a, 16 * HighSum(a, m, c)) == SignsDiffer(a, DecimalSum(a, m, c))
  {
    Sum6510(a, m, c);
    SignOfDigits(HighSum(a, m, c), Corrected(LowSum(a, m, c)) % 16);
  }

  method BinaryAdc65C02(a: Byte, value: Byte, c: nat) returns (r: Outcome)
    requires c <= 1
    ensures Flagged(r)
    ensures r.a + (if r.c then 256 else 0) == a + value + c && r.v == Overflows(a, value, r.a)
  {
    var tmp := value + a + c;
    r := Result(tmp, tmp > 0xff, !SignsDiffer(a, value) && SignsDiffer(a, tmp));
  }

  /** Where the low digits borrow so deeply that the 65C02 takes a second borrow from the high digit. */
  predicate DeepBorrow(a: Byte, m: Byte, c: nat) {
    LowDifference(a, m, c) < -10
  }

  /** What a 16-bit unsigned variable makes of a small difference. */
  lemma Word16(t: int)
    requires -0x1000 <= t < 0x1000
    ensures t % 0x1_0000 == if t < 0 then t + 0x1_0000 else t
    ensures t % 0x1_0000 % 256 == t % 256
    ensures t % 0x1_0000 / 128 % 2 == t / 128 % 2
  {
    if t < 0 {
      assert t % 0x1_0000 == t + 0x1_0000;
      assert t + 0x1_0000 == 256 * (t / 256 + 256) + t % 256;
      assert t + 0x1_0000 == 128 * (t / 128 + 512) + t % 128;
    }
  }

  /** A decimal difference corrected as a whole, as the 65C02 does it. */
  function WholeCorrection(a: Byte, m: Byte, c: nat): int
    requires c <= 1
  {
    var d := a - m - (1 - c);
    d - (if d < 0 then 0x60 else 0) - (if a % 16 - m % 16 - (1 - c) < 0 then 6 else 0)
  }

  lemma CorrectionByDigits(a: Byte, m: Byte, c: nat)
    requires c <= 1
    ensures WholeCorrection(a, m, c)
            == 16 * (Borrowed(HighDifference(a, m, c)) - if DeepBorrow(a, m, c) then 1 else 0)
               + Borrowed(LowDifference(a, m, c)) % 16
  {
  }

  lemma WholeCorrectionIs(a: Byte, m: Byte, c: nat)
    requires c <= 1
    ensures WholeCorrection(a, m, c) % 256
            == (DecimalSubtract(a, m, c).0 - if DeepBorrow(a, m, c) then 16 else 0) % 256
  {
    var h, x := Borrowed(HighDifference(a, m, c)), Borrowed(LowDifference(a, m, c)) % 16;
    CorrectionByDigits(a, m, c);
    HighMod(h, x);
    OneHighDigitLess(h, x);
  }

  lemma SixteenLess(v: Byte)
    ensures (v - 16) % 256 != v && v % 256 == v
  {
  }

  lemma OneHighDigitLess(h: int, x: int)
    requires 0 <= x < 16
    ensures (16 * (h - 1) + x) % 256 == (16 * (h % 16) + x - 16) % 256
  {
    assert 16 * (h - 1) + x == 256 * (h / 16) + (16 * (h % 16) + x - 16);
  }

  /** Subtraction from a 16-bit unsigned variable that holds a small signed number. */
  method TakeOff(tmp: Word, k: nat, ghost t: int) returns (r: Word)
    requires -0x800 <= t < 0x800 && tmp == t % 0x1_0000
    ensures r == (t - k) % 0x1_0000
  {
    r := (tmp - k) % 0x1_0000;
    assert tmp - k == t - k - 0x1_0000 * (t / 0x1_0000);
  }

  /** `tmp > 0xff` is how the code sees a borrow. */
  lemma BorrowSeen(t: int)
    requires -0x1000 <= t <= 0xff
    ensures t % 0x1_0000 > 0xff <==> t < 0
  {
  }

  /** The decimal branch; `tmp` and `tmp2` are 16 bits wide and unsigned. */
  method CorrectSbc65C02(a: Byte, src: Byte, c: nat) returns (v: Byte)
    requires c <= 1
    ensures v == WholeCorrection(a, src, c) % 256
  {
    ghost var t := a - src + c - 1;
    var tmp := (a - src + c - 1) % 0x1_0000;
    BorrowSeen(t);
    if tmp > 0xff {
      tmp := TakeOff(tmp, 0x60, t);
      t := t - 0x60;
    }
    var tmp2 := (a % 16 - src % 16 + c - 1) % 0x1_0000;
    BorrowSeen(a % 16 - src % 16 + c - 1);
    if tmp2 > 0xff {
      tmp := TakeOff(tmp, 6, t);
      t := t - 6;
    }
    Word16(t);
    v := tmp % 256;
  }

  /** ... and what it means for the digits. */
  method DecimalSbc65C02(a: Byte, src: Byte, c: nat) returns (v: Byte)
    requires c <= 1
    ensures v == (DecimalSubtract(a, src, c).0 - if DeepBorrow(a, src, c) then 16 else 0) % 256
    ensures v == DecimalSubtract(a, src, c).0 <==> !DeepBorrow(a, src, c)
  {
    v := CorrectSbc65C02(a, src, c);
    WholeCorrectionIs(a, src, c);
    SixteenLess(DecimalSubtract(a, src, c).0);
  }

  /** A 16-bit difference: its overflow and the byte of it. */
  method Difference65C02(a: Byte, src: Byte, c: nat) returns (result: Byte, v: bool)
    requires c <= 1
    ensures v == (SignsDiffer(a, a - src - (1 - c)) && SignsDiffer(a, src))
    ensures result - (if a - src - (1 - c) >= 0 then 0 else 256) == a - src - (1 - c)
  {
    var tmp := (a - src + c - 1) % 0x1_0000;
    Word16(a - src + c - 1);
    v := SignsDiffer(a, tmp) && SignsDiffer(a, src);
    result := tmp % 256;
  }

  method Sbc65C02(a: Byte, src: Byte, c: nat, decimal: bool) returns (r: Outcome)
    requires c <= 1
    ensures Flagged(r)
    ensures r.v == (SignsDiffer(a, a - src - (1 - c)) && SignsDiffer(a, src))
    ensures r.c == (a - src - (1 - c) >= 0)
    ensures !decimal ==> r.a - (if r.c then 0 else 256) == a - src - (1 - c)
    ensures decimal ==> r.a == (DecimalSubtract(a, src, c).0 - if DeepBorrow(a, src, c) then 16 else 0) % 256
    ensures decimal ==> (r.a == DecimalSubtract(a, src, c).0 <==> !DeepBorrow(a, src, c))
  {
    var result, v := Difference65C02(a, src, c);
    if decimal {
      result := DecimalSbc65C02(a, src, c);
    }
    r := ByteResult(result, a + c - 1 >= src, v);
  }

  /** 0x00 minus 0x0B: a subtrahend that is not BCD takes a second borrow. */
  method SecondBorrow() returns (r: Outcome)
    ensures DecimalSubtract(0x00, 0x0b, 1).0 == 0x9f && r.a == 0x8f
  {
    DeepExample();
    r := Sbc65C02(0x00, 0x0b, 1, true);
    assert r.a == (0x9f - 16) % 256;
  }

  lemma DeepExample()
    ensures DeepBorrow(0x00, 0x0b, 1) && DecimalSubtract(0x00, 0x0b, 1).0 == 0x9f
  {
    assert LowDifference(0x00, 0x0b, 1) == -11 && HighDifference(0x00, 0x0b, 1) == -1;
    assert Borrowed(-11) % 16 == 15 && Borrowed(-1) % 16 == 9;
  }

  // ------------------------------------------------------------------ the 65816

  method DecimalAdc65816(a: Byte, value: Byte, c: nat) returns (r: Outcome)
    requires c <= 1
    ensures Flagged(r)
    ensures (r.a, r.c) == DecimalAdd(a, value, c) && r.v == Overflows(a, value, DecimalSum(a, value, c))
  {
    var tmp2, tmp := DigitSums(a, value, c);
    tmp := tmp + tmp2 % 16;
    Sum6510(a, value, c);
    var v := !SignsDiffer(a, value) && SignsDiffer(a, tmp);
    var sum, carry := CorrectSum65816(tmp, HighSum(a, value, c), tmp2 % 16);
    r := ByteResult(sum, carry, v);
  }

  method CorrectSum65816(sum: nat, ghost high: nat, ghost low: nat) returns (b: Byte, carry: bool)
    requires sum == 16 * high + low && low < 16 && high < 32
    ensures b == 16 * (Corrected(high) % 16) + low && carry == (high > 9)
  {
    var tmp := if sum > 0x9f then sum + 0x60 else sum;
    HighMod(Corrected(high), low);
    b, carry := tmp % 256, tmp > 0xff;
  }

  method BinaryAdc65816(a: Byte, value: Byte, c: nat) returns (r: Outcome)
    requires c <= 1
    ensures Flagged(r)
    ensures r.a + (if r.c then 256 else 0) == a + value + c && r.v == Overflows(a, value, r.a)
  {
    var tmp := c;
    tmp := tmp + value + a;
    r := Result(tmp, tmp > 0xff, !SignsDiffer(a, value) && SignsDiffer(a, tmp));
  }

  /** Each nibble is corrected on its own, the high one from the whole binary difference. */
  method DecimalSbc65816(a: Byte, value: Byte, c: nat) returns (r: Outcome)
    requires c <= 1
    ensures Flagged(r)
    ensures (r.a, r.c) == DecimalSubtract(a, value, c)
    ensures r.v == (SignsDiffer(a, a - value - (1 - c)) && SignsDiffer(a, value))
  {
    var v := OverflowOfSbc65816(a, value, c);
    var tmp := LowNibble65816(a, value, c);
    var high, carry := HighNibble65816(a, value, c);
    r := ByteResult(tmp + high, carry, v);
  }

  /** The overflow, from the sum with the complement. */
  method OverflowOfSbc65816(a: Byte, value: Byte, c: nat) returns (v: bool)
    requires c <= 1
    ensures v == (SignsDiffer(a, a - value - (1 - c)) && SignsDiffer(a, value))
  {
    var tmp := c + (255 - value) + a;
    v := SignsDiffer(a, value) && SignsDiffer(a, tmp);
    SignOfComplementSum(a - value - (1 - c));
  }

  lemma SignOfComplementSum(d: int)
    ensures (d + 256) / 128 % 2 == d / 128 % 2
  {
  }

  method LowNibble65816(a: Byte, value: Byte, c: nat) returns (tmp: nat)
    requires c <= 1
    ensures tmp == Borrowed(LowDifference(a, value, c)) % 16
  {
    var tmp2 := a % 16 + (15 - value % 16) + c;
    tmp := (if tmp2 < 0x10 then tmp2 - 0x6 else tmp2) % 16;
  }

  method HighNibble65816(a: Byte, value: Byte, c: nat) returns (high: int, carry: bool)
    requires c <= 1
    ensures high == 16 * (Borrowed(HighDifference(a, value, c)) % 16) && carry == (HighDifference(a, value, c) >= 0)
  {
    var tmp2 := a + (255 - value) + c;
    var corrected := if tmp2 < 0x100 then tmp2 - 0x60 else tmp2;
    high, carry := corrected % 256 - corrected % 16, tmp2 > 0xff;
    ghost var h, x := Borrowed(HighDifference(a, value, c)), LowDifference(a, value, c) % 16;
    assert tmp2 == 16 * (HighDifference(a, value, c) + 16) + x;
    assert corrected == 16 * (h + 16) + x;
    HighMod(h + 16, x);
    Digits(h + 16, x);
    SixteenMore(h);
  }

  lemma SixteenMore(h: int)
    ensures (h + 16) % 16 == h % 16
  {
  }

  method BinarySbc65816(a: Byte, value: Byte, c: nat) returns (r: Outcome)
    requires c <= 1
    ensures Flagged(r)
    ensures r.v == (SignsDiffer(a, a - value - (1 - c)) && SignsDiffer(a, value))
    ensures r.a - (if r.c then 0 else 256) == a - value - (1 - c)
  {
    var tmp := c;
    tmp := tmp + (255 - value) + a;
    r := Result(tmp, tmp > 0xff, SignsDiffer(a, value) && SignsDiffer(a, tmp));
  }

  /** Two digits or bytes in a word, chained through the carry. */
  function Paired(step: (Byte, Byte, nat) -> (Byte, bool), a: Word, m: Word, c: nat): (Word, bool) {
    var (low, carry) := step(a % 256, m % 256, c);
    var (high, carryOut) := step(a / 256, m / 256, if carry then 1 else 0);
    (low as int + 256 * high as int, carryOut)
  }

  /** A 16-bit decimal sum as two chained byte sums. */
  function WideDecimalAdd(a: Word, m: Word, c: nat): (Word, bool) {
    Paired(DecimalAdd, a, m, c)
  }

  lemma Nibbles(w: Word)
    ensures w % 256 % 16 == w % 16
    ensures 16 * (w % 256 / 16) == w % 0x100 - w % 0x10
    ensures 256 * (w / 256 % 16) == w % 0x1000 - w % 0x100
    ensures 4096 * (w / 256 / 16) == w - w % 0x1000
  {
    LowNibbles(w / 256, w % 256);
    ThirdDigit(w / 256, w % 256);
    assert w == 256 * (w / 256) + w % 256;
    assert w / 256 == 16 * (w / 256 / 16) + w / 256 % 16;
  }

  lemma LowNibbles(high: Byte, low: Byte)
    ensures (256 * high + low) % 16 == low % 16 && 16 * (low / 16) == low - low % 16
  {
    Digits(16 * high + low / 16, low % 16);
  }

  /** Digit `k` of an addition before correction, with the carry out of the digits below. */
  function DigitSum(a: Word, m: Word, c: nat, k: nat): nat
    requires c <= 1 && k < 4
  {
    match k
    case 0 => a % 256 % 16 + m % 256 % 16 + c
    case 1 => a % 256 / 16 + m % 256 / 16 + if DigitSum(a, m, c, 0) > 9 then 1 else 0
    case 2 => a / 256 % 16 + m / 256 % 16 + if DigitSum(a, m, c, 1) > 9 then 1 else 0
    case 3 => a / 256 / 16 + m / 256 / 16 + if DigitSum(a, m, c, 2) > 9 then 1 else 0
  }

  lemma WideByDigits(a: Word, m: Word, c: nat)
    requires c <= 1
    ensures WideDecimalAdd(a, m, c).0
            == 4096 * (Corrected(DigitSum(a, m, c, 3)) % 16) + 256 * (Corrected(DigitSum(a, m, c, 2)) % 16)
               + 16 * (Corrected(DigitSum(a, m, c, 1)) % 16) + Corrected(DigitSum(a, m, c, 0)) % 16
    ensures WideDecimalAdd(a, m, c).1 == (DigitSum(a, m, c, 3) > 9)
  {
  }

  /** The first half of the wide addition, the masks of the accumulator written as remainders. */
  method LowByteOfWideSum(regC: Word, value: Word, c: nat) returns (tmp: nat)
    requires c <= 1
    ensures tmp == 16 * DigitSum(regC, value, c, 1) + Corrected(DigitSum(regC, value, c, 0)) % 16
  {
    Nibbles(regC);
    Nibbles(value);
    var tmp2 := regC % 0x10 + value % 0x10 + c;
    tmp := (regC % 0x100 - regC % 0x10) + (value % 0x100 - value % 0x10);
    if tmp2 > 0x9 {
      tmp2 := tmp2 + 0x6;
      tmp := tmp + 0x10;
    }
    tmp := tmp + tmp2 % 16;
  }

  /** LOCAL_SET_NZ of a 16-bit result, whose zero flag joins both bytes. */
  method WideNZ(tmp: nat) returns (n: bool, z: bool)
    ensures n == (tmp % 0x1_0000 >= 0x8000) && z == (tmp % 0x1_0000 == 0)
  {
    var flagN := tmp / 256 % 256;
    var flagZ := Or(tmp % 256, flagN);
    Wide.OrOfBytesIsZero(tmp % 256, flagN);
    Wide.LowWord(tmp);
    n, z := flagN >= 128, flagZ == 0;
  }

  /** Overflow of the 16-bit sum, before its top digit is corrected. */
  predicate WideOverflows(a: Word, m: Word, top: nat) {
    (a >= 0x8000) == (m >= 0x8000) && (a >= 0x8000) != (top / 8 % 2 == 1)
  }

  /** The overflow flag is computed from the low byte of the accumulator, whose bit 15 is clear: it is
      right exactly for a positive accumulator, or where operand and sum agree in sign. */
  method DecimalAdc65816Wide(regC: Word, value: Word, c: nat)
    returns (sum: Word, carry: bool, overflow: bool, n: bool, z: bool)
    requires c <= 1
    ensures (sum, carry) == WideDecimalAdd(regC, value, c)
    ensures n == (sum >= 0x8000) && z == (sum == 0)
    ensures var top := DigitSum(regC, value, c, 3);
            && overflow == (value < 0x8000 && top / 8 % 2 == 1)
            && (overflow == WideOverflows(regC, value, top)
                <==> regC < 0x8000 || (value >= 0x8000) == (top / 8 % 2 == 1))
  {
    var tmp := ThreeDigitsOfWideSum(regC, value, c);
    overflow := WideOverflowFlag(regC, value, c, tmp);
    ghost var h, low := DigitSum(regC, value, c, 3), tmp % 0x1000;
    if tmp > 0x9fff {
      tmp := tmp + 0x6000;
    }
    FourthDigit(h, low);
    FourthDigit(Corrected(h), low);
    WideByDigits(regC, value, c);
    carry := tmp > 0xffff;
    n, z := WideNZ(tmp);
    sum := tmp % 0x1_0000;
  }

  /** 0x8000 plus 0x8000: two negative numbers, a positive sum, and no overflow. */
  method OverflowForgotten() returns (overflow: bool)
    ensures WideOverflows(0x8000, 0x8000, DigitSum(0x8000, 0x8000, 0, 3)) && !overflow
  {
    TwoMinima(0x8000);
    hide DigitSum, WideOverflows, WideDecimalAdd;
    var _, _, v, _, _ := DecimalAdc65816Wide(0x8000, 0x8000, 0);
    return v;
  }

  lemma TwoMinima(w: Word)
    requires w == 0x8000
    ensures DigitSum(w, w, 0, 3) == 16 && WideOverflows(w, w, DigitSum(w, w, 0, 3))
  {
    assert w % 256 == 0 && w / 256 == 128;
    assert DigitSum(w, w, 0, 0) == 0;
    assert DigitSum(w, w, 0, 1) == 0;
    assert DigitSum(w, w, 0, 2) == 0;
  }

  /** `~(reg_a ^ tmp_value) & (reg_a ^ tmp) & 0x8000`. */
  method WideOverflowFlag(regC: Word, value: Word, c: nat, tmp: nat) returns (overflow: bool)
    requires c <= 1 && tmp / 0x1000 == DigitSum(regC, value, c, 3)
    ensures overflow == (value < 0x8000 && DigitSum(regC, value, c, 3) / 8 % 2 == 1)
  {
    var regA := regC % 256;
    assert regA / 0x8000 % 2 == 0;
    assert tmp / 0x8000 == tmp / 0x1000 / 8;
    overflow := !(regA / 0x8000 % 2 != value / 0x8000 % 2) && regA / 0x8000 % 2 != tmp / 0x8000 % 2;
  }

  /** The second digit corrected, and the carry it sends to the third. */
  method TwoDigitsOfWideSum(regC: Word, value: Word, c: nat) returns (low: nat, carry: bool)
    requires c <= 1
    ensures low == 16 * (Corrected(DigitSum(regC, value, c, 1)) % 16) + Corrected(DigitSum(regC, value, c, 0)) % 16
    ensures low < 0x100 && carry == (DigitSum(regC, value, c, 1) > 9)
  {
    var tmp := LowByteOfWideSum(regC, value, c);
    carry := tmp > 0x9f;
    if carry {
      tmp := tmp + 0x60;
    }
    HighMod(Corrected(DigitSum(regC, value, c, 1)), Corrected(DigitSum(regC, value, c, 0)) % 16);
    low := tmp % 256;
  }

  /** Everything up to the correction of the top digit. */
  method ThreeDigitsOfWideSum(regC: Word, value: Word, c: nat) returns (tmp: nat)
    requires c <= 1
    ensures tmp / 0x1000 == DigitSum(regC, value, c, 3)
    ensures tmp % 0x1000 == 256 * (Corrected(DigitSum(regC, value, c, 2)) % 16)
                            + 16 * (Corrected(DigitSum(regC, value, c, 1)) % 16)
                            + Corrected(DigitSum(regC, value, c, 0)) % 16
  {
    ghost var h2, h3 := DigitSum(regC, value, c, 2), DigitSum(regC, value, c, 3);
    var low, carry := TwoDigitsOfWideSum(regC, value, c);
    Nibbles(regC);
    Nibbles(value);
    var tmp2 := (regC % 0x1000 - regC % 0x100) + (value % 0x1000 - value % 0x100) + if carry then 0x100 else 0;
    tmp2 := tmp2 + low;
    var three, carry3 := CorrectThird(tmp2, h2, low);
    tmp := (regC - regC % 0x1000) + (value - value % 0x1000) + if carry3 then 0x1000 else 0;
    tmp := tmp + three;
    FourDigits(h3, three);
  }

  method CorrectThird(tmp2: nat, ghost third: nat, ghost low: nat) returns (three: nat, carry: bool)
    requires tmp2 == 256 * third + low && low < 256
    ensures three == 256 * (Corrected(third) % 16) + low && three < 0x1000 && carry == (third > 9)
  {
    var tmp := if tmp2 > 0x9ff then tmp2 + 0x600 else tmp2;
    ThirdDigit(Corrected(third), low);
    three, carry := tmp % 0x1000, tmp2 > 0x9ff;
  }

  lemma FourDigits(h: int, x: nat)
    requires x < 0x1000
    ensures (4096 * h + x) / 0x1000 == h && (4096 * h + x) % 0x1000 == x
  {
  }

  lemma ThirdDigit(h: int, x: nat)
    requires x < 256
    ensures (256 * h + x) % 0x1000 == 256 * (h % 16) + x
  {
    assert 256 * h + x == 4096 * (h / 16) + (256 * (h % 16) + x);
  }

  lemma FourthDigit(h: int, x: nat)
    requires x < 0x1000
    ensures (4096 * h + x) % 0x1_0000 == 4096 * (h % 16) + x
  {
    assert 4096 * h + x == 0x1_0000 * (h / 16) + (4096 * (h % 16) + x);
  }

  method BinaryAdc65816Wide(regC: Word, value: Word, c: nat)
    returns (sum: Word, carry: bool, overflow: bool, n: bool, z: bool)
    requires c <= 1
    ensures sum + (if carry then 0x1_0000 else 0) == regC + value + c
    ensures overflow == (regC / 0x8000 == value / 0x8000 && regC / 0x8000 != sum / 0x8000)
    ensures n == (sum >= 0x8000) && z == (sum == 0)
  {
    var tmp := c;
    tmp := tmp + value + regC;
    sum, carry := tmp % 0x1_0000, tmp > 0xffff;
    overflow := regC / 0x8000 % 2 == value / 0x8000 % 2 && regC / 0x8000 % 2 != tmp / 0x8000 % 2;
    n, z := WideNZ(tmp);
  }

  /** A 16-bit decimal difference as two chained byte differences. */
  function WideDecimalSubtract(a: Word, m: Word, c: nat): (Word, bool) {
    Paired(DecimalSubtract, a, m, c)
  }

  /** The carry that the low bytes send to the high ones, when the accumulator is one byte. */
  function LowCarry(regA: Byte, value: Word, c: nat): (k: nat)
    ensures k <= 1
  {
    if HighDifference(regA, value % 256, c) >= 0 then 1 else 0
  }

  lemma LowByteDifference(regA: Byte, value: Word, c: nat)
    requires c <= 1
    ensures 0 <= regA - value % 256 - (1 - c) + 256 * (1 - LowCarry(regA, value, c)) < 256
  {
    BorrowIsNegative(regA, value % 256, c);
  }

  method ThirdNibble65816(regA: Byte, value: Word, c: nat) returns (third: int)
    requires c <= 1
    ensures third == 256 * (Borrowed(LowDifference(0, value / 256, LowCarry(regA, value, c))) % 16)
  {
    var tmp2 := regA + (0xfff - value % 0x1000) + c;
    var corrected := if tmp2 < 0x1000 then tmp2 - 0x600 else tmp2;
    ghost var d := LowDifference(0, value / 256, LowCarry(regA, value, c));
    ghost var x := regA - value % 256 - (1 - c) + 256 * (1 - LowCarry(regA, value, c));
    LowByteDifference(regA, value, c);
    Nibbles(value);
    assert tmp2 == 256 * (d + 16) + x;
    third := Masked256(corrected, Borrowed(d) + 16, x);
    SixteenMore(Borrowed(d));
  }

  lemma ByteBelow(h: int, x: nat)
    requires x < 256
    ensures (256 * h + x) % 256 == x
  {
  }

  /** `& 0xf00` */
  method Masked256(v: int, ghost h: int, ghost x: nat) returns (nibble: int)
    requires v == 256 * h + x && x < 256
    ensures nibble == 256 * (h % 16)
  {
    ThirdDigit(h, x);
    ByteBelow(h, x);
    nibble := v % 0x1000 - v % 0x100;
  }

  method FourthNibble65816(regA: Byte, value: Word, c: nat) returns (fourth: int, carry: bool)
    requires c <= 1
    ensures var k := LowCarry(regA, value, c);
            fourth == 4096 * (Borrowed(HighDifference(0, value / 256, k)) % 16)
            && carry == (HighDifference(0, value / 256, k) >= 0)
  {
    var tmp2 := regA + (0xffff - value) + c;
    var corrected := if tmp2 < 0x1_0000 then tmp2 - 0x6000 else tmp2;
    ghost var k := LowCarry(regA, value, c);
    ghost var d := HighDifference(0, value / 256, k);
    ghost var x := 256 * (LowDifference(0, value / 256, k) % 16) + regA - value % 256 - (1 - c) + 256 * (1 - k);
    LowByteDifference(regA, value, c);
    BytesOfDifference(value / 256, k);
    assert tmp2 == 4096 * (d + 16) + x;
    fourth := Masked4096(corrected, Borrowed(d) + 16, x);
    SixteenMore(Borrowed(d));
    carry := tmp2 > 0xffff;
  }

  lemma BytesOfDifference(m: Byte, k: nat)
    requires k <= 1
    ensures 0 - m - (1 - k) == 16 * HighDifference(0, m, k) + LowDifference(0, m, k) % 16
  {
  }

  /** `& 0xf000` */
  method Masked4096(v: int, ghost h: int, ghost x: nat) returns (nibble: int)
    requires v == 4096 * h + x && x < 0x1000
    ensures nibble == 4096 * (h % 16)
  {
    FourDigits(h, x);
    FourthDigit(h, x);
    nibble := v % 0x1_0000 - v % 0x1000;
  }

  lemma FourDifferences(regA: Byte, value: Word, c: nat)
    requires c <= 1
    ensures var k, m := LowCarry(regA, value, c), value / 256;
            WideDecimalSubtract(regA, value, c)
            == (Borrowed(LowDifference(regA, value % 256, c)) % 16
                + 16 * (Borrowed(HighDifference(regA, value % 256, c)) % 16)
                + 256 * (Borrowed(LowDifference(0, m, k)) % 16) + 4096 * (Borrowed(HighDifference(0, m, k)) % 16),
                HighDifference(0, m, k) >= 0)
  {
    assert regA % 256 == regA && regA / 256 == 0;
    hide Borrowed, LowDifference, HighDifference;
  }

  /** The decimal branch takes only the low byte of the accumulator: it subtracts from that. */
  method DecimalSbc65816Wide(regC: Word, value: Word, c: nat)
    returns (result: Word, carry: bool, overflow: bool, n: bool, z: bool)
    requires c <= 1
    ensures (result, carry) == WideDecimalSubtract(regC % 256, value, c)
    ensures var d := regC - value - (1 - c);
            overflow == ((regC >= 0x8000) != (value >= 0x8000) && (regC >= 0x8000) != (d % 0x1_0000 >= 0x8000))
    ensures n == (result >= 0x8000) && z == (result == 0)
  {
    hide Borrowed, LowDifference, HighDifference, WideDecimalSubtract;
    overflow := OverflowOfWideSbc65816(regC, value, c);
    var regA := regC % 256;
    var low := LowNibble65816(regA, value % 256, c);
    var high, _ := HighNibble65816(regA, value % 256, c);
    var third := ThirdNibble65816(regA, value, c);
    var fourth;
    fourth, carry := FourthNibble65816(regA, value, c);
    FourDifferences(regA, value, c);
    result := low + high + third + fourth;
    n, z := WideNZ(result);
  }

  method OverflowOfWideSbc65816(regC: Word, value: Word, c: nat) returns (overflow: bool)
    requires c <= 1
    ensures var d := regC - value - (1 - c);
            overflow == ((regC >= 0x8000) != (value >= 0x8000) && (regC >= 0x8000) != (d % 0x1_0000 >= 0x8000))
  {
    var tmp := c;
    tmp := tmp + (0xffff - value) + regC;
    overflow := regC / 0x8000 % 2 != value / 0x8000 % 2 && regC / 0x8000 % 2 != tmp / 0x8000 % 2;
  }

  method BinarySbc65816Wide(regC: Word, value: Word, c: nat)
    returns (difference: Word, carry: bool, overflow: bool, n: bool, z: bool)
    requires c <= 1
    ensures difference - (if carry then 0 else 0x1_0000) == regC - value - (1 - c)
    ensures overflow == ((regC >= 0x8000) != (value >= 0x8000) && (regC >= 0x8000) != (difference >= 0x8000))
    ensures n == (difference >= 0x8000) && z == (difference == 0)
  {
    var tmp := c;
    tmp := tmp + (0xffff - value) + regC;
    difference, carry := tmp % 0x1_0000, tmp > 0xffff;
    overflow := regC / 0x8000 % 2 != value / 0x8000 % 2 && regC / 0x8000 % 2 != tmp / 0x8000 % 2;
    n, z := WideNZ(tmp);
  }

  // ------------------------------------------------------------------ ADC and SBC of the 65816 as a whole

  /** What is left in the accumulator, in C and in V. */
  function ByteSum(a: Byte, m: Byte, c: nat, decimal: bool): (Byte, bool, bool)
    requires c <= 1
  {
    if decimal then
      var (sum, carry) := DecimalAdd(a, m, c);
      (sum, carry, Overflows(a, m, DecimalSum(a, m, c)))
    else
      var sum := if a + m + c >= 256 then a + m + c - 256 else a + m + c;
      (sum, a + m + c >= 256, Overflows(a, m, sum))
  }

  function ByteDifference(a: Byte, m: Byte, c: nat, decimal: bool): (Byte, bool, bool)
    requires c <= 1
  {
    var d := a - m - (1 - c);
    var v := SignsDiffer(a, d) && SignsDiffer(a, m);
    if decimal then
      var (difference, carry) := DecimalSubtract(a, m, c);
      (difference, carry, v)
    else
      (if d < 0 then d + 256 else d, d >= 0, v)
  }

  function WordSum(a: Word, m: Word, c: nat, decimal: bool): (Word, bool, bool)
    requires c <= 1
  {
    if decimal then
      var (sum, carry) := WideDecimalAdd(a, m, c);
      (sum, carry, m < 0x8000 && DigitSum(a, m, c, 3) / 8 % 2 == 1)
    else
      var sum := if a + m + c >= 0x1_0000 then a + m + c - 0x1_0000 else a + m + c;
      (sum, a + m + c >= 0x1_0000, a / 0x8000 == m / 0x8000 && a / 0x8000 != sum / 0x8000)
  }

  function WordDifference(a: Word, m: Word, c: nat, decimal: bool): (Word, bool, bool)
    requires c <= 1
  {
    var d := a - m - (1 - c);
    var w := if d < 0 then d + 0x1_0000 else d;
    var v := (a >= 0x8000) != (m >= 0x8000) && (a >= 0x8000) != (w >= 0x8000);
    if decimal then
      var (difference, carry) := WideDecimalSubtract(a % 256, m, c);
      (difference, carry, v)
    else
      (w, d >= 0, v)
  }

  method Adc65816(a: Byte, value: Byte, c: nat, decimal: bool) returns (r: Outcome)
    requires c <= 1
    ensures Flagged(r) && (r.a, r.c, r.v) == ByteSum(a, value, c, decimal)
  {
    if decimal {
      r := DecimalAdc65816(a, value, c);
    } else {
      r := BinaryAdc65816(a, value, c);
    }
  }

  method Sbc65816(a: Byte, value: Byte, c: nat, decimal: bool) returns (r: Outcome)
    requires c <= 1
    ensures Flagged(r) && (r.a, r.c, r.v) == ByteDifference(a, value, c, decimal)
  {
    if decimal {
      r := DecimalSbc65816(a, value, c);
    } else {
      r := BinarySbc65816(a, value, c);
    }
  }

  method Adc65816Wide(a: Word, value: Word, c: nat, decimal: bool)
    returns (sum: Word, carry: bool, overflow: bool, n: bool, z: bool)
    requires c <= 1
    ensures (sum, carry, overflow) == WordSum(a, value, c, decimal)
    ensures n == (sum >= 0x8000) && z == (sum == 0)
  {
    if decimal {
      sum, carry, overflow, n, z := DecimalAdc65816Wide(a, value, c);
    } else {
      sum, carry, overflow, n, z := BinaryAdc65816Wide(a, value, c);
    }
  }

  method Sbc65816Wide(a: Word, value: Word, c: nat, decimal: bool)
    returns (difference: Word, carry: bool, overflow: bool, n: bool, z: bool)
    requires c <= 1
    ensures (difference, carry, overflow) == WordDifference(a, value, c, decimal)
    ensures n == (difference >= 0x8000) && z == (difference == 0)
  {
    if decimal {
      SignOfWord(a - value - (1 - c));
      hide WideDecimalSubtract;
      difference, carry, overflow, n, z := DecimalSbc65816Wide(a, value, c);
    } else {
      difference, carry, overflow, n, z := BinarySbc65816Wide(a, value, c);
    }
  }

  lemma SignOfWord(d: int)
    requires -0x1_0000 <= d < 0x1_0000
    ensures d % 0x1_0000 == if d < 0 then d + 0x1_0000 else d
  {
  }
}
