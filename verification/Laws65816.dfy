/** What the instructions of the 65816 do to registers, flags and memory, said of bits and numbers, without
    the functions that the step function and the class share. */
module Laws65816 {
  import opened ByteBits
  import opened Bitwise
  import opened Wdc65816
  import opened Opcodes65816
  import opened BlockMove
  import opened ModeRuns
  import Decimal = DecimalArithmetic

  /** A turn of the main loop executes what the fields of the opcode at the PC decode to. */
  lemma TickDecodes(s: Core, d: Data)
    requires Modes(s.r)
    ensures var opcode := s.mem[s.r.pc + 65536 * s.r.pbr as int];
            Ticked(s, Instruction(d)) == Executed(s, ByFields(opcode / 32, opcode / 4 % 8, opcode % 4), d)
  {
    hide MacroOf, ByFields, Executed, Fetched;
    FirstCell(s);
    MacroByFields(Fetched(s, 0));
  }

  lemma FirstCell(s: Core)
    ensures Fetched(s, 0) == s.mem[s.r.pc + 65536 * s.r.pbr as int]
  {
  }

  // ------------------------------------------------------------------ widths, flags and bits

  /** Emulation mode and the status bits M and X make the accumulator and the index registers 8 bits wide. */
  predicate ByteWide(r: Regs) {
    r.e != 0 || r.p.b5
  }

  predicate ByteIndex(r: Regs) {
    r.e != 0 || r.p.b4
  }

  function Range(bits8: bool): int {
    if bits8 then 256 else 65536
  }

  function Part(w: Word, bits8: bool): Word {
    if bits8 then w % 256 else w
  }

  function Cut(v: int, bits8: bool): Word {
    if bits8 then v % 256 else v % 65536
  }

  /** N and Z of a result of that width. */
  predicate Shows(r: Regs, v: Word, bits8: bool) {
    (r.flagN >= 128) == (2 * v >= Range(bits8)) && (r.flagZ == 0) == (v == 0)
  }

  /** Nothing but the accumulator, N and Z differs, and the PC is the next; an 8-bit accumulator has kept
      its high byte. */
  predicate Assigned8or16(s: Core, t: Core, d: Data) {
    && t == Core(s.r.(c := t.r.c, flagN := t.r.flagN, flagZ := t.r.flagZ, pc := d.pc), s.mem)
    && (ByteWide(s.r) ==> t.r.c / 256 == s.r.c / 256)
    && Shows(t.r, Part(t.r.c, ByteWide(s.r)), ByteWide(s.r))
  }

  lemma ShownBy(r: Regs, v: Word, bits8: bool)
    ensures Shows(WithNZ(r, v, bits8), Part(v, bits8), bits8)
  {
    hide Or;
    if !bits8 {
      WideFlagsExact(r, v);
    }
  }

  lemma FlagsAlone(r: Regs, v: nat, bits8: bool)
    ensures var t := WithNZ(r, v, bits8); t == r.(flagN := t.flagN, flagZ := t.flagZ)
  {
    hide Or;
  }

  lemma FlagsOf(r: Regs, w: Word, bits8: bool)
    requires w < Range(bits8)
    ensures var t := WithNZ(r, w, bits8); t == r.(flagN := t.flagN, flagZ := t.flagZ) && Shows(t, w, bits8)
  {
    assert Part(w, bits8) == w;
    hide WithNZ, Shows, Part;
    FlagsAlone(r, w, bits8);
    ShownBy(r, w, bits8);
  }

  /** N and Z are where they were, whatever becomes of the accumulator and the PC. */
  lemma FlagsStay(t: Regs, c: Word, pc: Word)
    ensures forall w, bits8 :: Shows(t.(c := c, pc := pc), w, bits8) == Shows(t, w, bits8)
  {
  }

  lemma LowReplaced(c: Word, v: Word)
    ensures (c - c % 256 + v % 256) % 256 == v % 256 && (c - c % 256 + v % 256) / 256 == c / 256
  {
    assert c - c % 256 + v % 256 == 256 * (c / 256) + v % 256;
  }

  lemma AccumulatedIs(s: Core, v: Word, d: Data)
    ensures var t := Core(Accumulated(s.r, v).(pc := d.pc), s.mem);
            Assigned8or16(s, t, d) && Part(t.r.c, ByteWide(s.r)) == Part(v, ByteWide(s.r))
  {
    hide WithNZ;
    FlagsAlone(WithAccumulator(s.r, v), v, ByteWide(s.r));
    ShownBy(WithAccumulator(s.r, v), v, ByteWide(s.r));
    LowReplaced(s.r.c, v);
    hide Shows;
  }

  /** Those that only work on registers and flags. */
  predicate Computes(m: Macro) {
    !Jumps(m) && !OnIndex(m) && !OnModes(m) && !Pulls(m) && !Pushes(m) && !StoresMemory(m)
  }

  lemma ComputesOnly(s: Core, m: Macro, d: Data)
    requires Modes(s.r) && Computes(m)
    ensures Executed(s, m, d) == Core(Computed(s.r, m, d).(pc := d.pc), s.mem)
  {
    hide Modes, Jumps, OnIndex, OnModes, Pulls, Pushes, StoresMemory, Computed, AfterPull, AfterPush, Put;
  }

  lemma AssignsComputes(m: Macro)
    requires Assigns(m)
    ensures Computes(m)
  {
  }

  lemma AssignmentIs(s: Core, m: Macro, d: Data, v: Word)
    requires Modes(s.r) && Assigns(m) && Assigned(s.r, m, d.operand) == v
    ensures Executed(s, m, d) == Core(Accumulated(s.r, v).(pc := d.pc), s.mem)
  {
    hide Computes, Executed, Accumulated, Modes, Assigned, Assigns, Used, Internal;
    AssignsComputes(m);
    ComputesOnly(s, m, d);
  }

  function Bits8or16(bits8: bool): nat {
    if bits8 then 8 else 16
  }

  // ------------------------------------------------------------------ the accumulator

  /** LDA, TXA and TYA. */
  lemma TransferExact(s: Core, m: Macro, d: Data)
    requires Modes(s.r) && (m == LDA || m == TXA || m == TYA)
    ensures var t, v := Executed(s, m, d), if m == LDA then d.operand else if m == TXA then s.r.x else s.r.y;
            Assigned8or16(s, t, d) && Part(t.r.c, ByteWide(s.r)) == Part(v, ByteWide(s.r))
  {
    var v := if m == LDA then d.operand else if m == TXA then s.r.x else s.r.y;
    assert Assigns(m) && Assigned(s.r, m, d.operand) == v;
    hide Modes, Accumulated, Executed, Assigned8or16, Part, Assigned, Assigns;
    AssignmentIs(s, m, d, v);
    AccumulatedIs(s, v, d);
  }

  predicate Combines(m: Macro, a: bool, b: bool, c: bool) {
    match m
    case AND => c == (a && b)
    case ORA => c == (a || b)
    case _ => c == (a != b)
  }

  lemma CombinedAt(m: Macro, a: Word, b: Word, r: Regs, k: nat)
    requires k < 16 && (m == ORA || m == AND || m == EOR) && r.c == a
    ensures Combines(m, OfNat(a, 16)[k], OfNat(b, 16)[k], OfNat(Assigned(r, m, b), 16)[k])
  {
    hide BitAnd, BitOr, BitXor, OfNat, And16, Or16, Xor16;
    WordOperations(a, b);
    AndAt(a, b, 16, k);
    OrAt(a, b, 16, k);
    XorAt(a, b, 16, k);
  }

  lemma WordOperations(a: Word, b: Word)
    ensures And16(a, b) == BitAnd(a, b, 16) && Or16(a, b) == BitOr(a, b, 16) && Xor16(a, b) == BitXor(a, b, 16)
  {
    hide BitAnd, BitOr, BitXor, Pow2;
    SixteenBits();
  }

  /** AND, ORA and EOR set a bit of the accumulator exactly where that bit of both, of either, or of just
      one is set; at 8 bits, of the low eight. */
  lemma LogicExact(s: Core, m: Macro, d: Data)
    requires Modes(s.r) && (m == ORA || m == AND || m == EOR)
    ensures Assigned8or16(s, Executed(s, m, d), d)
    ensures forall k: nat :: k < Bits8or16(ByteWide(s.r)) ==>
              Combines(m, OfNat(s.r.c, 16)[k], OfNat(d.operand, 16)[k], OfNat(Executed(s, m, d).r.c, 16)[k])
  {
    hide Modes, Accumulated, Executed, Assigned8or16, Combines, Assigned, OfNat;
    AssignmentIs(s, m, d, Assigned(s.r, m, d.operand));
    AccumulatedIs(s, Assigned(s.r, m, d.operand), d);
    EightBits();
    forall k: nat | k < Bits8or16(ByteWide(s.r))
      ensures Combines(m, OfNat(s.r.c, 16)[k], OfNat(d.operand, 16)[k], OfNat(Executed(s, m, d).r.c, 16)[k])
    {
      CombinedAt(m, s.r.c, d.operand, s.r, k);
      if ByteWide(s.r) {
        SameLow(Executed(s, m, d).r.c, Assigned(s.r, m, d.operand), 16, 8, k);
      }
    }
  }

  // ------------------------------------------------------------------ sums and comparisons

  function SignedAt(v: Word, bits8: bool): int {
    if 2 * v >= Range(bits8) then v - Range(bits8) else v
  }

  lemma UsesComputes(m: Macro)
    requires UsesOperand(m) && m != TSB && m != TRB
    ensures Computes(m) && !Assigns(m)
  {
  }

  lemma UseIs(s: Core, m: Macro, d: Data)
    requires Modes(s.r) && UsesOperand(m) && m != TSB && m != TRB
    ensures Executed(s, m, d) == Core(Used(s.r, m, d).(pc := d.pc), s.mem)
  {
    hide Computes, Executed, Modes, Assigns, UsesOperand, Used, Internal;
    UsesComputes(m);
    ComputesOnly(s, m, d);
  }

  /** The sum or difference `w` with the carry `c` out of it and the overflow `v`, for operands of a width. */
  predicate Totals(a: Word, m: Word, carry: nat, subtract: bool, w: Word, c: bool, v: bool, bits8: bool) {
    if subtract then
      && w - Range(bits8) * (1 - One(c)) == a - m - (1 - carry)
      && v == !(-Range(bits8) <= 2 * (SignedAt(a, bits8) - SignedAt(m, bits8) - (1 - carry)) < Range(bits8))
    else
      && w + Range(bits8) * One(c) == a + m + carry
      && v == !(-Range(bits8) <= 2 * (SignedAt(a, bits8) + SignedAt(m, bits8) + carry) < Range(bits8))
  }

  lemma ByteSumTotals(a: Byte, m: Byte, carry: nat)
    requires carry <= 1
    ensures var (w, c, v) := Decimal.ByteSum(a, m, carry, false); Totals(a, m, carry, false, w, c, v, true)
  {
  }

  lemma ByteDifferenceTotals(a: Byte, m: Byte, carry: nat)
    requires carry <= 1
    ensures var (w, c, v) := Decimal.ByteDifference(a, m, carry, false); Totals(a, m, carry, true, w, c, v, true)
  {
  }

  lemma WordSumTotals(a: Word, m: Word, carry: nat)
    requires carry <= 1
    ensures var (w, c, v) := Decimal.WordSum(a, m, carry, false); Totals(a, m, carry, false, w, c, v, false)
  {
  }

  lemma WordDifferenceTotals(a: Word, m: Word, carry: nat)
    requires carry <= 1
    ensures var (w, c, v) := Decimal.WordDifference(a, m, carry, false); Totals(a, m, carry, true, w, c, v, false)
  {
  }

  lemma TotalIs(r: Regs, subtract: bool, v: Word)
    requires !r.p.b3
    ensures var (w, c, o) := TotalOf(r, subtract, v); var bits8 := ByteWide(r);
            w < Range(bits8) && Totals(Part(r.c, bits8), Part(v, bits8), One(r.p.b0), subtract, w, c, o, bits8)
  {
    hide Totals;
    var carry := One(r.p.b0);
    ByteSumTotals(r.c % 256, v % 256, carry);
    ByteDifferenceTotals(r.c % 256, v % 256, carry);
    WordSumTotals(r.c, v, carry);
    WordDifferenceTotals(r.c, v, carry);
  }

  function SumOf(subtract: bool): Macro {
    if subtract then SBC else ADC
  }

  lemma SummedIs(s: Core, subtract: bool, d: Data)
    requires Modes(s.r)
    ensures var (w, c, o) := TotalOf(s.r, subtract, d.operand);
            var t := s.(r := s.r.(p := s.r.p.(b6 := o, b0 := c)));
            && Executed(s, SumOf(subtract), d) == Core(Accumulated(t.r, w).(pc := d.pc), s.mem)
            && Assigned8or16(t, Executed(s, SumOf(subtract), d), d)
            && Executed(s, SumOf(subtract), d).r.p == t.r.p
            && Part(Executed(s, SumOf(subtract), d).r.c, ByteWide(s.r)) == Part(w, ByteWide(s.r))
  {
    UseIs(s, SumOf(subtract), d);
    hide Executed, TotalOf, Modes, Accumulated, Part, Shows;
    var (w, c, o) := TotalOf(s.r, subtract, d.operand);
    AccumulatedIs(s.(r := s.r.(p := s.r.p.(b6 := o, b0 := c))), w, d);
  }

  /** ADC and SBC change A, N, Z, C and V: in binary mode to the sum or difference, the carry out of the
      width, and the overflow of the signed numbers ... */
  lemma SumExact(s: Core, subtract: bool, d: Data)
    requires Modes(s.r) && !s.r.p.b3
    ensures var t, bits8 := Executed(s, SumOf(subtract), d), ByteWide(s.r);
            && Assigned8or16(s.(r := s.r.(p := s.r.p.(b6 := t.r.p.b6, b0 := t.r.p.b0))), t, d)
            && Totals(Part(s.r.c, bits8), Part(d.operand, bits8), One(s.r.p.b0), subtract,
                      Part(t.r.c, bits8), t.r.p.b0, t.r.p.b6, bits8)
  {
    hide Executed, TotalOf, Modes, Accumulated, Totals, Assigned8or16, ByteWide;
    SummedIs(s, subtract, d);
    TotalIs(s.r, subtract, d.operand);
    assert TotalOf(s.r, subtract, d.operand).0 == Part(Executed(s, SumOf(subtract), d).r.c, ByteWide(s.r));
  }

  /** What decimal mode computes, in the parts of the accumulator that matter. */
  function DecimalTotal(a: Word, m: Word, carry: nat, subtract: bool, bits8: bool): (Word, bool) {
    if bits8 then
      if subtract then Decimal.DecimalSubtract(a % 256, m % 256, carry)
      else Decimal.DecimalAdd(a % 256, m % 256, carry)
    else if subtract then Decimal.WideDecimalSubtract(a % 256, m, carry)
    else Decimal.WideDecimalAdd(a, m, carry)
  }

  lemma DecimalTotalIs(r: Regs, subtract: bool, v: Word)
    requires r.p.b3
    ensures var (w, c, _) := TotalOf(r, subtract, v);
            (w, c) == DecimalTotal(r.c, v, One(r.p.b0), subtract, ByteWide(r)) && w < Range(ByteWide(r))
  {
    hide Decimal.DecimalSubtract, Decimal.DecimalAdd, Decimal.WideDecimalSubtract, Decimal.WideDecimalAdd;
  }

  /** ... and in decimal mode to the digit-wise one, where the 16-bit difference is from the low byte. */
  lemma DecimalSumExact(s: Core, subtract: bool, d: Data)
    requires Modes(s.r) && s.r.p.b3
    ensures var t, carry := Executed(s, SumOf(subtract), d), One(s.r.p.b0);
            && Assigned8or16(s.(r := s.r.(p := s.r.p.(b6 := t.r.p.b6, b0 := t.r.p.b0))), t, d)
            && (Part(t.r.c, ByteWide(s.r)), t.r.p.b0)
               == DecimalTotal(s.r.c, d.operand, carry, subtract, ByteWide(s.r))
  {
    hide Executed, Modes, Accumulated, TotalOf, DecimalTotal, Assigned8or16, ByteWide;
    SummedIs(s, subtract, d);
    DecimalTotalIs(s.r, subtract, d.operand);
  }

  function Compares(m: Macro, r: Regs): Word {
    if m == CPX then r.x else if m == CPY then r.y else r.c
  }

  function ComparedWidth(m: Macro, r: Regs): bool {
    if m == CMP then ByteWide(r) else ByteIndex(r)
  }

  /** The difference, modulo the range, of two numbers in range. */
  function Difference(a: int, b: int, bits8: bool): Word {
    Cut(if a >= b then a - b else a - b + Range(bits8), bits8)
  }

  lemma CompareIs(s: Core, m: Macro, d: Data)
    requires Modes(s.r) && (m == CMP || m == CPX || m == CPY)
    ensures Executed(s, m, d)
            == Core(Compared(s.r, Compares(m, s.r), d.operand, ComparedWidth(m, s.r)).(pc := d.pc), s.mem)
  {
    hide Executed, Modes, Compared;
    UseIs(s, m, d);
  }

  /** CMP, CPX and CPY: C unless the register is below the operand, N and Z of the difference. */
  lemma CompareExact(s: Core, m: Macro, d: Data)
    requires Modes(s.r) && (m == CMP || m == CPX || m == CPY)
    ensures var t, bits8 := Executed(s, m, d), ComparedWidth(m, s.r);
            var reg: int, v: int := Part(Compares(m, s.r), bits8), Part(d.operand, bits8);
            && t == Core(s.r.(p := s.r.p.(b0 := reg >= v), flagN := t.r.flagN, flagZ := t.r.flagZ, pc := d.pc), s.mem)
            && Shows(t.r, Difference(reg, v, bits8), bits8)
  {
    hide Executed, Modes, Shows, Compared, Part, Compares, ComparedWidth, Difference;
    CompareIs(s, m, d);
    ComparedIs(s.r, Compares(m, s.r), d.operand, ComparedWidth(m, s.r));
    FlagsStay(Compared(s.r, Compares(m, s.r), d.operand, ComparedWidth(m, s.r)), s.r.c, d.pc);
  }

  lemma DifferenceAtWidth(w: Word, operand: Word, bits8: bool)
    ensures var reg: int, v: int := Part(w, bits8), Part(operand, bits8);
            AtWidth(w, bits8) == reg && AtWidth(operand, bits8) == v
            && AtWidth(reg - v, bits8) == Difference(reg, v, bits8) < Range(bits8)
  {
  }

  lemma ComparedIs(r: Regs, w: Word, operand: Word, bits8: bool)
    ensures var t := Compared(r, w, operand, bits8);
            var reg: int, v: int := Part(w, bits8), Part(operand, bits8);
            && t == r.(p := r.p.(b0 := reg >= v), flagN := t.flagN, flagZ := t.flagZ)
            && Shows(t, Difference(reg, v, bits8), bits8)
  {
    hide AtWidth, Part, WithNZ, Shows, Difference;
    DifferenceAtWidth(w, operand, bits8);
    FlagsOf(r.(p := r.p.(b0 := AtWidth(w, bits8) >= AtWidth(operand, bits8))),
            AtWidth(AtWidth(w, bits8) - AtWidth(operand, bits8), bits8), bits8);
  }

  // ------------------------------------------------------------------ bit tests

  /** No bit is common to the two words, of the low eight if `bits8`. */
  ghost predicate Apart(a: Word, b: Word, bits8: bool) {
    forall k: nat :: k < Bits8or16(bits8) ==> !(OfNat(a, 16)[k] && OfNat(b, 16)[k])
  }

  lemma ApartIs(a: Word, b: Word, bits8: bool)
    ensures AtWidth(And16(a, b), bits8) == 0 <==> Apart(a, b, bits8)
  {
    var n := Bits8or16(bits8);
    WordOperations(a, b);
    EightBits();
    SixteenBits();
    LowClear(And16(a, b), 16, n);
    assert AtWidth(And16(a, b), bits8) == And16(a, b) % Pow2(n);
    hide And16, BitAnd, OfNat, AtWidth, Pow2;
    forall k: nat | k < n
      ensures OfNat(And16(a, b), 16)[k] <==> OfNat(a, 16)[k] && OfNat(b, 16)[k]
    {
      AndAt(a, b, 16, k);
    }
  }

  lemma TopBitsAt(v: Word, bits8: bool)
    ensures var top := if bits8 then v % 256 * 256 else v;
            && (top >= 0x8000) == (2 * Part(v, bits8) >= Range(bits8))
            && top / 0x4000 == 4 * Part(v, bits8) / Range(bits8)
  {
  }

  lemma BitTestedIs(r: Regs, operand: Word)
    ensures var t, v, range := BitTested(r, operand), Part(operand, ByteWide(r)), Range(ByteWide(r));
            && t == r.(flagZ := t.flagZ, flagN := t.flagN, p := r.p.(b6 := t.p.b6))
            && t.flagZ == Tested(r, operand).flagZ
            && (t.flagN >= 128) == (2 * v >= range) && t.p.b6 == (4 * v / range % 2 == 1)
  {
    hide And16, Part, Range;
    TopBitsAt(operand, ByteWide(r));
  }

  /** BIT and its immediate form: Z where no bit is common; N and V are the top two bits of the operand
      from memory. */
  lemma BitExact(s: Core, m: Macro, d: Data)
    requires Modes(s.r) && (m == BIT || m == BIT_IMM)
    ensures var t, v, range := Executed(s, m, d), Part(d.operand, ByteWide(s.r)), Range(ByteWide(s.r));
            && t == Core(s.r.(flagZ := t.r.flagZ, flagN := t.r.flagN, p := s.r.p.(b6 := t.r.p.b6), pc := d.pc), s.mem)
            && ((t.r.flagZ == 0) <==> Apart(s.r.c, d.operand, ByteWide(s.r)))
            && if m == BIT then (t.r.flagN >= 128) == (2 * v >= range) && t.r.p.b6 == (4 * v / range % 2 == 1)
               else t.r.flagN == s.r.flagN && t.r.p.b6 == s.r.p.b6
  {
    hide Executed, Modes, And16, Apart, BitTested, Part, Range, AtWidth;
    UseIs(s, m, d);
    BitTestedIs(s.r, d.operand);
    ApartIs(s.r.c, d.operand, ByteWide(s.r));
  }

  // ------------------------------------------------------------------ memory

  /** The memory of `t` is that of `s` with the byte or the word `w` where the addressing mode puts it. */
  predicate Keeps(s: Core, t: Core, d: Data, w: Word, bits8: bool) {
    if bits8 then t.mem == s.mem[d.low := w % 256]
    else t.mem == s.mem[d.low := w % 256][d.high := w / 256]
  }

  predicate Stores(m: Macro) {
    !Jumps(m) && !OnIndex(m) && !OnModes(m) && !Pulls(m) && !Pushes(m)
  }

  lemma StoresAlone(m: Macro)
    requires StoresMemory(m)
    ensures Stores(m)
  {
  }

  lemma StoreIs(s: Core, m: Macro, d: Data)
    requires Modes(s.r) && StoresMemory(m)
    ensures var t := Executed(s, m, d);
            && t.r == Computed(s.r, m, d).(pc := d.pc)
            && Keeps(s, t, d, ToStore(s.r, m, d.operand), StoresByte(s.r, m))
  {
    StoresAlone(m);
    hide Modes, Jumps, OnIndex, OnModes, Pulls, Pushes, StoresMemory, Computed, AfterPull, AfterPush, ToStore,
         StoresByte;
  }

  /** STA, STX, STY and STZ store the register, or zero, at the width of the accumulator or of the index
      registers, and change no register. */
  lemma StoreExact(s: Core, m: Macro, d: Data)
    requires Modes(s.r) && (m == STA || m == STX || m == STY || m == STZ)
    ensures var v := if m == STA then s.r.c else if m == STX then s.r.x else if m == STY then s.r.y else 0;
            && Executed(s, m, d).r == s.r.(pc := d.pc)
            && Keeps(s, Executed(s, m, d), d, v, if m == STX || m == STY then ByteIndex(s.r) else ByteWide(s.r))
  {
    hide Executed, Modes, Computed, Keeps;
    StoreIs(s, m, d);
    PlainIs(s.r, m, d);
  }

  lemma ComplementBit(w: Word, k: nat)
    requires k < 16
    ensures OfNat(0xffff - w, 16)[k] != OfNat(w, 16)[k]
  {
    SixteenBits();
    Complemented(w, 16, k);
  }

  lemma HalfComplement(n: nat, p: nat)
    requires n < 2 * p
    ensures (2 * p - 1 - n) / 2 == p - 1 - n / 2 && (2 * p - 1 - n) % 2 != n % 2
  {
  }

  lemma {:induction false} Complemented(n: nat, width: nat, k: nat)
    requires k < width && n < Pow2(width)
    ensures OfNat(Pow2(width) - 1 - n, width)[k] != OfNat(n, width)[k]
  {
    var c := Pow2(width) - 1 - n;
    HalfComplement(n, Pow2(width - 1));
    OfNatAt(n, width, k);
    OfNatAt(c, width, k);
    hide OfNat;
    if k > 0 {
      Complemented(n / 2, width - 1, k - 1);
    }
  }

  lemma OrBit(a: Word, b: Word, k: nat)
    requires k < 16
    ensures OfNat(Or16(a, b), 16)[k] <==> OfNat(a, 16)[k] || OfNat(b, 16)[k]
  {
    hide Or16, OfNat, BitOr;
    WordOperations(a, b);
    OrAt(a, b, 16, k);
  }

  lemma AndBit(a: Word, b: Word, k: nat)
    requires k < 16
    ensures OfNat(And16(a, b), 16)[k] <==> OfNat(a, 16)[k] && OfNat(b, 16)[k]
  {
    hide And16, OfNat, BitAnd;
    WordOperations(a, b);
    AndAt(a, b, 16, k);
  }

  lemma StoredBits(r: Regs, m: Macro, v: Word, k: nat)
    requires k < 16 && (m == TSB || m == TRB)
    ensures OfNat(ToStore(r, m, v), 16)[k]
            <==> if m == TSB then OfNat(v, 16)[k] || OfNat(r.c, 16)[k] else OfNat(v, 16)[k] && !OfNat(r.c, 16)[k]
  {
    hide And16, Or16, OfNat;
    if m == TSB {
      OrBit(v, r.c, k);
    } else {
      AndBit(v, 0xffff - r.c, k);
      ComplementBit(r.c, k);
    }
  }

  /** TSB sets, and TRB clears, in memory the bits that the accumulator has; Z where it has none of them. */
  lemma TestExact(s: Core, m: Macro, d: Data) returns (w: Word)
    requires Modes(s.r) && (m == TSB || m == TRB)
    ensures Executed(s, m, d).r == s.r.(flagZ := Executed(s, m, d).r.flagZ, pc := d.pc)
    ensures Executed(s, m, d).r.flagZ == 0 <==> Apart(s.r.c, d.operand, ByteWide(s.r))
    ensures Keeps(s, Executed(s, m, d), d, w, ByteWide(s.r))
    ensures forall k: nat :: k < 16 ==>
              (OfNat(w, 16)[k] <==> if m == TSB then OfNat(d.operand, 16)[k] || OfNat(s.r.c, 16)[k]
                                    else OfNat(d.operand, 16)[k] && !OfNat(s.r.c, 16)[k])
  {
    hide Executed, Modes, Computed, Keeps, And16, Or16, Apart, OfNat, ToStore, AtWidth;
    w := ToStore(s.r, m, d.operand);
    StoreIs(s, m, d);
    PlainIs(s.r, m, d);
    ApartIs(s.r.c, d.operand, ByteWide(s.r));
    forall k: nat | k < 16
      ensures OfNat(w, 16)[k] <==> if m == TSB then OfNat(d.operand, 16)[k] || OfNat(s.r.c, 16)[k]
                                   else OfNat(d.operand, 16)[k] && !OfNat(s.r.c, 16)[k]
    {
      StoredBits(s.r, m, d.operand, k);
    }
  }

  // ------------------------------------------------------------------ shifts and counts

  /** `w` with the carry `c` is the value `v` with the carry `carry` after the operation, at a width. */
  predicate Moves(m: Macro, v: Word, carry: bool, w: Word, c: bool, bits8: bool) {
    match m
    case ASL => w + Range(bits8) * One(c) == 2 * v
    case ROL => w + Range(bits8) * One(c) == 2 * v + One(carry)
    case LSR => 2 * w + One(c) == v
    case ROR => 2 * w + One(c) == v + Range(bits8) * One(carry)
    case INC => w == (if v + 1 == Range(bits8) then 0 else v + 1) && c == carry
    case _ => w == (if v == 0 then Range(bits8) - 1 else v - 1) && c == carry
  }

  /** What a shift or count leaves in the registers, for the result `w`. */
  predicate Changes(r: Regs, t: Regs, m: Macro, v: Word, w: Word) {
    && t == r.(p := r.p.(b0 := t.p.b0), flagN := t.flagN, flagZ := t.flagZ)
    && w < Range(ByteWide(r)) && Shows(t, w, ByteWide(r))
    && Moves(m, Part(v, ByteWide(r)), r.p.b0, w, t.p.b0, ByteWide(r))
  }

  lemma LeftNumber(v: Word, carry: nat, bits8: bool)
    requires v < Range(bits8) && carry <= 1
    ensures var w := AtWidth(2 * v + carry, bits8);
            w < Range(bits8) && w + Range(bits8) * One(v >= if bits8 then 0x80 else 0x8000) == 2 * v + carry
  {
  }

  lemma PartAtWidth(v: Word, bits8: bool)
    ensures AtWidth(v, bits8) == Part(v, bits8) < Range(bits8) && v % 2 == Part(v, bits8) % 2
  {
  }

  lemma LeftExact(r: Regs, m: Macro, v: Word)
    requires m == ASL || m == ROL
    ensures Changes(r, Changed(m, r, v).0, m, v, Changed(m, r, v).1)
  {
    hide WithNZ, Shows, AtWidth, Part;
    var bits8, carry := ByteWide(r), m == ROL && r.p.b0;
    PartAtWidth(v, bits8);
    var w := AtWidth(v, bits8);
    LeftNumber(w, One(carry), bits8);
    FlagsOf(r.(p := r.p.(b0 := w >= if bits8 then 0x80 else 0x8000)), AtWidth(2 * w + One(carry), bits8), bits8);
  }

  lemma RightExact(r: Regs, m: Macro, v: Word)
    requires m == LSR || m == ROR
    ensures Changes(r, Changed(m, r, v).0, m, v, Changed(m, r, v).1)
  {
    hide WithNZ, Shows, AtWidth, Part;
    var bits8, carry := ByteWide(r), m == ROR && r.p.b0;
    PartAtWidth(v, bits8);
    var w := AtWidth(v, bits8) / 2 + if !carry then 0 else if bits8 then 0x80 else 0x8000;
    FlagsOf(r.(p := r.p.(b0 := v % 2 == 1)), w, bits8);
  }

  lemma CountNumber(v: Word, bits8: bool)
    ensures AtWidth(v + 1, bits8) == if Part(v, bits8) + 1 == Range(bits8) then 0 else Part(v, bits8) + 1
    ensures AtWidth(v - 1, bits8) == if Part(v, bits8) == 0 then Range(bits8) - 1 else Part(v, bits8) - 1
  {
  }

  lemma CountExact(r: Regs, m: Macro, v: Word)
    requires m == INC || m == DEC
    ensures Changes(r, Changed(m, r, v).0, m, v, Changed(m, r, v).1)
  {
    hide WithNZ, Shows, AtWidth, Part;
    var bits8 := ByteWide(r);
    PartAtWidth(v, bits8);
    CountNumber(v, bits8);
    FlagsOf(r, AtWidth(if m == INC then v + 1 else v - 1, bits8), bits8);
  }

  lemma ChangesExactly(r: Regs, m: Macro, v: Word)
    requires ChangesMemory(m)
    ensures Changes(r, Changed(m, r, v).0, m, v, Changed(m, r, v).1)
  {
    hide Changed, Changes;
    if m == ASL || m == ROL {
      LeftExact(r, m, v);
    } else if m == LSR || m == ROR {
      RightExact(r, m, v);
    } else {
      CountExact(r, m, v);
    }
  }

  predicate Modifies(m: Macro) {
    m == ASL || m == ROL || m == LSR || m == ROR || m == INC || m == DEC
  }

  lemma ModifiesByte(m: Macro)
    requires Modifies(m)
    ensures ChangesMemory(m) && StoresMemory(m) && m != STX && m != STY
  {
  }

  /** Shifts, rotations and counts of memory: C, N, Z, and the result at the width of the accumulator. */
  lemma ModifyExact(s: Core, m: Macro, d: Data) returns (w: Word)
    requires Modes(s.r) && Modifies(m)
    ensures Changes(s.r.(pc := d.pc), Executed(s, m, d).r, m, d.operand, w)
    ensures Keeps(s, Executed(s, m, d), d, w, ByteWide(s.r))
  {
    hide Executed, Modes, Changed, Keeps, ChangesMemory, Computed, ToStore, StoresMemory, Modifies, Shows, Moves, Range;
    ModifiesByte(m);
    w := ToStore(s.r, m, d.operand);
    StoreIs(s, m, d);
    ChangedIs(s.r, m, d);
    ChangesExactly(s.r, m, d.operand);
    FlagsStay(Computed(s.r, m, d), s.r.c, d.pc);
  }

  predicate ModifiesAccumulator(m: Macro) {
    m == ASL_A || m == ROL_A || m == LSR_A || m == ROR_A || m == INC_A || m == DEC_A
  }

  /** The operation that a macro on the accumulator performs. */
  function Operation(m: Macro): Macro {
    if m == ASL_A then ASL else if m == ROL_A then ROL else if m == LSR_A then LSR else if m == ROR_A then ROR
    else if m == INC_A then INC else DEC
  }

  lemma AccumulatorComputes(m: Macro)
    requires ModifiesAccumulator(m)
    ensures Computes(m)
  {
  }

  lemma AccumulatorChanges(m: Macro)
    requires ModifiesAccumulator(m)
    ensures !Assigns(m) && !UsesOperand(m) && !ChangesMemory(m) && ChangesAccumulator(m)
    ensures OnMemory(m) == Operation(m) && ChangesMemory(Operation(m))
  {
  }

  /** ... and of the accumulator, which keeps its high byte at 8 bits. */
  lemma ModifyAccumulatorExact(s: Core, m: Macro, d: Data) returns (w: Word)
    requires Modes(s.r) && ModifiesAccumulator(m)
    ensures var t := Executed(s, m, d);
            && t.mem == s.mem && Part(t.r.c, ByteWide(s.r)) == w && (ByteWide(s.r) ==> t.r.c / 256 == s.r.c / 256)
            && Changes(s.r.(c := t.r.c, pc := d.pc), t.r, Operation(m), s.r.c, w)
  {
    hide Executed, Modes, Changed, ChangesMemory, Computes, Operation, ChangesAccumulator, Assigns, UsesOperand, Moves,
         ModifiesAccumulator, OnMemory;
    AccumulatorComputes(m);
    AccumulatorChanges(m);
    ComputesOnly(s, m, d);
    ChangesExactly(s.r, Operation(m), s.r.c);
    w := Changed(Operation(m), s.r, s.r.c).1;
    LowReplaced(s.r.c, w);
  }

  // ------------------------------------------------------------------ flags, transfers and jumps

  predicate OfFlags(m: Macro) {
    m == CLC || m == SEC || m == CLI || m == SEI || m == CLD || m == SED || m == CLV
  }

  predicate CopiesWide(m: Macro) {
    m == TCD || m == TDC || m == TSC
  }

  /** The macros that change no register but the PC, and the program bank in a long jump. */
  predicate GoesElsewhere(m: Macro) {
    || m == BRANCH || m == BRANCH_LONG || m == JMP || m == JMP_IND || m == JMP_IND_X
    || m == JMP_LONG || m == JMP_IND_LONG
  }

  predicate Idles(m: Macro) {
    m == NOP || m == WDM || m == WAI || m == STP
  }

  predicate Works(m: Macro) {
    Computes(m) && !Assigns(m) && !UsesOperand(m) && !ChangesMemory(m) && !ChangesAccumulator(m)
  }

  lemma FlagsWork(m: Macro)
    requires OfFlags(m)
    ensures Works(m)
  {
  }

  lemma FlagsSimple(m: Macro)
    requires OfFlags(m)
    ensures SetsFlag(m) && !TransfersWide(m)
  {
  }

  lemma TransfersWork(m: Macro)
    requires CopiesWide(m) || m == XBA
    ensures Works(m)
  {
  }

  lemma JumpsWork(m: Macro)
    requires GoesElsewhere(m)
    ensures Works(m)
  {
  }

  lemma IdleWorks(m: Macro)
    requires Idles(m)
    ensures Works(m)
  {
  }

  lemma WorkIs(s: Core, m: Macro, d: Data)
    requires Modes(s.r) && Works(m)
    ensures Executed(s, m, d) == Core(Simply(s.r, m, d.pbr).(pc := d.pc), s.mem)
  {
    hide Executed, Modes, Computes, Assigns, UsesOperand, ChangesMemory, ChangesAccumulator, Simply;
    ComputesOnly(s, m, d);
  }

  lemma FlagIs(r: Regs, m: Macro, bank: Byte)
    requires SetsFlag(m) && !TransfersWide(m)
    ensures Simply(r, m, bank) == r.(p := WithFlag(r.p, m))
  {
    hide WithFlag, SetsFlag, TransfersWide;
  }

  predicate SetsIt(m: Macro) {
    m == SEC || m == SEI || m == SED
  }

  /** The status bits after a flag instruction. */
  function FlagSet(p: Bits, m: Macro): Bits {
    if m == CLC || m == SEC then p.(b0 := SetsIt(m))
    else if m == CLI || m == SEI then p.(b2 := SetsIt(m))
    else if m == CLD || m == SED then p.(b3 := SetsIt(m))
    else p.(b6 := SetsIt(m))
  }

  lemma CarryFlag(p: Bits, m: Macro)
    requires m == CLC || m == SEC
    ensures WithFlag(p, m) == p.(b0 := SetsIt(m))
  {
  }

  lemma InterruptFlag(p: Bits, m: Macro)
    requires m == CLI || m == SEI
    ensures WithFlag(p, m) == p.(b2 := SetsIt(m))
  {
  }

  lemma DecimalFlag(p: Bits, m: Macro)
    requires m == CLD || m == SED
    ensures WithFlag(p, m) == p.(b3 := SetsIt(m))
  {
  }

  lemma OverflowFlag(p: Bits)
    ensures WithFlag(p, CLV) == p.(b6 := SetsIt(CLV))
  {
  }

  lemma FlagSetIs(p: Bits, m: Macro)
    requires OfFlags(m)
    ensures WithFlag(p, m) == FlagSet(p, m)
  {
    hide WithFlag, SetsIt;
    if m == CLC || m == SEC {
      CarryFlag(p, m);
    } else if m == CLI || m == SEI {
      InterruptFlag(p, m);
    } else if m == CLD || m == SED {
      DecimalFlag(p, m);
    } else {
      OverflowFlag(p);
    }
  }

  /** Each flag instruction sets or clears one bit of the status and changes nothing else. */
  lemma FlagExact(s: Core, m: Macro, d: Data)
    requires Modes(s.r) && OfFlags(m)
    ensures var t := Executed(s, m, d); t == s.(r := s.r.(p := t.r.p, pc := d.pc)) && t.r.p == FlagSet(s.r.p, m)
  {
    hide Executed, Modes, Works, OfFlags, WithFlag, Simply, SetsFlag, TransfersWide;
    FlagsWork(m);
    FlagsSimple(m);
    WorkIs(s, m, d);
    FlagIs(s.r, m, d.pbr);
    FlagSetIs(s.r.p, m);
  }

  /** XBA swaps the bytes of the accumulator, and sets no flag. */
  lemma SwapExact(s: Core, d: Data)
    requires Modes(s.r)
    ensures var t := Executed(s, XBA, d);
            && t == s.(r := s.r.(c := t.r.c, pc := d.pc))
            && t.r.c % 256 == s.r.c / 256 && t.r.c / 256 == s.r.c % 256
  {
    hide Executed, Modes;
    TransfersWork(XBA);
    WorkIs(s, XBA, d);
  }

  lemma CopyIs(r: Regs, m: Macro, bank: Byte)
    requires CopiesWide(m)
    ensures var t := Simply(r, m, bank);
            && t == (if m == TCD then r.(d := r.c, flagN := t.flagN, flagZ := t.flagZ)
                     else r.(c := if m == TDC then r.d else r.sp, flagN := t.flagN, flagZ := t.flagZ))
            && Shows(t, if m == TCD then r.c else t.c, false)
  {
    hide WithNZ, Shows;
    if m == TCD {
      FlagsOf(r.(d := r.c), r.c, false);
    } else if m == TDC {
      FlagsOf(r.(c := r.d), r.d, false);
    } else {
      FlagsOf(r.(c := r.sp), r.sp, false);
    }
  }

  /** TCD, TDC and TSC copy 16 bits at any width and show them in N and Z. */
  lemma CopyExact(s: Core, m: Macro, d: Data)
    requires Modes(s.r) && CopiesWide(m)
    ensures var t, v := Executed(s, m, d), if m == TCD then s.r.c else if m == TDC then s.r.d else s.r.sp;
            && t == s.(r := s.r.(d := if m == TCD then v else s.r.d, c := if m == TCD then s.r.c else v,
                                 flagN := t.r.flagN, flagZ := t.r.flagZ, pc := d.pc))
            && Shows(t.r, v, false)
  {
    hide Executed, Modes, Works, CopiesWide, Simply, Shows;
    TransfersWork(m);
    WorkIs(s, m, d);
    CopyIs(s.r, m, d.pbr);
    FlagsStay(Simply(s.r, m, d.pbr), Simply(s.r, m, d.pbr).c, d.pc);
  }

  predicate Inert(m: Macro) {
    !TransfersWide(m) && !SetsFlag(m) && m != XBA
  }

  lemma JumpsInert(m: Macro)
    requires GoesElsewhere(m)
    ensures Inert(m)
  {
  }

  lemma IdleInert(m: Macro)
    requires Idles(m)
    ensures Inert(m)
  {
  }

  lemma OtherIs(r: Regs, m: Macro, bank: Byte)
    requires Inert(m)
    ensures Simply(r, m, bank) == if m == JMP_LONG || m == JMP_IND_LONG then r.(pbr := bank) else r
  {
    hide TransfersWide, SetsFlag;
  }

  /** Branches, jumps, NOP, WDM, WAI and STP only go on; the long jumps change the bank. */
  lemma GoesOnExact(s: Core, m: Macro, d: Data)
    requires Modes(s.r) && (GoesElsewhere(m) || Idles(m))
    ensures Executed(s, m, d)
            == s.(r := s.r.(pbr := if m == JMP_LONG || m == JMP_IND_LONG then d.pbr else s.r.pbr, pc := d.pc))
  {
    hide Executed, Modes, Works, GoesElsewhere, Idles, Simply, Inert;
    if Idles(m) {
      IdleWorks(m);
      IdleInert(m);
    } else {
      JumpsWork(m);
      JumpsInert(m);
    }
    WorkIs(s, m, d);
    OtherIs(s.r, m, d.pbr);
  }

  // ------------------------------------------------------------------ index registers and stack pointer

  predicate OfIndexes(m: Macro) {
    || m == LDX || m == LDY || m == INX || m == INY || m == DEX || m == DEY
    || m == TAX || m == TAY || m == TSX || m == TXY || m == TYX
  }

  predicate ToX(m: Macro) {
    m == LDX || m == INX || m == DEX || m == TAX || m == TSX || m == TYX
  }

  /** The number that the register gets, before it is cut to the width of the index registers. */
  function IndexNumber(r: Regs, m: Macro, operand: Word): int {
    if m == LDX || m == LDY then operand
    else if m == INX then r.x + 1
    else if m == INY then r.y + 1
    else if m == DEX then r.x - 1
    else if m == DEY then r.y - 1
    else if m == TAX || m == TAY then r.c
    else if m == TSX then r.sp
    else if m == TXY then r.x
    else r.y
  }

  lemma IndexesAlone(m: Macro)
    requires OfIndexes(m)
    ensures OnIndex(m) && !Jumps(m)
  {
  }

  lemma CutTwice(v: int, bits8: bool)
    ensures Part(v % 65536, bits8) == Cut(v, bits8)
  {
    if bits8 {
      assert v % 65536 % 256 == v % 256;
    }
  }

  lemma LoadedIs(r: Regs, isX: bool, w: Word)
    ensures var t, v := IndexLoaded(r, isX, w), Part(w, ByteIndex(r));
            && t == r.(x := if isX then v else r.x, y := if isX then r.y else v, flagN := t.flagN, flagZ := t.flagZ)
            && Shows(t, v, ByteIndex(r))
  {
    hide WithNZ, Shows;
    FlagsOf(WithIndex(r, isX, Part(w, ByteIndex(r))), Part(w, ByteIndex(r)), ByteIndex(r));
  }

  predicate CountsIndex(m: Macro) {
    m == INX || m == INY || m == DEX || m == DEY
  }

  lemma IndexCounted(r: Regs, m: Macro, operand: Word)
    requires CountsIndex(m) && OnIndex(m)
    ensures Indexed(r, m, operand) == IndexLoaded(r, ToX(m), IndexNumber(r, m, operand) % 65536)
  {
    hide IndexLoaded;
  }

  lemma IndexCopied(r: Regs, m: Macro, operand: Word)
    requires OfIndexes(m) && !CountsIndex(m) && OnIndex(m)
    ensures var n := IndexNumber(r, m, operand);
            0 <= n < 65536 && Indexed(r, m, operand) == IndexLoaded(r, ToX(m), n)
  {
    hide IndexLoaded, Stepped;
  }

  lemma IndexedIs(r: Regs, m: Macro, operand: Word)
    requires OfIndexes(m) && OnIndex(m)
    ensures Indexed(r, m, operand) == IndexLoaded(r, ToX(m), IndexNumber(r, m, operand) % 65536)
  {
    hide Indexed, IndexLoaded, IndexNumber, CountsIndex, OnIndex, OfIndexes, ToX;
    if CountsIndex(m) {
      IndexCounted(r, m, operand);
    } else {
      IndexCopied(r, m, operand);
    }
  }

  lemma IndexExecuted(s: Core, m: Macro, d: Data)
    requires Modes(s.r) && OfIndexes(m) && OnIndex(m)
    ensures Executed(s, m, d) == Core(Indexed(s.r, m, d.operand).(pc := d.pc), s.mem)
  {
    hide Modes, OnIndex, Indexed, OfIndexes, Jumps;
    IndexesAlone(m);
  }

  /** The loads, counts and transfers of X and Y: one register, N and Z, at the width of the index
      registers. */
  lemma IndexExact(s: Core, m: Macro, d: Data)
    requires Modes(s.r) && OfIndexes(m)
    ensures var t, v := Executed(s, m, d), Cut(IndexNumber(s.r, m, d.operand), ByteIndex(s.r));
            && t == s.(r := s.r.(x := if ToX(m) then v else s.r.x, y := if ToX(m) then s.r.y else v,
                                 flagN := t.r.flagN, flagZ := t.r.flagZ, pc := d.pc))
            && Shows(t.r, v, ByteIndex(s.r))
  {
    hide Executed, Modes, OnIndex, Indexed, OfIndexes, IndexLoaded, IndexNumber, ToX, Shows, Part, Cut;
    IndexesAlone(m);
    IndexExecuted(s, m, d);
    IndexedIs(s.r, m, d.operand);
    var n := IndexNumber(s.r, m, d.operand);
    LoadedIs(s.r, ToX(m), n % 65536);
    CutTwice(n, ByteIndex(s.r));
    FlagsStay(IndexLoaded(s.r, ToX(m), n % 65536), s.r.c, d.pc);
  }

  /** TXS and TCS: page one where only a byte counts. */
  lemma StackPointerExact(s: Core, m: Macro, d: Data)
    requires Modes(s.r) && (m == TXS || m == TCS)
    ensures Executed(s, m, d)
            == s.(r := s.r.(pc := d.pc,
                            sp := if m == TXS then (if ByteIndex(s.r) then 256 + s.r.x else s.r.x)
                                  else if s.r.e != 0 then 256 + s.r.c % 256 else s.r.c))
  {
    ModesAlone(m);
    hide Jumps, OnIndex;
  }

  lemma ModesAlone(m: Macro)
    requires m == TXS || m == TCS || m == XCE || m == REP || m == SEP
    ensures OnModes(m) && !OnIndex(m) && !Jumps(m)
  {
  }

  function Inverse(b: Bits): Bits {
    Differing(b, ALL_ONES)
  }

  lemma OverwrittenIs(b: Bits, mask: Bits, v: bool)
    ensures Overwritten(b, mask, v) == if v then Either(b, mask) else Both(b, Inverse(mask))
  {
  }

  lemma NarrowedWith(r: Regs, value: Bits, v: bool)
    requires Modes(r)
    ensures var t := BitsSet(r, value, v);
            && t == r.(x := t.x, y := t.y, p := t.p, flagN := t.flagN, flagZ := t.flagZ)
            && t.x == Part(r.x, ByteIndex(t)) && t.y == Part(r.y, ByteIndex(t))
  {
    hide ModesSet;
    ModesNarrow(SignZeroSet(r, value, v), value, v);
  }

  lemma ModesNarrow(r: Regs, value: Bits, v: bool)
    requires Modes(r)
    ensures var t := ModesSet(r, value, v);
            && t == r.(x := t.x, y := t.y, p := t.p)
            && t.x == Part(r.x, ByteIndex(t)) && t.y == Part(r.y, ByteIndex(t))
  {
  }

  lemma ModedIs(s: Core, m: Macro, d: Data)
    requires Modes(s.r) && (m == REP || m == SEP)
    ensures Executed(s, m, d) == Core(BitsSet(s.r, OfByte(d.operand % 256), m == SEP).(pc := d.pc), s.mem)
  {
    hide Jumps, OnIndex, OfByte, BitsSet, Modes;
    ModesAlone(m);
  }

  /** REP clears, and SEP sets, the status bits of the operand, M and X only in native mode. */
  lemma StatusBitsExact(s: Core, m: Macro, d: Data)
    requires Modes(s.r) && (m == REP || m == SEP)
    ensures var bits := OfByte(d.operand % 256);
            var mask := if s.r.e != 0 then bits.(b5 := false, b4 := false) else bits;
            var t, b := Executed(s, m, d), StatusOf(s.r);
            && t == s.(r := s.r.(x := t.r.x, y := t.r.y, p := t.r.p, flagN := t.r.flagN, flagZ := t.r.flagZ,
                                 pc := d.pc))
            && StatusOf(t.r) == (if m == SEP then Either(b, mask) else Both(b, Inverse(mask)))
            && t.r.x == Part(s.r.x, ByteIndex(t.r)) && t.r.y == Part(s.r.y, ByteIndex(t.r))
  {
    hide Executed, OfByte, BitsSet, Modes, Overwritten, Either, Both, Inverse;
    var bits := OfByte(d.operand % 256);
    ModedIs(s, m, d);
    NarrowedWith(s.r, bits, m == SEP);
    BitsSetExactly(s.r, bits, m == SEP);
    OverwrittenIs(StatusOf(s.r), if s.r.e != 0 then bits.(b5 := false, b4 := false) else bits, m == SEP);
  }

  /** XCE exchanges the carry and E: entering emulation mode narrows X, Y and SP and clears the break bit,
      leaving it sets M and X. */
  lemma ExchangeExact(s: Core, d: Data)
    requires Modes(s.r)
    ensures var t, p := Executed(s, XCE, d), s.r.p;
            && t.r.e == One(p.b0) && One(t.r.p.b0) == s.r.e
            && t == s.(r := if t.r.e == s.r.e then s.r.(pc := d.pc)
                            else if t.r.e == 1 then
                              s.r.(e := 1, p := p.(b4 := false, b0 := false), pc := d.pc,
                                   x := s.r.x % 256, y := s.r.y % 256, sp := 256 + s.r.sp % 256)
                            else s.r.(e := 0, p := p.(b5 := true, b4 := true, b0 := true), pc := d.pc))
  {
    hide Jumps, OnIndex;
    ModesAlone(XCE);
  }
}
