/** The undocumented read-modify-write opcodes do the work of two documented ones, on both cores. */
module RmwCompositions {
  import opened ByteBits
  import opened Bitwise
  import opened Mos6510
  import opened Decoder
  import opened DecimalArithmetic
  import opened Machine6510
  import Batched = Core6510Batched
  import PerCycle = Core6510PerCycle
  import Macros = OpcodeMacros
  import MultiPrecision

  function First(op: ModifyOp): ModifyOp
    requires !Documented(op)
  {
    match op
    case SLO => ASL
    case RLA => ROL
    case SRE => LSR
    case RRA => ROR
    case DCP => DEC
    case ISB => INC
  }

  function Second(op: ModifyOp): LoadOp
    requires !Documented(op)
  {
    match op
    case SLO => ORA
    case RLA => AND
    case SRE => EOR
    case RRA => ADC
    case DCP => CMP
    case ISB => SBC
  }

  /** The cells that an instruction reads to find its operand. */
  function OperandCells(s: Cpu, mode: Mode): set<Word> {
    var bytes := {(s.pc + 1) % 65536, (s.pc + 2) % 65536};
    match mode
    case IndX => bytes + {(Operand8(s) + s.r.x) % 256, (Operand8(s) + s.r.x + 1) % 256}
    case IndY => bytes + {Operand8(s), (Operand8(s) + 1) % 256}
    case _ => bytes
  }

  lemma SamePointer(s: Cpu, t: Cpu, mode: Mode)
    requires mode == IndX || mode == IndY
    requires Operand8(s) == Operand8(t) && s.r.x == t.r.x
    requires forall c: Word :: c in OperandCells(s, mode) ==> t.ram[c] == s.ram[c]
    ensures Base(t, mode) == Base(s, mode)
  {
    hide Operand8;
    var p := if mode == IndX then (Operand8(s) + s.r.x) % 256 else Operand8(s);
    NextByte(Operand8(s) + s.r.x);
    assert p in OperandCells(s, mode) && (p + 1) % 256 in OperandCells(s, mode);
    hide OperandCells;
  }

  lemma SameBase(s: Cpu, t: Cpu, mode: Mode)
    requires s.pc == t.pc && s.r.x == t.r.x
    requires forall c: Word :: c in OperandCells(s, mode) ==> t.ram[c] == s.ram[c]
    ensures Base(t, mode) == Base(s, mode)
  {
    var p1, p2 := (s.pc + 1) % 65536, (s.pc + 2) % 65536;
    assert p1 in OperandCells(s, mode) && p2 in OperandCells(s, mode);
    assert Operand8(t) == Operand8(s) && Operand16(t) == Operand16(s);
    hide OperandCells, Operand8, Operand16;
    if mode == IndX || mode == IndY {
      SamePointer(s, t, mode);
    }
  }

  lemma SameAddress(s: Cpu, t: Cpu, mode: Mode)
    requires mode != Imm && s.pc == t.pc && s.r.x == t.r.x && s.r.y == t.r.y
    requires forall c: Word :: c in OperandCells(s, mode) ==> t.ram[c] == s.ram[c]
    ensures Address(t, mode) == Address(s, mode)
  {
    SameBase(s, t, mode);
    hide OperandCells, Base;
  }

  /** The machine after the documented read-modify-write, with the PC back at the same place. */
  function AfterFirst(s: Cpu, op: ModifyOp, mode: Mode): Cpu
    requires !Documented(op)
  {
    Execute(s, Modify(First(op), mode)).(pc := s.pc)
  }

  lemma KeepsIndexes(op: ModifyOp, r: Regs, m: Byte)
    requires Documented(op)
    ensures Changed(op, r, m).0.x == r.x && Changed(op, r, m).0.y == r.y
  {
  }

  /** The undocumented opcode is the documented read-modify-write followed by the load operation on
      the byte it has written: registers, all flags and memory, in every addressing mode and in
      decimal mode, with no condition. */
  lemma Composition(s: Cpu, op: ModifyOp, mode: Mode)
    requires !Documented(op)
    ensures var t := AfterFirst(s, op, mode);
            Execute(s, Modify(op, mode))
            == Moved(t.(r := Loaded(Second(op), t.r, t.ram[Address(s, mode)])), Length(mode))
  {
    var at := Address(s, mode);
    var (r, v) := Changed(First(op), s.r, s.ram[at]);
    assert Modified(op, s.r, s.ram[at]) == (Loaded(Second(op), r, v), v);
    assert Modified(First(op), s.r, s.ram[at]) == (r, v);
  }

  // ------------------------------------------------------------------ on the cores

  /** The operation macro `Second(op)` on the byte at `at`, as the next thing the core does. */
  method Continue(cpu: Machine, op: ModifyOp, at: Word)
    requires cpu.Valid() && !Documented(op)
    modifies cpu`regs
    ensures cpu.Valid()
    ensures cpu.State() == old(cpu.State()).(r := Loaded(Second(op), old(cpu.State()).r, old(cpu.State()).ram[at]))
  {
    var value := cpu.LoadAt(at);
    cpu.regs := Macros.Alu(Second(op), cpu.regs, value);
  }

  /** The documented read-modify-write, and then the documented operation on the byte it has written. */
  function TwoSteps(s: Cpu, op: ModifyOp, at: Word, length: nat): Cpu
    requires !Documented(op)
  {
    var t := Moved(ModifiedAt(s, First(op), at), length);
    t.(r := Loaded(Second(op), t.r, t.ram[at]))
  }

  lemma ModifiedThen(s: Cpu, op: ModifyOp, at: Word, length: nat)
    requires !Documented(op)
    ensures Moved(ModifiedAt(s, op, at), length) == TwoSteps(s, op, at, length)
  {
    hide Loaded, Changed;
    var (r, v) := Changed(First(op), s.r, s.ram[at]);
    assert Modified(op, s.r, s.ram[at]) == (Loaded(Second(op), r, v), v);
    assert Modified(First(op), s.r, s.ram[at]) == (r, v);
  }

  /** The batched core, on two equal machines: SLO, RLA, SRE, RRA, DCP or ISB on one of them leaves
      what ASL, ROL, LSR, ROR, DEC or INC with the same arguments, and then ORA, AND, EOR, ADC, CMP or
      SBC of the byte written, leave on the other, in as many cycles as the first of the two. */
  method OnBatchedCore(a: Machine, b: Machine, op: ModifyOp, addr: nat, clkInc1: nat, clkInc2: nat, pcInc: nat,
                       load: Batched.LoadFunc, store: Batched.StoreFunc, at: Word)
    requires a.Valid() && b.Valid() && a.State() == b.State() && a != b && a.ram != b.ram && a.clk == b.clk
    requires !Documented(op) && (addr + Batched.StoreIndex(a.State().r, store)) % 65536 == at
    requires Batched.LoadIndex(a.State().r, load) == Batched.StoreIndex(a.State().r, store)
    requires load == Batched.LOAD_ZERO_PAGE ==> addr < 256
    requires store in {Batched.STORE_ABS, Batched.STORE_ABS_X_RMW, Batched.STORE_ABS_Y_RMW}
    modifies a.ram, a`regs, a`pc, a`clk, b.ram, b`regs, b`pc, b`clk
    ensures a.Valid() && b.Valid() && a.clk == b.clk
    ensures a.State() == b.State() == TwoSteps(old(a.State()), op, at, pcInc)
  {
    hide ModifiedAt, Loaded, Moved;
    ModifiedThen(a.State(), op, at, pcInc);
    Batched.Rmw(a, op, addr, clkInc1, clkInc2, pcInc, load, store, at);
    Batched.Rmw(b, First(op), addr, clkInc1, clkInc2, pcInc, load, store, at);
    Continue(b, op, at);
  }

  /** The same for the ($nn),Y mode, which the batched core treats apart. */
  method OnBatchedCoreIndY(a: Machine, b: Machine, op: ModifyOp, p1: Byte, at: Word)
    requires a.Valid() && b.Valid() && a.State() == b.State() && a != b && a.ram != b.ram && a.clk == b.clk
    requires !Documented(op) && p1 == Operand8(a.State()) && at == Address(a.State(), IndY)
    modifies a.ram, a`regs, a`pc, a`clk, b.ram, b`regs, b`pc, b`clk
    ensures a.Valid() && b.Valid() && a.clk == b.clk
    ensures a.State() == b.State() == TwoSteps(old(a.State()), op, at, 2)
  {
    hide ModifiedAt, Loaded, Moved;
    ModifiedThen(a.State(), op, at, 2);
    Batched.RmwIndY(a, op, p1);
    Batched.RmwIndY(b, First(op), p1);
    Continue(b, op, at);
  }

  /** ... and the per-cycle core, in every mode. */
  method OnPerCycleCore(a: Machine, b: Machine, op: ModifyOp, mode: Mode, p1: Byte, p2: Word, at: Word)
    requires a.Valid() && b.Valid() && a.State() == b.State() && a != b && a.ram != b.ram && a.clk == b.clk
    requires !Documented(op) && mode != Imm && mode != ZpY
    requires p1 == Operand8(a.State()) && (WideMode(mode) ==> p2 == Operand16(a.State()))
    requires at == Address(a.State(), mode)
    modifies a.ram, a`regs, a`pc, a`clk, b.ram, b`regs, b`pc, b`clk
    ensures a.Valid() && b.Valid() && a.clk == b.clk
    ensures a.State() == b.State() == TwoSteps(old(a.State()), op, at, Length(mode))
  {
    hide ModifiedAt, Loaded, Moved;
    ModifiedThen(a.State(), op, at, Length(mode));
    PerCycle.Rmw(a, op, mode, p1, p2);
    PerCycle.Rmw(b, First(op), mode, p1, p2);
    Continue(b, op, at);
  }

  // ------------------------------------------------------------------ in two instructions

  /** Two sums, or two differences, in decimal mode: the same digits, carry, N, V and Z. */
  predicate SameDecimalSum(a: Byte, c: nat, x: Byte, v: Byte)
    requires c <= 1
  {
    && DecimalAdd(a, x, c) == DecimalAdd(a, v, c)
    && Negative(DecimalSum(a, x, c)) == Negative(DecimalSum(a, v, c))
    && AddOverflows(a, x, DecimalSum(a, x, c)) == AddOverflows(a, v, DecimalSum(a, v, c))
    && ((a + x + c) % 256 == 0) == ((a + v + c) % 256 == 0)
  }

  predicate SameDecimalDifference(a: Byte, c: nat, x: Byte, v: Byte)
    requires c <= 1
  {
    var dx, dv := a - x - (1 - c), a - v - (1 - c);
    && DecimalSubtract(a, x, c) == DecimalSubtract(a, v, c)
    && (dx % 256 >= 128) == (dv % 256 >= 128) && (dx % 256 == 0) == (dv % 256 == 0)
    && (Negative(a) != Negative(dx) && Negative(a) != Negative(x))
       == (Negative(a) != Negative(dv) && Negative(a) != Negative(v))
  }

  /** The operand `x` that the second instruction finds has the effect of the byte `v` that the first
      one wrote. */
  predicate SameEffect(op: ModifyOp, r: Regs, x: Byte, v: Byte)
    requires !Documented(op)
  {
    match op
    case SLO => Or(r.a, x) == Or(r.a, v)
    case RLA => And(r.a, x) == And(r.a, v)
    case SRE => x == v
    case RRA => if r.f.d then SameDecimalSum(r.a, CarryIn(r.f), x, v) else x == v
    case DCP =>
      && (r.a >= x) == (r.a >= v) && (r.a == x) == (r.a == v)
      && ((r.a - x) % 256 >= 128) == ((r.a - v) % 256 >= 128)
    case ISB => if r.f.d then SameDecimalDifference(r.a, CarryIn(r.f), x, v) else x == v
  }

  lemma SameDigits(x: Byte, v: Byte)
    requires MultiPrecision.IsDigits(x) && MultiPrecision.IsDigits(v)
    ensures MultiPrecision.TwoDigits(x) == MultiPrecision.TwoDigits(v) <==> x == v
  {
    assert x == 16 * (x / 16) + x % 16 && v == 16 * (v / 16) + v % 16;
  }

  lemma BcdSums(a: Byte, c: nat, x: Byte, v: Byte)
    requires c <= 1 && MultiPrecision.IsDigits(a) && MultiPrecision.IsDigits(x) && MultiPrecision.IsDigits(v)
    ensures DecimalAdd(a, x, c) == DecimalAdd(a, v, c) <==> x == v
    ensures DecimalSubtract(a, x, c) == DecimalSubtract(a, v, c) <==> x == v
  {
    MultiPrecision.ByteSumExact(a, x, c);
    MultiPrecision.ByteSumExact(a, v, c);
    MultiPrecision.ByteDifferenceExact(a, x, c);
    MultiPrecision.ByteDifferenceExact(a, v, c);
    SameDigits(x, v);
    hide DecimalAdd, DecimalSubtract, MultiPrecision.IsDigits, MultiPrecision.TwoDigits;
  }

  /** With BCD operands that is equality in decimal mode, too. */
  lemma BcdEffect(op: ModifyOp, r: Regs, x: Byte, v: Byte)
    requires (op == RRA || op == ISB) && r.f.d
    requires MultiPrecision.IsDigits(r.a) && MultiPrecision.IsDigits(x) && MultiPrecision.IsDigits(v)
    ensures SameEffect(op, r, x, v) <==> x == v
  {
    BcdSums(r.a, CarryIn(r.f), x, v);
    hide DecimalAdd, DecimalSubtract, DecimalSum, Negative, AddOverflows, MultiPrecision.IsDigits;
  }

  lemma {:induction false} XorInjective(a: nat, x: nat, v: nat, width: nat)
    requires x < Pow2(width) && v < Pow2(width)
    ensures BitXor(a, x, width) == BitXor(a, v, width) <==> x == v
  {
    if width > 0 {
      XorInjective(a / 2, x / 2, v / 2, width - 1);
      assert x == 2 * (x / 2) + x % 2 && v == 2 * (v / 2) + v % 2;
    }
  }

  /** A decimal sum, and a difference, by the parts that `SameEffect` compares. */
  lemma DecimalParts(r: Regs, m: Byte)
    requires r.f.d
    ensures var c := CarryIn(r.f); var (a, carry) := DecimalAdd(r.a, m, c); var t := DecimalSum(r.a, m, c);
            Adc(r, m) == r.(a := a, f := r.f.(z := (r.a + m + c) % 256 == 0, n := Negative(t),
                                              v := AddOverflows(r.a, m, t), c := carry))
  {
    Adc6510(r, m);
    hide DecimalAdd, DecimalSum, Negative, AddOverflows;
  }

  /** The registers after SBC, as far as the binary difference `d` determines them. */
  function Subtracted(r: Regs, m: Byte, a: Byte, carry: bool, d: int): Regs {
    r.(a := a, f := WithNZ(r.f, d % 256).(
                      c := carry, v := Negative(r.a) != Negative(d) && Negative(r.a) != Negative(m)))
  }

  lemma DifferenceParts(r: Regs, m: Byte)
    requires r.f.d
    ensures var c := CarryIn(r.f); var (a, carry) := DecimalSubtract(r.a, m, c);
            Sbc(r, m) == Subtracted(r, m, a, carry, r.a - m - (1 - c))
  {
    SubtractedIs(r, m);
    Sbc6510(r, m);
    hide Sbc, Subtracted, DecimalSubtract, CarryIn;
  }

  lemma SubtractedIs(r: Regs, m: Byte)
    ensures Sbc(r, m) == Subtracted(r, m, Sbc(r, m).a, Sbc(r, m).f.c, r.a - m - (1 - CarryIn(r.f)))
  {
    hide DecimalDifference, Negative, CarryIn;
  }

  lemma SameSubtracted(r: Regs, x: Byte, ax: Byte, cx: bool, dx: int, v: Byte, av: Byte, cv: bool, dv: int)
    ensures Subtracted(r, x, ax, cx, dx) == Subtracted(r, v, av, cv, dv)
            <==> ax == av && cx == cv && (dx % 256 >= 128) == (dv % 256 >= 128) && (dx % 256 == 0) == (dv % 256 == 0)
                 && (Negative(r.a) != Negative(dx) && Negative(r.a) != Negative(x))
                    == (Negative(r.a) != Negative(dv) && Negative(r.a) != Negative(v))
  {
    hide Negative;
  }

  lemma EffectOfDecimalSum(r: Regs, x: Byte, v: Byte)
    requires r.f.d
    ensures Adc(r, x) == Adc(r, v) <==> SameDecimalSum(r.a, CarryIn(r.f), x, v)
  {
    DecimalParts(r, x);
    DecimalParts(r, v);
    hide Adc, DecimalAdd, DecimalSum, Negative, AddOverflows, CarryIn;
  }

  lemma EffectOfBinarySum(r: Regs, x: Byte, v: Byte)
    requires !r.f.d
    ensures Adc(r, x) == Adc(r, v) <==> x == v
  {
    SameModulo(r.a + CarryIn(r.f), x, v);
    assert Adc(r, x).a == (r.a + CarryIn(r.f) + x) % 256;
    assert Adc(r, v).a == (r.a + CarryIn(r.f) + v) % 256;
    hide Adc, CarryIn;
  }

  lemma SameModulo(k: int, x: Byte, v: Byte)
    ensures (k + x) % 256 == (k + v) % 256 <==> x == v
    ensures (k - x) % 256 == (k - v) % 256 <==> x == v
  {
    Agree(k + x, k + v);
    Agree(k - x, k - v);
  }

  lemma Agree(p: int, q: int)
    requires -256 < p - q < 256
    ensures p % 256 == q % 256 <==> p == q
  {
    assert p == 256 * (p / 256) + p % 256 && q == 256 * (q / 256) + q % 256;
  }

  lemma EffectOfDecimalDifference(r: Regs, x: Byte, v: Byte)
    requires r.f.d
    ensures Sbc(r, x) == Sbc(r, v) <==> SameDecimalDifference(r.a, CarryIn(r.f), x, v)
  {
    hide Sbc, DecimalSubtract, Negative, Subtracted;
    var c := CarryIn(r.f);
    var (ax, cx) := DecimalSubtract(r.a, x, c);
    var (av, cv) := DecimalSubtract(r.a, v, c);
    DifferenceParts(r, x);
    DifferenceParts(r, v);
    SameSubtracted(r, x, ax, cx, r.a - x - (1 - c), v, av, cv, r.a - v - (1 - c));
  }

  lemma EffectOfBinaryDifference(r: Regs, x: Byte, v: Byte)
    requires !r.f.d
    ensures Sbc(r, x) == Sbc(r, v) <==> x == v
  {
    var k := r.a - (1 - CarryIn(r.f));
    SameModulo(k, x, v);
    assert Sbc(r, x).a == (k - x) % 256 && Sbc(r, v).a == (k - v) % 256;
    hide Sbc, CarryIn;
  }

  lemma EffectOfComparison(f: Flags, a: Byte, x: Byte, v: Byte)
    ensures Compare(f, a, x) == Compare(f, a, v)
            <==> (a >= x) == (a >= v) && (a == x) == (a == v) && ((a - x) % 256 >= 128) == ((a - v) % 256 >= 128)
  {
    assert (a - x) % 256 == 0 <==> a == x;
    assert (a - v) % 256 == 0 <==> a == v;
  }

  lemma EffectExact(op: ModifyOp, r: Regs, x: Byte, v: Byte)
    requires !Documented(op)
    ensures Loaded(Second(op), r, x) == Loaded(Second(op), r, v) <==> SameEffect(op, r, x, v)
  {
    hide Adc, Sbc, Compare, SameDecimalSum, SameDecimalDifference;
    match op {
      case SLO =>
      case RLA =>
      case SRE => EightBits(); XorInjective(r.a, x, v, 8);
      case RRA => EffectOfSum(r, x, v);
      case DCP => EffectOfComparison(r.f, r.a, x, v);
      case ISB => EffectOfDifference(r, x, v);
    }
  }

  lemma EffectOfSum(r: Regs, x: Byte, v: Byte)
    ensures Adc(r, x) == Adc(r, v) <==> if r.f.d then SameDecimalSum(r.a, CarryIn(r.f), x, v) else x == v
  {
    if r.f.d {
      EffectOfDecimalSum(r, x, v);
    } else {
      EffectOfBinarySum(r, x, v);
    }
    hide Adc, SameDecimalSum, CarryIn;
  }

  lemma EffectOfDifference(r: Regs, x: Byte, v: Byte)
    ensures Sbc(r, x) == Sbc(r, v) <==> if r.f.d then SameDecimalDifference(r.a, CarryIn(r.f), x, v) else x == v
  {
    if r.f.d {
      EffectOfDecimalDifference(r, x, v);
    } else {
      EffectOfBinaryDifference(r, x, v);
    }
    hide Sbc, SameDecimalDifference, CarryIn;
  }

  /** Executing the two documented opcodes at the same place does what the undocumented one does
      exactly when the operand that the second one finds has the effect of the byte written. */
  lemma InTwoInstructions(s: Cpu, op: ModifyOp, mode: Mode)
    requires !Documented(op)
    ensures var t := AfterFirst(s, op, mode);
            Execute(t, Load(Second(op), mode)) == Execute(s, Modify(op, mode))
            <==> SameEffect(op, t.r, Operand(t, mode), Changed(First(op), s.r, s.ram[Address(s, mode)]).1)
  {
    var t := AfterFirst(s, op, mode);
    Composition(s, op, mode);
    EffectExact(op, t.r, Operand(t, mode), t.ram[Address(s, mode)]);
    hide SameEffect, Loaded;
  }

  /** So it does as long as the operand is none of the cells that address it ... */
  lemma InTwoInstructionsApart(s: Cpu, op: ModifyOp, mode: Mode)
    requires !Documented(op) && mode != Imm && Address(s, mode) !in OperandCells(s, mode)
    ensures Execute(AfterFirst(s, op, mode), Load(Second(op), mode)) == Execute(s, Modify(op, mode))
  {
    var t := AfterFirst(s, op, mode);
    KeepsIndexes(First(op), s.r, s.ram[Address(s, mode)]);
    SameAddress(s, t, mode);
    InTwoInstructions(s, op, mode);
  }

  /** ... and not for an SLO $11 whose operand is its own operand byte: the ORA finds another address. */
  function OnItself(): Cpu {
    Cpu(Regs(0, 0, 0, 0xff, Flags(false, false, false, false, false, false)), 0x10,
        seq(65536, i => if i == 0x11 then 0x11 else 0))
  }

  lemma ShiftsItself()
    ensures var s := OnItself(); var t := AfterFirst(s, SLO, Zp);
            Address(s, Zp) == 0x11 && t.ram == s.ram[0x11 := 0x22] && t.r.a == 0 && t.pc == 0x10
  {
    assert Fetch(OnItself(), 1) == 0x11;
    hide Loaded, Fetch;
  }

  lemma FindsAnother()
    ensures var s := OnItself(); var t := AfterFirst(s, SLO, Zp);
            t.r.a == 0 && Operand(t, Zp) == 0 && Changed(ASL, s.r, s.ram[Address(s, Zp)]).1 == 0x22
  {
    hide AfterFirst;
    ShiftsItself();
    assert Operand8(AfterFirst(OnItself(), SLO, Zp)) == 0x22;
  }

  lemma SelfModified()
    ensures var s := OnItself();
            Execute(AfterFirst(s, SLO, Zp), Load(ORA, Zp)) != Execute(s, Modify(SLO, Zp))
  {
    FindsAnother();
    OrWithZero(0x22);
    OrWithZero(0);
    InTwoInstructions(OnItself(), SLO, Zp);
    hide OnItself, AfterFirst, Execute, Operand, Changed, Address, Or;
  }

  lemma {:induction false} OrOfZero(m: nat, width: nat)
    requires m < Pow2(width)
    ensures BitOr(0, m, width) == m
  {
    if width > 0 {
      OrOfZero(m / 2, width - 1);
    }
  }

  lemma OrWithZero(m: Byte)
    ensures Or(0, m) == m
  {
    EightBits();
    OrOfZero(m, 8);
  }
}
