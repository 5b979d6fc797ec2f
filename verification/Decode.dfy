/** The 6510 opcode map, decoded from the three fields of the opcode byte: aaabbbcc. */
module Decoder {
  import opened Bitwise
  import opened Mos6510

  function ConditionOf(a: nat): Condition
    requires a < 8
  {
    match a
    case 0 => PL
    case 1 => MI
    case 2 => VC
    case 3 => VS
    case 4 => CC
    case 5 => CS
    case 6 => NE
    case _ => EQ
  }

  /** The addressing mode of columns 01 and 11. */
  function ModeOf(b: nat): Mode
    requires b < 8
  {
    match b
    case 0 => IndX
    case 1 => Zp
    case 2 => Imm
    case 3 => Abs
    case 4 => IndY
    case 5 => ZpX
    case 6 => AbsY
    case _ => AbsX
  }

  /** An operand register other than A is indexed by Y where A would be indexed by X. */
  function IndexedByY(mode: Mode): Mode {
    if mode == ZpX then ZpY else if mode == AbsX then AbsY else mode
  }

  /** Column 01, the accumulator group; row 4 holds the stores. */
  function Accumulator(a: nat, mode: Mode): Insn
    requires a < 8
  {
    match a
    case 0 => Load(ORA, mode)
    case 1 => Load(AND, mode)
    case 2 => Load(EOR, mode)
    case 3 => Load(ADC, mode)
    case 4 => if mode == Imm then Load(NOOP, Imm) else Store(STA, mode)
    case 5 => Load(LDA, mode)
    case 6 => Load(CMP, mode)
    case _ => Load(SBC, mode)
  }

  /** Column 11, undocumented: immediate operations, stores, loads and combined read-modify-writes. */
  function CombinedImmediate(a: nat): LoadOp
    requires a < 8
  {
    match a
    case 0 => ANC
    case 1 => ANC
    case 2 => ASR
    case 3 => ARR
    case 4 => ANE
    case 5 => LXA
    case 6 => SBX
    case _ => SBC
  }

  function CombinedStore(mode: Mode): Insn {
    match mode
    case IndY => HighStore(SHA, IndY)
    case AbsX => HighStore(SHA, AbsY)
    case AbsY => HighStore(SHS, AbsY)
    case _ => Store(SAX, IndexedByY(mode))
  }

  function Combined(a: nat, mode: Mode): Insn
    requires a < 8
  {
    match a
    case 0 => Modify(SLO, mode)
    case 1 => Modify(RLA, mode)
    case 2 => Modify(SRE, mode)
    case 3 => Modify(RRA, mode)
    case 4 => CombinedStore(mode)
    case 5 => Load(if mode == AbsY then LAS else LAX, IndexedByY(mode))
    case 6 => Modify(DCP, mode)
    case _ => Modify(ISB, mode)
  }

  /** Column 10: shifts, X and memory counting. */
  function OnMemory(a: nat, mode: Mode): Insn
    requires a < 8
  {
    match a
    case 0 => Modify(ASL, mode)
    case 1 => Modify(ROL, mode)
    case 2 => Modify(LSR, mode)
    case 3 => Modify(ROR, mode)
    case 4 => if mode == AbsX then HighStore(SHX, AbsY) else Store(STX, IndexedByY(mode))
    case 5 => Load(LDX, IndexedByY(mode))
    case 6 => Modify(DEC, mode)
    case _ => Modify(INC, mode)
  }

  function OnRegister(a: nat): SimpleOp
    requires a < 8
  {
    match a
    case 0 => ASL_A
    case 1 => ROL_A
    case 2 => LSR_A
    case 3 => ROR_A
    case 4 => TXA
    case 5 => TAX
    case 6 => DEX
    case _ => NOP
  }

  function Shifts(a: nat, b: nat): Insn
    requires a < 8 && b < 8
  {
    match b
    case 0 => if a < 4 then JAM else if a == 5 then Load(LDX, Imm) else Load(NOOP, Imm)
    case 2 => Simple(OnRegister(a))
    case 4 => JAM
    case 6 => Simple(if a == 4 then TXS else if a == 5 then TSX else NOP)
    case _ => OnMemory(a, ModeOf(b))
  }

  /** Column 00: control flow, flags, Y and the index comparisons. */
  function Flow(a: nat): Insn
    requires a < 8
  {
    match a
    case 0 => BRK
    case 1 => JSR
    case 2 => RTI
    case 3 => RTS
    case 4 => Load(NOOP, Imm)
    case 5 => Load(LDY, Imm)
    case 6 => Load(CPY, Imm)
    case _ => Load(CPX, Imm)
  }

  function StackOrCount(a: nat): Insn
    requires a < 8
  {
    match a
    case 0 => PHP
    case 1 => PLP
    case 2 => PHA
    case 3 => PLA
    case 4 => Simple(DEY)
    case 5 => Simple(TAY)
    case 6 => Simple(INY)
    case _ => Simple(INX)
  }

  function FlagOp(a: nat): SimpleOp
    requires a < 8
  {
    match a
    case 0 => CLC
    case 1 => SEC
    case 2 => CLI
    case 3 => SEI
    case 4 => TYA
    case 5 => CLV
    case 6 => CLD
    case _ => SED
  }

  function OnY(a: nat, mode: Mode): Insn
    requires a < 8
  {
    match a
    case 0 => Load(NOOP, mode)
    case 1 => Load(BIT, mode)
    case 2 => if mode == Abs then JMP else Load(NOOP, mode)
    case 3 => if mode == Abs then JMP_IND else Load(NOOP, mode)
    case 4 => Store(STY, mode)
    case 5 => Load(LDY, mode)
    case 6 => Load(CPY, mode)
    case _ => Load(CPX, mode)
  }

  function OnIndexedY(a: nat, mode: Mode): Insn {
    if a == 4 then (if mode == AbsX then HighStore(SHY, AbsX) else Store(STY, mode))
    else Load(if a == 5 then LDY else NOOP, mode)
  }

  function Control(a: nat, b: nat): Insn
    requires a < 8 && b < 8
  {
    match b
    case 0 => Flow(a)
    case 1 => OnY(a, Zp)
    case 2 => StackOrCount(a)
    case 3 => OnY(a, Abs)
    case 4 => Branch(ConditionOf(a))
    case 5 => OnIndexedY(a, ZpX)
    case 6 => Simple(FlagOp(a))
    case _ => OnIndexedY(a, AbsX)
  }

  function Decode(opcode: Byte): Insn {
    var a, b := opcode / 32, opcode / 4 % 8;
    match opcode % 4
    case 0 => Control(a, b)
    case 1 => Accumulator(a, ModeOf(b))
    case 2 => Shifts(a, b)
    case _ => if b == 2 then Load(CombinedImmediate(a), Imm) else Combined(a, ModeOf(b))
  }

  /** `fetch_tab`: whether the fetch reads a third byte. */
  predicate FetchesThree(opcode: Byte) {
    opcode % 16 >= 12 || (opcode / 16 % 2 == 1 && (opcode % 16 == 9 || opcode % 16 == 11))
  }

  predicate WideMode(mode: Mode) {
    mode == Abs || mode == AbsX || mode == AbsY
  }

  /** The instructions whose macros use the third byte. */
  predicate Wide(insn: Insn) {
    match insn
    case Load(_, mode) => WideMode(mode)
    case Store(_, mode) => WideMode(mode)
    case Modify(_, mode) => WideMode(mode)
    case HighStore(_, mode) => WideMode(mode)
    case JMP => true
    case JMP_IND => true
    case _ => false
  }

  function FetchCycles(insn: Insn): nat {
    if Wide(insn) then 3 else 2
  }

  /** The combinations of operation and mode that the opcode map contains. */
  predicate Occurs(insn: Insn) {
    match insn
    case Store(_, mode) => mode != Imm
    case Modify(_, mode) => mode != Imm && mode != ZpY
    case HighStore(op, mode) => mode == AbsX || mode == AbsY || (mode == IndY && op == SHA)
    case _ => true
  }

  lemma ColumnsUseOperands(a: nat, b: nat)
    requires a < 8 && b < 8
    ensures Wide(Control(a, b)) <==> b == 3 || b == 7
    ensures Wide(Accumulator(a, ModeOf(b))) <==> b == 3 || b == 6 || b == 7
    ensures Wide(Shifts(a, b)) <==> b == 3 || b == 7
    ensures b != 2 ==> (Wide(Combined(a, ModeOf(b))) <==> b == 3 || b == 6 || b == 7)
  {
  }

  lemma ColumnsOccur(a: nat, b: nat)
    requires a < 8 && b < 8
    ensures Occurs(Control(a, b)) && Occurs(Accumulator(a, ModeOf(b))) && Occurs(Shifts(a, b))
    ensures b != 2 ==> Occurs(Combined(a, ModeOf(b)))
  {
  }

  /** The fields that the decoder looks at, by the digits of the opcode. */
  lemma Fields(opcode: Byte, high: nat, low: nat)
    requires opcode == 16 * high + low && low < 16
    ensures opcode / 32 == high / 2 && opcode / 4 % 8 == 4 * (high % 2) + low / 4 && opcode % 4 == low % 4
    ensures opcode / 16 == high && opcode % 16 == low && opcode % 2 == low % 2
  {
  }

  lemma FetchTableByDigits(h: nat, low: nat)
    requires h < 2 && low < 16
    ensures low >= 12 || (h == 1 && (low == 9 || low == 11))
            <==> 4 * h + low / 4 == 3 || 4 * h + low / 4 == 7 || (4 * h + low / 4 == 6 && low % 2 == 1)
  {
  }

  lemma FetchTableByFields(opcode: Byte)
    ensures var b := opcode / 4 % 8;
            FetchesThree(opcode) <==> b == 3 || b == 7 || (b == 6 && opcode % 2 == 1)
  {
    Fields(opcode, opcode / 16, opcode % 16);
    FetchTableByDigits(opcode / 16 % 2, opcode % 16);
  }

  /** The fetch table asks for three bytes exactly where the decoded instruction uses them. */
  lemma FetchTableExact(opcode: Byte)
    ensures FetchesThree(opcode) <==> Wide(Decode(opcode))
    ensures Occurs(Decode(opcode))
  {
    FetchTableByFields(opcode);
    ColumnsUseOperands(opcode / 32, opcode / 4 % 8);
    ColumnsOccur(opcode / 32, opcode / 4 % 8);
  }

  /** What a core does next: one instruction, or the entry of an interrupt that it takes. */
  datatype Tick = Instruction | Irq | Nmi

  function Ticked(s: Cpu, t: Tick): Cpu {
    match t
    case Instruction => Execute(s, Decode(Fetch(s, 0)))
    case Irq => Interrupted(s, IRQ_VECTOR)
    case Nmi => Interrupted(s, NMI_VECTOR)
  }

  function TickCycles(s: Cpu, t: Tick): nat {
    if t == Instruction then Cycles(s, Decode(Fetch(s, 0))) else INTERRUPT_CYCLES
  }

  /** The machine after a run, and the cycles that the run takes. */
  function After(s: Cpu, run: seq<Tick>): Cpu
    decreases |run|
  {
    if run == [] then s else After(Ticked(s, run[0]), run[1..])
  }

  function CyclesOver(s: Cpu, run: seq<Tick>): nat
    decreases |run|
  {
    if run == [] then 0 else TickCycles(s, run[0]) + CyclesOver(Ticked(s, run[0]), run[1..])
  }

  lemma {:induction false} AfterConcat(s: Cpu, first: seq<Tick>, second: seq<Tick>)
    ensures After(s, first + second) == After(After(s, first), second)
    ensures CyclesOver(s, first + second) == CyclesOver(s, first) + CyclesOver(After(s, first), second)
    decreases |first|
  {
    if first == [] {
      assert first + second == second;
    } else {
      assert (first + second)[1..] == first[1..] + second;
      AfterConcat(Ticked(s, first[0]), first[1..], second);
    }
  }
}
