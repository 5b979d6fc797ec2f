/** Every opcode of the 65816, and its modes over whole runs.  Where the operand of an instruction
    comes from is left open; what the instruction does with it is not. */
module ModeRuns {
  import opened ByteBits
  import opened Bitwise
  import opened Wdc65816
  import opened Opcodes65816
  import opened BlockMove
  import Decimal = DecimalArithmetic

  const RESET_VECTOR: Word := 0xfffc

  type Address = a: int | 0 <= a < 0x100_0000

  /** What the addressing mode of an instruction finds: its operand or the word it pushes, where the low
      and the high byte of a result are stored, and where the instruction goes on. */
  datatype Data = Data(operand: Word, low: Address, high: Address, pc: Word, pbr: Byte)

  // ------------------------------------------------------------------ accumulator and memory

  /** `t` has the stack pointer, the index registers, E, M and the X flag of `r`. */
  ghost predicate Aside(r: Regs, t: Regs) {
    && t.e == r.e && t.sp == r.sp && t.x == r.x && t.y == r.y && t.p.b5 == r.p.b5 && t.p.b4 == r.p.b4
    && t.p.b7 == r.p.b7 && t.p.b1 == r.p.b1
  }

  predicate Accumulator8(r: Regs) {
    Emulation(r) || r.p.b5
  }

  function AtWidth(v: int, bits8: bool): Word {
    if bits8 then v % 256 else v % 0x1_0000
  }

  /** An assignment to the accumulator, of which 8-bit mode leaves the high byte alone. */
  function WithAccumulator(r: Regs, v: nat): (t: Regs)
    ensures Aside(r, t)
  {
    if Accumulator8(r) then r.(c := r.c - r.c % 256 + v % 256) else r.(c := v % 0x1_0000)
  }

  function Accumulated(r: Regs, v: nat): (t: Regs)
    ensures Aside(r, t)
  {
    WithNZ(WithAccumulator(r, v), v, Accumulator8(r))
  }

  /** Bitwise operations on 16 bits. */
  function Or16(a: Word, b: Word): Word {
    AtWidth(BitOr(a, b, 16), false)
  }

  function And16(a: Word, b: Word): Word {
    AtWidth(BitAnd(a, b, 16), false)
  }

  function Xor16(a: Word, b: Word): Word {
    AtWidth(BitXor(a, b, 16), false)
  }

  /** A comparison of a register with an operand, both of one width. */
  function Compared(r: Regs, reg: Word, v: Word, bits8: bool): (t: Regs)
    ensures Aside(r, t)
  {
    var a, m := AtWidth(reg, bits8), AtWidth(v, bits8);
    WithNZ(r.(p := r.p.(b0 := a >= m)), AtWidth(a - m, bits8), bits8)
  }

  function Tested(r: Regs, v: Word): (t: Regs)
    ensures Aside(r, t)
  {
    r.(flagZ := if AtWidth(And16(r.c, v), Accumulator8(r)) == 0 then 0 else 1)
  }

  /** The sign and the bit below it, at the width of the accumulator. */
  function BitTested(r: Regs, v: Word): (t: Regs)
    ensures Aside(r, t)
  {
    var top := if Accumulator8(r) then v % 256 * 256 else v;
    Tested(r, v).(flagN := if top >= 0x8000 then 0x80 else 0, p := r.p.(b6 := top / 0x4000 % 2 == 1))
  }

  /** ASLROL, LSRROR and INCDEC: the registers, and the value that is stored. */
  function ShiftedLeft(r: Regs, v: Word, carry: bool): (t: (Regs, Word))
    ensures Aside(r, t.0)
  {
    var bits8 := Accumulator8(r);
    var w := AtWidth(v, bits8);
    var value := AtWidth(2 * w + (if carry then 1 else 0), bits8);
    (WithNZ(r.(p := r.p.(b0 := w >= if bits8 then 0x80 else 0x8000)), value, bits8), value)
  }

  function ShiftedRight(r: Regs, v: Word, carry: bool): (t: (Regs, Word))
    ensures Aside(r, t.0)
  {
    var bits8 := Accumulator8(r);
    var value := AtWidth(v, bits8) / 2 + (if !carry then 0 else if bits8 then 0x80 else 0x8000);
    (WithNZ(r.(p := r.p.(b0 := v % 2 == 1)), value, bits8), value)
  }

  function Counted(r: Regs, v: int): (t: (Regs, Word))
    ensures Aside(r, t.0)
  {
    (WithNZ(r, AtWidth(v, Accumulator8(r)), Accumulator8(r)), AtWidth(v, Accumulator8(r)))
  }

  function Changed(m: Macro, r: Regs, v: Word): (t: (Regs, Word))
    ensures Aside(r, t.0)
  {
    match m
    case ASL => ShiftedLeft(r, v, false)
    case ROL => ShiftedLeft(r, v, r.p.b0)
    case LSR => ShiftedRight(r, v, false)
    case ROR => ShiftedRight(r, v, r.p.b0)
    case INC => Counted(r, v + 1)
    case _ => Counted(r, v - 1)
  }

  predicate ChangesMemory(m: Macro) {
    m.ASL? || m.ROL? || m.LSR? || m.ROR? || m.INC? || m.DEC?
  }

  predicate ChangesAccumulator(m: Macro) {
    m.ASL_A? || m.ROL_A? || m.LSR_A? || m.ROR_A? || m.INC_A? || m.DEC_A?
  }

  function OnMemory(m: Macro): Macro {
    match m
    case ASL_A => ASL
    case ROL_A => ROL
    case LSR_A => LSR
    case ROR_A => ROR
    case INC_A => INC
    case _ => DEC
  }

  function ChangedAccumulator(m: Macro, r: Regs): (t: Regs)
    ensures Aside(r, t)
  {
    var (t, value) := Changed(m, r, r.c);
    WithAccumulator(t, value)
  }

  // ------------------------------------------------------------------ registers

  predicate Assigns(m: Macro) {
    m.ORA? || m.AND? || m.EOR? || m.LDA? || m.TXA? || m.TYA?
  }

  function Assigned(r: Regs, m: Macro, v: Word): Word {
    match m
    case ORA => Or16(r.c, v)
    case AND => And16(r.c, v)
    case EOR => Xor16(r.c, v)
    case TXA => r.x
    case TYA => r.y
    case _ => v
  }

  predicate UsesOperand(m: Macro) {
    m.ADC? || m.SBC? || m.CMP? || m.CPX? || m.CPY? || m.BIT? || m.BIT_IMM? || m.TSB? || m.TRB?
  }

  /** ADC and SBC at the width of the accumulator: the result, C and V. */
  function TotalOf(r: Regs, subtract: bool, v: Word): (Word, bool, bool) {
    var c := if r.p.b0 then 1 else 0;
    if Accumulator8(r) then
      if subtract then Decimal.ByteDifference(r.c % 256, v % 256, c, r.p.b3)
      else Decimal.ByteSum(r.c % 256, v % 256, c, r.p.b3)
    else if subtract then Decimal.WordDifference(r.c, v, c, r.p.b3)
    else Decimal.WordSum(r.c, v, c, r.p.b3)
  }

  function Summed(r: Regs, subtract: bool, v: Word): (t: Regs)
    ensures Aside(r, t)
  {
    var (sum, carry, overflow) := TotalOf(r, subtract, v);
    Accumulated(r.(p := r.p.(b6 := overflow, b0 := carry)), sum)
  }

  function Used(r: Regs, m: Macro, d: Data): (t: Regs)
    ensures Aside(r, t)
  {
    match m
    case CMP => Compared(r, r.c, d.operand, Accumulator8(r))
    case CPX => Compared(r, r.x, d.operand, Index8(r))
    case CPY => Compared(r, r.y, d.operand, Index8(r))
    case BIT => BitTested(r, d.operand)
    case BIT_IMM => Tested(r, d.operand)
    case TSB => Tested(r, d.operand)
    case TRB => Tested(r, d.operand)
    case _ => Summed(r, m.SBC?, d.operand)
  }

  predicate TransfersWide(m: Macro) {
    m.TCD? || m.TDC? || m.TSC?
  }

  function TransferredWide(r: Regs, m: Macro): (t: Regs)
    ensures Aside(r, t)
  {
    match m
    case TCD => WithNZ(r.(d := r.c), r.c, false)
    case TDC => WithNZ(r.(c := r.d), r.d, false)
    case _ => WithNZ(r.(c := r.sp), r.sp, false)
  }

  predicate SetsFlag(m: Macro) {
    m.CLC? || m.SEC? || m.CLI? || m.SEI? || m.CLD? || m.SED? || m.CLV?
  }

  function WithFlag(p: Bits, m: Macro): (q: Bits)
    ensures q == p.(b6 := q.b6, b3 := q.b3, b2 := q.b2, b0 := q.b0)
  {
    match m
    case CLC => p.(b0 := false)
    case SEC => p.(b0 := true)
    case CLI => p.(b2 := false)
    case SEI => p.(b2 := true)
    case CLD => p.(b3 := false)
    case SED => p.(b3 := true)
    case _ => p.(b6 := false)
  }

  function Swapped(c: Word): Word {
    c / 256 + 256 * (c % 256)
  }

  function SetOrMoved(r: Regs, m: Macro, bank: Byte): (t: Regs)
    ensures Aside(r, t)
  {
    if SetsFlag(m) then r.(p := WithFlag(r.p, m))
    else if m.XBA? then r.(c := Swapped(r.c))
    else if m.JMP_LONG? || m.JMP_IND_LONG? then r.(pbr := bank)
    else r
  }

  /** The instructions without an operand of their own, and those that change no register. */
  function Simply(r: Regs, m: Macro, bank: Byte): (t: Regs)
    ensures Aside(r, t)
  {
    if TransfersWide(m) then TransferredWide(r, m) else SetOrMoved(r, m, bank)
  }

  function Internal(r: Regs, m: Macro, d: Data): (t: Regs)
    ensures Aside(r, t)
  {
    if ChangesMemory(m) then Changed(m, r, d.operand).0
    else if ChangesAccumulator(m) then ChangedAccumulator(OnMemory(m), r)
    else Simply(r, m, d.pbr)
  }

  /** What the instructions on accumulator, memory and flags do to the registers. */
  function Computed(r: Regs, m: Macro, d: Data): (t: Regs)
    ensures Aside(r, t)
  {
    if Assigns(m) then Accumulated(r, Assigned(r, m, d.operand))
    else if UsesOperand(m) then Used(r, m, d)
    else Internal(r, m, d)
  }

  predicate StoresMemory(m: Macro) {
    m.STA? || m.STX? || m.STY? || m.STZ? || m.TSB? || m.TRB? || ChangesMemory(m)
  }

  /** The value that is stored, of which 8-bit mode stores the low byte. */
  function ToStore(r: Regs, m: Macro, v: Word): Word {
    match m
    case STA => r.c
    case STX => r.x
    case STY => r.y
    case STZ => 0
    case TSB => Or16(v, r.c)
    case TRB => And16(v, 0xffff - r.c)
    case _ => Changed(m, r, v).1
  }

  lemma PlainIs(r: Regs, m: Macro, d: Data)
    requires StoresMemory(m) && !ChangesMemory(m)
    ensures Computed(r, m, d) == if m == TSB || m == TRB then Tested(r, d.operand) else r
  {
    hide Tested, Accumulated, Changed, Or16, And16, WithFlag, Swapped, TransferredWide, Summed, Compared, BitTested;
  }

  lemma ChangedIs(r: Regs, m: Macro, d: Data)
    requires ChangesMemory(m)
    ensures Changed(m, r, d.operand) == (Computed(r, m, d), ToStore(r, m, d.operand))
  {
    hide Changed;
  }

  predicate StoresByte(r: Regs, m: Macro) {
    if m.STX? || m.STY? then Index8(r) else Accumulator8(r)
  }

  function Put(mem: Memory, d: Data, v: Word, bits8: bool): Memory {
    if bits8 then mem[d.low := v % 256] else mem[d.low := v % 256][d.high := v / 256]
  }

  predicate OnIndex(m: Macro) {
    || m.LDX? || m.LDY? || m.INX? || m.INY? || m.DEX? || m.DEY?
    || m.TAX? || m.TAY? || m.TSX? || m.TXY? || m.TYX?
  }

  predicate OnModes(m: Macro) {
    m.TXS? || m.TCS? || m.XCE? || m.REP? || m.SEP?
  }

  predicate Pushes(m: Macro) {
    m.PHA? || m.PHX? || m.PHY? || m.PHB? || m.PHK? || m.PHP? || m.PEA? || m.PEI? || m.PER? || m.JSR?
  }

  predicate Pulls(m: Macro) {
    m.PLA? || m.PLX? || m.PLY? || m.PLB? || m.PLP?
  }

  /** The instructions and entries that set the PC themselves. */
  predicate Jumps(m: Macro) {
    || m.JSR_LONG? || m.JSR_IND_X? || m.RTS? || m.RTL? || m.RTI? || m.PHD? || m.PLD?
    || m.BRK? || m.COP_02? || m.IRQ? || m.NMI? || m.RES? || m.MVN? || m.MVP?
  }

  function Indexed(r: Regs, m: Macro, operand: Word): Regs
    requires OnIndex(m)
  {
    match m
    case LDX => IndexLoaded(r, true, operand)
    case LDY => IndexLoaded(r, false, operand)
    case INX => IndexLoaded(r, true, Stepped(r.x, true, 1))
    case INY => IndexLoaded(r, false, Stepped(r.y, true, 1))
    case DEX => IndexLoaded(r, true, Stepped(r.x, false, 1))
    case DEY => IndexLoaded(r, false, Stepped(r.y, false, 1))
    case TAX => IndexLoaded(r, true, r.c)
    case TAY => IndexLoaded(r, false, r.c)
    case TSX => IndexLoaded(r, true, r.sp)
    case TXY => IndexLoaded(r, false, r.x)
    case TYX => IndexLoaded(r, true, r.y)
  }

  function Exchanged(r: Regs): Regs {
    if Carry(r) == r.e then r
    else if r.p.b0 then
      r.(e := 1, p := r.p.(b4 := false, b0 := false), x := r.x % 256, y := r.y % 256, sp := PageOne(r.sp))
    else r.(e := 0, p := r.p.(b5 := true, b4 := true, b0 := true))
  }

  function Moded(r: Regs, m: Macro, operand: Word): Regs
    requires OnModes(m)
  {
    match m
    case TXS => r.(sp := if Index8(r) then PageOne(r.x) else r.x)
    case TCS => r.(sp := if Emulation(r) then PageOne(r.c) else r.c)
    case XCE => Exchanged(r)
    case REP => BitsSet(r, OfByte(operand % 256), false)
    case SEP => BitsSet(r, OfByte(operand % 256), true)
  }

  // ------------------------------------------------------------------ the stack

  /** The status byte that PHP pushes. */
  function PushedStatus(r: Regs): Byte {
    if Emulation(r) then EmulationStatus(r.(p := r.p.(b4 := true))) else NativeStatus(r)
  }

  function Stacked(s: Core, v: Word, bits8: bool): Core {
    if bits8 then Pushed(s, v % 256) else PushedWord(s, v)
  }

  predicate PushesOperand(m: Macro) {
    m.PEA? || m.PEI? || m.PER?
  }

  function ToPush(r: Regs, m: Macro): Word {
    match m
    case PHA => r.c
    case PHX => r.x
    case PHY => r.y
    case PHB => r.dbr
    case PHK => r.pbr
    case PHP => PushedStatus(r)
    case _ => NextPc(r, 2)
  }

  predicate PushesByte(r: Regs, m: Macro) {
    match m
    case PHA => Accumulator8(r)
    case PHX => Index8(r)
    case PHY => Index8(r)
    case PHB => true
    case PHK => true
    case PHP => true
    case _ => false
  }

  function AfterPush(s: Core, m: Macro, operand: Word): Core {
    if PushesOperand(m) then PushedWordUnwrapped(s, operand) else Stacked(s, ToPush(s.r, m), PushesByte(s.r, m))
  }

  function PulledIndex(s: Core, isX: bool): Regs {
    if Index8(s.r) then IndexLoaded(Pulled(s).r, isX, Top(s))
    else IndexLoaded(Pulled(Pulled(s)).r, isX, TopWord(s))
  }

  function PulledAccumulator(s: Core): Regs {
    if Accumulator8(s.r) then Accumulated(Pulled(s).r, Top(s)) else Accumulated(Pulled(Pulled(s)).r, TopWord(s))
  }

  function AfterPull(s: Core, m: Macro): Regs
    requires Pulls(m)
  {
    match m
    case PLA => PulledAccumulator(s)
    case PLX => PulledIndex(s, true)
    case PLY => PulledIndex(s, false)
    case PLB => WithNZ(Pulled(s).r.(dbr := Top(s)), Top(s), true)
    case PLP => Narrowed(WithStatus(Pulled(s).r, Top(s)))
  }

  function Restarted(s: Core, vector: Word): Core
    requires vector < 0xffff
  {
    s.(r := s.r.(e := 1, x := s.r.x % 256, y := s.r.y % 256, sp := PageOne(s.r.sp - 3), d := 0, dbr := 0, pbr := 0,
                 p := s.r.p.(b4 := false, b3 := false, b2 := true),
                 pc := WordOf(s.mem[vector], s.mem[vector + 1])))
  }

  function Jumped(s: Core, m: Macro): Core
    requires Jumps(m)
  {
    match m
    case BRK => Entered(s, Interrupt.BRK)
    case COP_02 => Entered(s, Interrupt.COP)
    case IRQ => Entered(s, Interrupt.IRQ)
    case NMI => Entered(s, Interrupt.NMI)
    case RES => Restarted(s, RESET_VECTOR)
    case RTI => ReturnedFromInterrupt(s)
    case JSR_LONG => CalledLong(s)
    case RTL => ReturnedLong(s)
    case JSR_IND_X => CalledIndirect(s)
    case RTS => Returned(s)
    case PHD => DirectPushed(s)
    case PLD => DirectPulled(s)
    case MVN => MovedOnce(s, true)
    case MVP => MovedOnce(s, false)
  }

  // ------------------------------------------------------------------ steps and runs

  /** Any macro but the jumps, up to the PC. */
  function Worked(s: Core, m: Macro, d: Data): Core
    requires Modes(s.r) && !Jumps(m)
  {
    if OnIndex(m) then s.(r := Indexed(s.r, m, d.operand))
    else if OnModes(m) then s.(r := Moded(s.r, m, d.operand))
    else if Pulls(m) then s.(r := AfterPull(s, m))
    else if Pushes(m) then AfterPush(s, m, d.operand)
    else if StoresMemory(m) then
      Core(Computed(s.r, m, d), Put(s.mem, d, ToStore(s.r, m, d.operand), StoresByte(s.r, m)))
    else s.(r := Computed(s.r, m, d))
  }

  function Executed(s: Core, m: Macro, d: Data): (t: Core)
    requires Modes(s.r)
  {
    if Jumps(m) then Jumped(s, m)
    else var t := Worked(s, m, d); t.(r := t.r.(pc := d.pc))
  }

  /** One turn of the main loop: the opcode at the PC, or an interrupt or reset. */
  datatype Tick = Instruction(d: Data) | Irq | Nmi | Reset

  function MacroAt(s: Core, t: Tick): Macro {
    match t
    case Instruction(_) => MacroOf(Fetched(s, 0))
    case Irq => Macro.IRQ
    case Nmi => Macro.NMI
    case Reset => Macro.RES
  }

  function Ticked(s: Core, t: Tick): (u: Core)
    requires Modes(s.r)
  {
    if t.Instruction? then Executed(s, MacroAt(s, t), t.d) else Jumped(s, MacroAt(s, t))
  }

  function After(s: Core, run: seq<Tick>): (t: Core)
    requires Modes(s.r)
    ensures Modes(t.r)
    decreases |run|
  {
    if run == [] then s
    else TickKeepsModes(s, run[0]); After(Ticked(s, run[0]), run[1..])
  }

  lemma StatusKeepsModes(r: Regs, v: Byte)
    requires (r.e == 0 || r.e == 1) && (Emulation(r) ==> r.sp / 256 == 1)
    ensures Modes(Narrowed(WithStatus(r, v)))
  {
    StatusSet(r, v);
  }

  lemma EntryKeepsModes(s: Core, kind: Interrupt)
    requires Modes(s.r)
    ensures Modes(Entered(s, kind).r)
  {
  }

  /** The jumps that neither enter nor leave an interrupt. */
  predicate Calls(m: Macro) {
    || m.JSR_LONG? || m.JSR_IND_X? || m.RTS? || m.RTL? || m.PHD? || m.PLD? || m.RES? || m.MVN? || m.MVP?
  }

  lemma CallKeepsModes(s: Core, m: Macro)
    requires Modes(s.r) && Calls(m)
    ensures Modes(Jumped(s, m).r)
  {
    hide Entered, ReturnedFromInterrupt;
  }

  lemma ReturnKeepsModes(s: Core)
    requires Modes(s.r)
    ensures Modes(ReturnedFromInterrupt(s).r)
  {
    StatusKeepsModes(Pulled(s).r, Top(s));
  }

  lemma JumpKeepsModes(s: Core, m: Macro)
    requires Modes(s.r) && Jumps(m)
    ensures Modes(Jumped(s, m).r)
  {
    hide Entered, ReturnedFromInterrupt, CalledLong, ReturnedLong, CalledIndirect, Returned, DirectPushed, DirectPulled;
    hide MovedOnce, Restarted, Modes;
    match m {
      case BRK => EntryKeepsModes(s, Interrupt.BRK);
      case COP_02 => EntryKeepsModes(s, Interrupt.COP);
      case IRQ => EntryKeepsModes(s, Interrupt.IRQ);
      case NMI => EntryKeepsModes(s, Interrupt.NMI);
      case RTI => ReturnKeepsModes(s);
      case _ => CallKeepsModes(s, m);
    }
  }

  /** A push changes nothing but SP and memory. */
  ghost predicate OnlyStack(s: Core, t: Core) {
    t.r == s.r.(sp := t.r.sp) && (Emulation(s.r) ==> t.r.sp / 256 == 1)
  }

  lemma StackedAside(s: Core, v: Word, bits8: bool)
    ensures OnlyStack(s, Stacked(s, v, bits8))
  {
  }

  lemma UnwrappedAside(s: Core, v: Word)
    ensures OnlyStack(s, PushedWordUnwrapped(s, v))
  {
  }

  lemma PushAside(s: Core, m: Macro, operand: Word)
    ensures OnlyStack(s, AfterPush(s, m, operand))
  {
    UnwrappedAside(s, operand);
    StackedAside(s, ToPush(s.r, m), PushesByte(s.r, m));
  }

  lemma PullKeepsModes(s: Core, m: Macro)
    requires Modes(s.r) && Pulls(m)
    ensures Modes(AfterPull(s, m)) && (m != PLP ==> SameWidths(s.r, AfterPull(s, m)))
  {
    match m {
      case PLA => assert Modes(PulledAccumulator(s)) && SameWidths(s.r, PulledAccumulator(s));
      case PLX => assert Modes(PulledIndex(s, true)) && SameWidths(s.r, PulledIndex(s, true));
      case PLY => assert Modes(PulledIndex(s, false)) && SameWidths(s.r, PulledIndex(s, false));
      case PLB =>
      case PLP => StatusKeepsModes(Pulled(s).r, Top(s));
    }
  }

  lemma IndexKeepsModes(r: Regs, m: Macro, operand: Word)
    requires Modes(r) && OnIndex(m)
    ensures Modes(Indexed(r, m, operand)) && SameWidths(r, Indexed(r, m, operand))
  {
  }

  lemma ModedKeepsModes(r: Regs, m: Macro, operand: Word)
    requires Modes(r) && OnModes(m)
    ensures Modes(Moded(r, m, operand))
    ensures m == TXS || m == TCS ==> SameWidths(r, Moded(r, m, operand))
  {
    match m {
      case REP => BitsSetExactly(r, OfByte(operand % 256), false);
      case SEP => BitsSetExactly(r, OfByte(operand % 256), true);
      case _ =>
    }
  }

  /** The instructions on accumulator, memory and flags leave E, SP, X, Y, M and the X flag alone. */
  lemma RegistersKeepModes(s: Core, m: Macro, d: Data)
    requires Modes(s.r) && !Jumps(m) && (OnIndex(m) || OnModes(m))
    ensures Modes(Worked(s, m, d).r)
    ensures !OfModes(m) ==> SameWidths(s.r, Worked(s, m, d).r)
  {
    if OnIndex(m) {
      IndexKeepsModes(s.r, m, d.operand);
    } else {
      ModedKeepsModes(s.r, m, d.operand);
    }
  }

  lemma AsideKeepsModes(r: Regs, t: Regs)
    requires Modes(r) && Aside(r, t)
    ensures Modes(t) && SameWidths(r, t)
  {
  }

  lemma StackKeepsModes(s: Core, m: Macro, d: Data)
    requires Modes(s.r) && !Jumps(m) && !OnIndex(m) && !OnModes(m) && (Pulls(m) || Pushes(m))
    ensures Modes(Worked(s, m, d).r)
    ensures !OfModes(m) ==> SameWidths(s.r, Worked(s, m, d).r)
  {
    hide AfterPull, AfterPush, Computed;
    if Pulls(m) {
      PullKeepsModes(s, m);
    } else {
      PushAside(s, m, d.operand);
    }
  }

  lemma MemoryKeepsModes(s: Core, m: Macro, d: Data)
    requires Modes(s.r) && !Jumps(m) && !OnIndex(m) && !OnModes(m)
    ensures Modes(Worked(s, m, d).r)
    ensures !OfModes(m) ==> SameWidths(s.r, Worked(s, m, d).r)
  {
    if Pulls(m) || Pushes(m) {
      StackKeepsModes(s, m, d);
    } else {
      AsideKeepsModes(s.r, Computed(s.r, m, d));
    }
    hide AfterPull, AfterPush, Computed, Modes, SameWidths, Put, ToStore, StoresByte, OfModes;
  }

  lemma WorkKeepsModes(s: Core, m: Macro, d: Data)
    requires Modes(s.r) && !Jumps(m)
    ensures Modes(Worked(s, m, d).r)
    ensures !OfModes(m) ==> SameWidths(s.r, Worked(s, m, d).r)
  {
    if OnIndex(m) || OnModes(m) {
      RegistersKeepModes(s, m, d);
    } else {
      MemoryKeepsModes(s, m, d);
    }
  }

  /** Every opcode, interrupt entry and reset keeps E at 0 or 1, SP in page one under E, and X and Y
      below 256 under E or the X flag, although some leave page one on the way. */
  lemma MacroKeepsModes(s: Core, m: Macro, d: Data)
    requires Modes(s.r)
    ensures Modes(Executed(s, m, d).r)
  {
    if Jumps(m) {
      JumpKeepsModes(s, m);
    } else {
      WorkKeepsModes(s, m, d);
    }
  }

  lemma TickKeepsModes(s: Core, t: Tick)
    requires Modes(s.r)
    ensures Modes(Ticked(s, t).r)
  {
    if t.Instruction? {
      MacroKeepsModes(s, MacroAt(s, t), t.d);
    } else {
      JumpKeepsModes(s, MacroAt(s, t));
    }
  }

  /** The run after each of its ticks. */
  lemma {:induction false} RunKeepsModes(s: Core, run: seq<Tick>, k: nat)
    requires Modes(s.r) && k <= |run|
    ensures Modes(After(s, run[..k]).r) && After(s, run) == After(After(s, run[..k]), run[k..])
    decreases |run|
  {
    if k == 0 {
      assert run[..0] == [] && run[0..] == run;
    } else {
      TickKeepsModes(s, run[0]);
      RunKeepsModes(Ticked(s, run[0]), run[1..], k - 1);
      assert run[..k][1..] == run[1..][..k - 1] && run[1..][k - 1..] == run[k..];
    }
  }

  // ------------------------------------------------------------------ who changes the modes

  /** The opcodes that can change the width of a register. */
  predicate ChangesWidths(opcode: Byte) {
    opcode == 0xc2 || opcode == 0xe2 || opcode == 0xfb || opcode == 0x28 || opcode == 0x40
  }

  predicate SameWidths(r: Regs, t: Regs) {
    t.e == r.e && Index8(t) == Index8(r) && Accumulator8(t) == Accumulator8(r)
  }

  predicate OfModes(m: Macro) {
    m == REP || m == SEP || m == XCE || m == PLP || m == RTI
  }

  lemma LowRowsOfModes(row: nat, column: nat)
    requires row < 8 && column < 16
    ensures OfModes(Cell(row, column)) <==> ChangesWidths(16 * row + column)
  {
    match row
    case 0 => assert !OfModes(Row0(column));
    case 1 => assert !OfModes(Row1(column));
    case 2 => assert OfModes(Row2(column)) <==> column == 8;
    case 3 => assert !OfModes(Row3(column));
    case 4 => assert OfModes(Row4(column)) <==> column == 0;
    case 5 => assert !OfModes(Row5(column));
    case 6 => assert !OfModes(Row6(column));
    case _ => assert !OfModes(Row7(column));
  }

  lemma HighRowsOfModes(row: nat, column: nat)
    requires 8 <= row < 16 && column < 16
    ensures OfModes(Cell(row, column)) <==> ChangesWidths(16 * row + column)
  {
    match row
    case 8 => assert !OfModes(Row8(column));
    case 9 => assert !OfModes(Row9(column));
    case 10 => assert !OfModes(RowA(column));
    case 11 => assert !OfModes(RowB(column));
    case 12 => assert OfModes(RowC(column)) <==> column == 2;
    case 13 => assert !OfModes(RowD(column));
    case 14 => assert OfModes(RowE(column)) <==> column == 2;
    case _ => assert OfModes(RowF(column)) <==> column == 11;
  }

  lemma OpcodesOfModes(opcode: Byte)
    ensures ChangesWidths(opcode) <==> OfModes(MacroOf(opcode))
  {
    assert 16 * (opcode / 16) + opcode % 16 == opcode;
    if opcode / 16 < 8 {
      LowRowsOfModes(opcode / 16, opcode % 16);
    } else {
      HighRowsOfModes(opcode / 16, opcode % 16);
    }
  }

  lemma NoResetOpcode(opcode: Byte)
    ensures MacroOf(opcode) != RES
  {
  }

  lemma EntryKeepsWidths(s: Core, kind: Interrupt)
    ensures SameWidths(s.r, Entered(s, kind).r)
  {
  }

  lemma JumpKeepsWidths(s: Core, m: Macro)
    requires Jumps(m) && m != RTI && m != RES
    ensures SameWidths(s.r, Jumped(s, m).r)
  {
    match m {
      case BRK => EntryKeepsWidths(s, Interrupt.BRK);
      case COP_02 => EntryKeepsWidths(s, Interrupt.COP);
      case IRQ => EntryKeepsWidths(s, Interrupt.IRQ);
      case NMI => EntryKeepsWidths(s, Interrupt.NMI);
      case _ =>
    }
  }

  lemma WidthsKept(s: Core, m: Macro, d: Data)
    requires Modes(s.r) && !OfModes(m) && m != RES
    ensures SameWidths(s.r, Executed(s, m, d).r)
  {
    if Jumps(m) {
      JumpKeepsWidths(s, m);
    } else {
      WorkKeepsModes(s, m, d);
    }
  }

  /** REP, SEP, XCE, PLP, RTI and a reset are the only ways to change the mode or a register width. */
  lemma WidthsChangeOnlyThere(s: Core, t: Tick)
    requires Modes(s.r) && !SameWidths(s.r, Ticked(s, t).r)
    ensures t.Reset? || (t.Instruction? && ChangesWidths(Fetched(s, 0)))
  {
    var m := MacroAt(s, t);
    if t.Instruction? {
      OpcodesOfModes(Fetched(s, 0));
      NoResetOpcode(Fetched(s, 0));
      if !ChangesWidths(Fetched(s, 0)) {
        WidthsKept(s, m, t.d);
      }
    } else if !t.Reset? {
      JumpKeepsWidths(s, m);
    }
  }
}
