/** The 6510 instruction set, documented and undocumented opcodes alike, as a function on machine
    states.  Flat RAM, no pending interrupt, no stolen cycle.  The two CPU cores are proved against
    this reference. */
module Mos6510 {
  import opened ByteBits
  import opened Bitwise

  type Ram = s: seq<Byte> | |s| == 65536 witness seq(65536, _ => 0)

  datatype Flags = Flags(n: bool, v: bool, d: bool, i: bool, z: bool, c: bool)

  datatype Regs = Regs(a: Byte, x: Byte, y: Byte, sp: Byte, f: Flags)

  /** Everything but the cycle count. */
  datatype Cpu = Cpu(r: Regs, pc: Word, ram: Ram)

  // ------------------------------------------------------------------ instructions

  datatype Mode = Imm | Zp | ZpX | ZpY | Abs | AbsX | AbsY | IndX | IndY

  datatype LoadOp =
    | ORA | AND | EOR | ADC | LDA | CMP | SBC | LDX | LDY | CPX | CPY | BIT
    | LAX | LAS | ANC | ASR | ARR | ANE | LXA | SBX | NOOP

  datatype StoreOp = STA | STX | STY | SAX

  datatype ModifyOp = ASL | ROL | LSR | ROR | INC | DEC | SLO | RLA | SRE | RRA | DCP | ISB

  datatype SimpleOp =
    | CLC | SEC | CLI | SEI | CLV | CLD | SED
    | TAX | TXA | TAY | TYA | TSX | TXS | INX | INY | DEX | DEY | NOP
    | ASL_A | ROL_A | LSR_A | ROR_A

  /** The stores whose value and high address byte are masked by the high byte plus one. */
  datatype HighOp = SHA | SHX | SHY | SHS

  datatype Condition = PL | MI | VC | VS | CC | CS | NE | EQ

  datatype Insn =
    | Load(lop: LoadOp, mode: Mode)
    | Store(sop: StoreOp, mode: Mode)
    | Modify(mop: ModifyOp, mode: Mode)
    | HighStore(hop: HighOp, mode: Mode)
    | Simple(op: SimpleOp)
    | Branch(cond: Condition)
    | JMP | JMP_IND | JSR | RTS | RTI | BRK | PHA | PLA | PHP | PLP
    | JAM

  // ------------------------------------------------------------------ operands

  function Fetch(s: Cpu, k: nat): Byte {
    s.ram[(s.pc + k) % 65536]
  }

  /** The byte after the opcode, and the word after it. */
  function Operand8(s: Cpu): Byte {
    Fetch(s, 1)
  }

  function Operand16(s: Cpu): Word {
    WordOf(Fetch(s, 1), Fetch(s, 2))
  }

  function ZeroPageWord(ram: Ram, at: Byte): Word {
    WordOf(ram[at], ram[(at + 1) % 256])
  }

  /** The address before indexing, and the index. */
  function Base(s: Cpu, mode: Mode): Word {
    match mode
    case Abs => Operand16(s)
    case AbsX => Operand16(s)
    case AbsY => Operand16(s)
    case IndX => ZeroPageWord(s.ram, (Operand8(s) + s.r.x) % 256)
    case IndY => ZeroPageWord(s.ram, Operand8(s))
    case _ => Operand8(s)
  }

  function Index(r: Regs, mode: Mode): Byte {
    match mode
    case ZpX => r.x
    case ZpY => r.y
    case AbsX => r.x
    case AbsY => r.y
    case IndY => r.y
    case _ => 0
  }

  /** Zero-page indexing stays in page zero; the others wrap at 16 bits. */
  function Address(s: Cpu, mode: Mode): Word {
    var sum := Base(s, mode) + Index(s.r, mode);
    if mode == ZpX || mode == ZpY then sum % 256 else sum % 65536
  }

  lemma Unindexed(s: Cpu, mode: Mode)
    requires mode == Zp || mode == Abs || mode == IndX
    ensures Address(s, mode) == Base(s, mode)
  {
  }

  function Operand(s: Cpu, mode: Mode): Byte {
    if mode == Imm then Operand8(s) else s.ram[Address(s, mode)]
  }

  predicate PageCrossed(s: Cpu, mode: Mode) {
    Base(s, mode) % 256 + Index(s.r, mode) > 255
  }

  function Length(mode: Mode): nat {
    if mode == Abs || mode == AbsX || mode == AbsY then 3 else 2
  }

  function LoadCycles(s: Cpu, mode: Mode): nat {
    match mode
    case Imm => 2
    case Zp => 3
    case IndX => 6
    case IndY => if PageCrossed(s, mode) then 6 else 5
    case AbsX => if PageCrossed(s, mode) then 5 else 4
    case AbsY => if PageCrossed(s, mode) then 5 else 4
    case _ => 4
  }

  function StoreCycles(mode: Mode): nat {
    match mode
    case Zp => 3
    case ZpX => 4
    case ZpY => 4
    case Abs => 4
    case AbsX => 5
    case AbsY => 5
    case _ => 6
  }

  function ModifyCycles(mode: Mode): nat {
    match mode
    case Zp => 5
    case ZpX => 6
    case Abs => 6
    case AbsX => 7
    case AbsY => 7
    case _ => 8
  }

  // ------------------------------------------------------------------ arithmetic

  function WithNZ(f: Flags, v: Byte): Flags {
    f.(n := v >= 128, z := v == 0)
  }

  function CarryIn(f: Flags): nat {
    if f.c then 1 else 0
  }

  predicate Negative(v: int) {
    v / 128 % 2 == 1
  }

  /** A sum whose operands agree in sign and whose result does not. */
  predicate AddOverflows(a: Byte, m: Byte, sum: int) {
    Negative(a) == Negative(m) && Negative(a) != Negative(sum)
  }

  /** The NMOS decimal sum before its high digit is adjusted. */
  function DecimalSum(a: Byte, m: Byte, c: nat): nat {
    var low := a % 16 + m % 16 + c;
    var adjusted := if low > 9 then low + 6 else low;
    adjusted % 16 + (a - a % 16) + (m - m % 16) + if adjusted <= 15 then 0 else 16
  }

  /** Decimal addition given that sum: N and V come from it, Z from the binary sum. */
  function DecimalAdc(r: Regs, m: Byte, t: int): Regs {
    var u := if t - t % 16 > 0x90 then t + 0x60 else t;
    r.(a := u % 256,
       f := r.f.(z := (r.a + m + CarryIn(r.f)) % 256 == 0, n := Negative(t),
                 v := AddOverflows(r.a, m, t), c := u - u % 16 > 0xf0))
  }

  function Adc(r: Regs, m: Byte): Regs {
    var c := CarryIn(r.f);
    var sum := r.a + m + c;
    if r.f.d then DecimalAdc(r, m, DecimalSum(r.a, m, c))
    else
      r.(a := sum % 256,
         f := WithNZ(r.f, sum % 256).(v := AddOverflows(r.a, m, sum), c := sum > 255))
  }

  /** The NMOS decimal difference before its high digit is adjusted. */
  function DigitDifference(a: Byte, m: Byte, c: nat): int {
    var low := a % 16 - m % 16 - (1 - c);
    if low < 0 then (low - 6) % 16 + (a - a % 16) - (m - m % 16) - 16
    else low + (a - a % 16) - (m - m % 16)
  }

  function DecimalDifference(a: Byte, m: Byte, c: nat): int {
    var t := DigitDifference(a, m, c);
    if t < 0 then t - 0x60 else t
  }

  /** All four flags come from the binary difference, in decimal mode too. */
  function Sbc(r: Regs, m: Byte): Regs {
    var c := CarryIn(r.f);
    var diff := r.a - m - (1 - c);
    r.(a := (if r.f.d then DecimalDifference(r.a, m, c) else diff) % 256,
       f := WithNZ(r.f, diff % 256).(
              v := Negative(r.a) != Negative(diff) && Negative(r.a) != Negative(m), c := diff >= 0))
  }

  function Compare(f: Flags, reg: Byte, m: Byte): Flags {
    WithNZ(f, (reg - m) % 256).(c := reg >= m)
  }

  /** ARR: AND, then a rotate right whose carry and overflow come from bits 6 and 5, or in decimal
      mode from a digit-wise adjustment. */
  function Arr(r: Regs, m: Byte): Regs {
    ArrMasked(r, And(r.a, m))
  }

  function ArrMasked(r: Regs, t: Byte): Regs {
    var rotated := t / 2 + 128 * CarryIn(r.f);
    if !r.f.d then
      r.(a := rotated,
         f := WithNZ(r.f, rotated).(c := rotated / 64 % 2 == 1, v := rotated / 64 % 2 != rotated / 32 % 2))
    else
      r.(a := ArrAdjusted(t, rotated),
         f := r.f.(n := r.f.c, z := rotated == 0, v := rotated / 64 % 2 != t / 64 % 2, c := ArrCarries(t)))
  }

  predicate ArrCarries(t: Byte) {
    t / 16 + t / 16 % 2 > 5
  }

  /** Both digits of the rotated value, adjusted by what they were before the rotation. */
  function ArrAdjusted(t: Byte, rotated: Byte): Byte {
    var low := if t % 16 + t % 2 > 5 then 16 * (rotated / 16) + (rotated + 6) % 16 else rotated;
    if ArrCarries(t) then (low + 0x60) % 256 else low
  }

  // ------------------------------------------------------------------ what each operation does

  function Loaded(op: LoadOp, r: Regs, m: Byte): Regs {
    match op
    case ORA => var v := Or(r.a, m); r.(a := v, f := WithNZ(r.f, v))
    case AND => var v := And(r.a, m); r.(a := v, f := WithNZ(r.f, v))
    case EOR => var v := Xor(r.a, m); r.(a := v, f := WithNZ(r.f, v))
    case ADC => Adc(r, m)
    case SBC => Sbc(r, m)
    case LDA => r.(a := m, f := WithNZ(r.f, m))
    case LDX => r.(x := m, f := WithNZ(r.f, m))
    case LDY => r.(y := m, f := WithNZ(r.f, m))
    case LAX => r.(a := m, x := m, f := WithNZ(r.f, m))
    case CMP => r.(f := Compare(r.f, r.a, m))
    case CPX => r.(f := Compare(r.f, r.x, m))
    case CPY => r.(f := Compare(r.f, r.y, m))
    case BIT => r.(f := r.f.(n := m >= 128, v := m / 64 % 2 == 1, z := And(m, r.a) == 0))
    case LAS => var v := And(r.sp, m); r.(sp := v, x := v, a := v, f := WithNZ(r.f, v))
    case ANC => var v := And(r.a, m); r.(a := v, f := WithNZ(r.f, v).(c := v >= 128))
    case ASR => var v := And(r.a, m); r.(a := v / 2, f := WithNZ(r.f, v / 2).(c := v % 2 == 1))
    case ARR => Arr(r, m)
    case ANE => var v := And(And(Or(r.a, 0xff), r.x), m); r.(a := v, f := WithNZ(r.f, v))
    case LXA => var v := And(Or(r.a, 0xee), m); r.(a := v, x := v, f := WithNZ(r.f, v))
    case SBX => var v := And(r.a, r.x); r.(x := (v - m) % 256, f := Compare(r.f, v, m))
    case NOOP => r
  }

  function Stored(op: StoreOp, r: Regs): Byte {
    match op
    case STA => r.a
    case STX => r.x
    case STY => r.y
    case SAX => And(r.a, r.x)
  }

  predicate Documented(op: ModifyOp) {
    op == ASL || op == LSR || op == ROL || op == ROR || op == INC || op == DEC
  }

  function Rotated(r: Regs, carry: bool, v: Byte): (Regs, Byte) {
    (r.(f := WithNZ(r.f, v).(c := carry)), v)
  }

  /** A documented read-modify-write: the registers and the byte written back. */
  function Changed(op: ModifyOp, r: Regs, m: Byte): (Regs, Byte)
    requires Documented(op)
  {
    match op
    case ASL => Rotated(r, m >= 128, 2 * m % 256)
    case LSR => Rotated(r, m % 2 == 1, m / 2)
    case ROL => Rotated(r, m >= 128, (2 * m + CarryIn(r.f)) % 256)
    case ROR => Rotated(r, m % 2 == 1, m / 2 + 128 * CarryIn(r.f))
    case INC => Rotated(r, r.f.c, (m + 1) % 256)
    case DEC => Rotated(r, r.f.c, (m - 1) % 256)
  }

  /** A documented read-modify-write, then a load operation on the byte it wrote. */
  function Then(first: ModifyOp, second: LoadOp, r: Regs, m: Byte): (Regs, Byte)
    requires Documented(first)
  {
    var (t, v) := Changed(first, r, m);
    (Loaded(second, t, v), v)
  }

  /** The undocumented read-modify-write operations are compositions. */
  function Modified(op: ModifyOp, r: Regs, m: Byte): (Regs, Byte) {
    match op
    case SLO => Then(ASL, ORA, r, m)
    case RLA => Then(ROL, AND, r, m)
    case SRE => Then(LSR, EOR, r, m)
    case RRA => Then(ROR, ADC, r, m)
    case DCP => Then(DEC, CMP, r, m)
    case ISB => Then(INC, SBC, r, m)
    case _ => Changed(op, r, m)
  }

  function Simply(op: SimpleOp, r: Regs): Regs {
    match op
    case CLC => r.(f := r.f.(c := false))
    case SEC => r.(f := r.f.(c := true))
    case CLI => r.(f := r.f.(i := false))
    case SEI => r.(f := r.f.(i := true))
    case CLV => r.(f := r.f.(v := false))
    case CLD => r.(f := r.f.(d := false))
    case SED => r.(f := r.f.(d := true))
    case TAX => r.(x := r.a, f := WithNZ(r.f, r.a))
    case TXA => r.(a := r.x, f := WithNZ(r.f, r.x))
    case TAY => r.(y := r.a, f := WithNZ(r.f, r.a))
    case TYA => r.(a := r.y, f := WithNZ(r.f, r.y))
    case TSX => r.(x := r.sp, f := WithNZ(r.f, r.sp))
    case TXS => r.(sp := r.x)
    case INX => var v := (r.x + 1) % 256; r.(x := v, f := WithNZ(r.f, v))
    case INY => var v := (r.y + 1) % 256; r.(y := v, f := WithNZ(r.f, v))
    case DEX => var v := (r.x - 1) % 256; r.(x := v, f := WithNZ(r.f, v))
    case DEY => var v := (r.y - 1) % 256; r.(y := v, f := WithNZ(r.f, v))
    case NOP => r
    case ASL_A => var (t, v) := Changed(ASL, r, r.a); t.(a := v)
    case ROL_A => var (t, v) := Changed(ROL, r, r.a); t.(a := v)
    case LSR_A => var (t, v) := Changed(LSR, r, r.a); t.(a := v)
    case ROR_A => var (t, v) := Changed(ROR, r, r.a); t.(a := v)
  }

  predicate Taken(cond: Condition, f: Flags) {
    match cond
    case PL => !f.n
    case MI => f.n
    case VC => !f.v
    case VS => f.v
    case CC => !f.c
    case CS => f.c
    case NE => !f.z
    case EQ => f.z
  }

  // ------------------------------------------------------------------ the stack

  function StatusBits(f: Flags, breakBit: bool): Bits {
    Bits(f.n, f.v, true, breakBit, f.d, f.i, f.z, f.c)
  }

  function FlagsOf(b: Bits): Flags {
    Flags(b.b7, b.b6, b.b3, b.b2, b.b1, b.b0)
  }

  function Push(s: Cpu, v: Byte): Cpu {
    s.(ram := s.ram[0x100 + s.r.sp := v], r := s.r.(sp := (s.r.sp - 1) % 256))
  }

  function PushWord(s: Cpu, w: Word): Cpu {
    Push(Push(s, w / 256), w % 256)
  }

  /** The byte pulled next, and the machine after pulling it. */
  function Top(s: Cpu): Byte {
    s.ram[0x100 + (s.r.sp + 1) % 256]
  }

  function Popped(s: Cpu): Cpu {
    s.(r := s.r.(sp := (s.r.sp + 1) % 256))
  }

  function PulledWord(s: Cpu): Word {
    WordOf(Top(s), Top(Popped(s)))
  }

  // ------------------------------------------------------------------ instructions that are not operation x mode

  function Signed(v: Byte): int {
    if v >= 128 then v - 256 else v
  }

  function Moved(s: Cpu, length: nat): Cpu {
    s.(pc := (s.pc + length) % 65536)
  }

  function BranchTarget(s: Cpu): Word {
    (Moved(s, 2).pc + Signed(Operand8(s))) % 65536
  }

  function Branched(s: Cpu, cond: Condition): Cpu {
    if Taken(cond, s.r.f) then s.(pc := BranchTarget(s)) else Moved(s, 2)
  }

  /** A taken branch costs one cycle more, two when it leaves the page. */
  function BranchCycles(s: Cpu, cond: Condition): nat {
    if !Taken(cond, s.r.f) then 2
    else if Moved(s, 2).pc / 256 != BranchTarget(s) / 256 then 4
    else 3
  }

  /** The target address is read after the return address has been pushed. */
  function Called(s: Cpu): Cpu {
    var t := PushWord(Moved(s, 2), Moved(s, 2).pc);
    t.(pc := WordOf(Operand8(s), t.ram[t.pc]))
  }

  function Returned(s: Cpu): Cpu {
    Moved(Popped(Popped(s)).(pc := PulledWord(s)), 1)
  }

  function ReturnedFromInterrupt(s: Cpu): Cpu {
    var t := PulledStatus(s);
    Popped(Popped(t)).(pc := PulledWord(t))
  }

  /** BRK, IRQ and NMI: push the PC and the status, set I, take the vector. */
  function Entered(s: Cpu, breakBit: bool, vector: Word): Cpu
    requires vector + 1 < 65536
  {
    var t := Push(PushWord(s, s.pc), Value(StatusBits(s.r.f, breakBit)));
    t.(pc := WordOf(t.ram[vector], t.ram[vector + 1]), r := t.r.(f := t.r.f.(i := true)))
  }

  const IRQ_VECTOR: Word := 0xfffe
  const NMI_VECTOR: Word := 0xfffa
  const INTERRUPT_CYCLES := 7

  function Interrupted(s: Cpu, vector: Word): Cpu
    requires vector + 1 < 65536
  {
    Entered(s, false, vector)
  }

  /** JMP ($nnnn) does not carry into the high byte of the pointer. */
  function NextInPage(p: Word): Word {
    WordOf((p + 1) % 256, p / 256)
  }

  function JumpedIndirect(s: Cpu): Cpu {
    var p := Operand16(s);
    s.(pc := WordOf(s.ram[p], s.ram[NextInPage(p)]))
  }

  function HighValue(op: HighOp, r: Regs): Byte {
    match op
    case SHA => And(r.a, r.x)
    case SHX => r.x
    case SHY => r.y
    case SHS => And(r.a, r.x)
  }

  /** The value is masked by the high byte of the base plus one, and replaces the high byte of the
      address when the index crosses a page. */
  function HighMasked(s: Cpu, op: HighOp, mode: Mode): Byte {
    And(HighValue(op, s.r), (Base(s, mode) / 256 + 1) % 256)
  }

  function HighAddress(s: Cpu, op: HighOp, mode: Mode): Word {
    var sum := Base(s, mode) + Index(s.r, mode);
    if PageCrossed(s, mode) then WordOf(sum % 256, HighMasked(s, op, mode)) else sum
  }

  function HighStored(s: Cpu, op: HighOp, mode: Mode): Cpu {
    s.(ram := s.ram[HighAddress(s, op, mode) := HighMasked(s, op, mode)],
       r := if op == SHS then s.r.(sp := And(s.r.a, s.r.x)) else s.r)
  }

  // ------------------------------------------------------------------ one instruction

  function LoadedFrom(s: Cpu, op: LoadOp, mode: Mode): Cpu {
    s.(r := Loaded(op, s.r, Operand(s, mode)))
  }

  function StoredAt(s: Cpu, op: StoreOp, at: Word): Cpu {
    s.(ram := s.ram[at := Stored(op, s.r)])
  }

  function ModifiedAt(s: Cpu, op: ModifyOp, at: Word): Cpu {
    var (r, v) := Modified(op, s.r, s.ram[at]);
    s.(r := r, ram := s.ram[at := v])
  }

  function PulledA(s: Cpu): Cpu {
    var t := Popped(s);
    t.(r := t.r.(a := Top(s), f := WithNZ(t.r.f, Top(s))))
  }

  function PulledStatus(s: Cpu): Cpu {
    var t := Popped(s);
    t.(r := t.r.(f := FlagsOf(OfByte(Top(s)))))
  }

  function Execute(s: Cpu, insn: Insn): Cpu {
    match insn
    case Load(op, mode) => Moved(LoadedFrom(s, op, mode), Length(mode))
    case Store(op, mode) => Moved(StoredAt(s, op, Address(s, mode)), Length(mode))
    case Modify(op, mode) => Moved(ModifiedAt(s, op, Address(s, mode)), Length(mode))
    case HighStore(op, mode) => Moved(HighStored(s, op, mode), Length(mode))
    case Simple(op) => Moved(s.(r := Simply(op, s.r)), 1)
    case Branch(cond) => Branched(s, cond)
    case JMP => s.(pc := Operand16(s))
    case JMP_IND => JumpedIndirect(s)
    case JSR => Called(s)
    case RTS => Returned(s)
    case RTI => ReturnedFromInterrupt(s)
    case BRK => Entered(Moved(s, 2), true, IRQ_VECTOR)
    case PHA => Moved(Push(s, s.r.a), 1)
    case PHP => Moved(Push(s, Value(StatusBits(s.r.f, true))), 1)
    case PLA => Moved(PulledA(s), 1)
    case PLP => Moved(PulledStatus(s), 1)
    case JAM => s
  }

  function Cycles(s: Cpu, insn: Insn): nat {
    match insn
    case Load(op, mode) => LoadCycles(s, mode)
    case Store(op, mode) => StoreCycles(mode)
    case Modify(op, mode) => ModifyCycles(mode)
    case HighStore(op, mode) => StoreCycles(mode)
    case Simple(op) => 2
    case Branch(cond) => BranchCycles(s, cond)
    case JMP => 3
    case JMP_IND => 5
    case JSR => 6
    case RTS => 6
    case RTI => 6
    case BRK => INTERRUPT_CYCLES
    case PHA => 3
    case PHP => 3
    case PLA => 4
    case PLP => 4
    case JAM => 0
  }
}
