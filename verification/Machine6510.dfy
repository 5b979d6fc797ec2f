/** The registers, flags, memory and stack that both 6510 cores work on, with the macros that they
    share.  A dummy read of flat RAM changes nothing and is left out. */
module Machine6510 {
  import opened ByteBits
  import opened Bitwise
  import opened Mos6510
  import opened RegisterMacros
  import opened Decoder

  class Machine {
    var regs: Native
    var pc: nat
    var clk: nat
    const ram: array<Byte>

    ghost predicate Valid()
      reads `regs
    {
      ram.Length == 65536 && regs.Clean()
    }

    ghost function State(): Cpu
      requires Valid()
      reads `regs, `pc, ram
    {
      Cpu(regs.Abstract(), pc % 65536, ram[..])
    }

    constructor (ram: array<Byte>, regs: Native, pc: Word)
      requires ram.Length == 65536 && regs.Clean()
      ensures Valid() && State() == Cpu(regs.Abstract(), pc, ram[..]) && clk == 0
    {
      this.ram, this.regs, this.pc, this.clk := ram, regs, pc, 0;
    }

    // ---------------------------------------------------------------- memory and stack

    function Load(addr: nat): Byte
      requires ram.Length == 65536
      reads ram
    {
      ram[addr % 65536]
    }

    function LoadZero(addr: nat): Byte
      requires ram.Length == 65536
      reads ram
    {
      ram[addr % 256]
    }

    function LoadZeroAddr(addr: nat): (w: Word)
      requires ram.Length == 65536
      reads ram
      ensures w == ZeroPageWord(ram[..], addr % 256)
    {
      NextByte(addr);
      WordOf(LoadZero(addr), LoadZero(addr + 1))
    }

    method Store(addr: nat, value: nat)
      requires Valid()
      modifies ram
      ensures Valid() && State() == old(State()).(ram := old(State()).ram[addr % 65536 := value % 256])
    {
      ram[addr % 65536] := value % 256;
    }

    method LoadWrapped(addr: nat) returns (v: Byte)
      requires Valid()
      ensures v == State().ram[addr % 65536]
    {
      v := Load(addr);
    }

    method FetchByte(k: nat) returns (v: Byte)
      requires Valid()
      ensures v == Fetch(State(), k)
    {
      v := Load(pc + k);
    }

    /** A load or store at an address that needs no wrapping, and the byte at the PC. */
    method LoadAt(addr: Word) returns (v: Byte)
      requires Valid()
      ensures v == State().ram[addr]
    {
      v := Load(addr);
    }

    method StoreAt(addr: Word, value: Byte)
      requires Valid()
      modifies ram
      ensures Valid() && State() == old(State()).(ram := old(State()).ram[addr := value])
    {
      Store(addr, value);
    }

    /** Indexed operands: zero-page addresses stay in page zero, the others wrap at 16 bits. */
    method LoadZeroX(p1: Byte) returns (v: Byte)
      requires Valid() && p1 == Operand8(State())
      ensures v == Operand(State(), ZpX)
    {
      v := LoadZero(p1 + regs.x);
    }

    method LoadZeroY(p1: Byte) returns (v: Byte)
      requires Valid() && p1 == Operand8(State())
      ensures v == Operand(State(), ZpY)
    {
      v := LoadZero(p1 + regs.y);
    }

    method LoadAbsX(p2: Word) returns (v: Byte)
      requires Valid() && p2 == Operand16(State())
      ensures v == Operand(State(), AbsX)
    {
      v := LoadWrapped(p2 + regs.x);
    }

    method LoadAbsY(p2: Word) returns (v: Byte)
      requires Valid() && p2 == Operand16(State())
      ensures v == Operand(State(), AbsY)
    {
      v := LoadWrapped(p2 + regs.y);
    }

    method FetchParam() returns (v: Byte)
      requires Valid()
      ensures v == State().ram[State().pc]
    {
      v := Load(pc);
    }

    method PushByte(v: Byte)
      requires Valid()
      modifies ram, `regs
      ensures Valid() && State() == Mos6510.Push(old(State()), v)
      ensures regs == old(regs).(sp := regs.sp)
    {
      ram[0x100 + regs.sp] := v;
      regs := regs.(sp := (regs.sp - 1) % 256);
    }

    method Push(v: nat)
      requires Valid()
      modifies ram, `regs
      ensures Valid() && State() == Mos6510.Push(old(State()), v % 256)
      ensures regs == old(regs).(sp := regs.sp)
    {
      PushByte(v % 256);
    }

    method Pull() returns (v: Byte)
      requires Valid()
      modifies `regs
      ensures Valid() && v == Top(old(State())) && State() == Popped(old(State()))
      ensures regs == old(regs).(sp := regs.sp)
    {
      regs := regs.(sp := (regs.sp + 1) % 256);
      v := ram[0x100 + regs.sp];
    }

    method IncPc(value: nat)
      requires Valid()
      modifies `pc
      ensures Valid() && State() == Moved(old(State()), value)
    {
      pc := pc + value;
    }

    method Jump(addr: Word)
      requires Valid()
      modifies `pc
      ensures Valid() && State() == old(State()).(pc := addr)
    {
      pc := addr;
    }

    method PushPcHigh()
      requires Valid()
      modifies ram, `regs
      ensures Valid() && State() == Mos6510.Push(old(State()), old(State()).pc / 256)
      ensures regs == old(regs).(sp := regs.sp)
    {
      BytesOfWrapped(pc);
      PushByte(pc / 256 % 256);
    }

    method PushPcLow()
      requires Valid()
      modifies ram, `regs
      ensures Valid() && State() == Mos6510.Push(old(State()), old(State()).pc % 256)
      ensures regs == old(regs).(sp := regs.sp)
    {
      BytesOfWrapped(pc);
      PushByte(pc % 256);
    }

    method PushPc()
      requires Valid()
      modifies ram, `regs
      ensures Valid() && State() == PushWord(old(State()), old(State()).pc)
      ensures regs == old(regs).(sp := regs.sp)
    {
      PushPcHigh();
      PushPcLow();
    }

    method PullWord() returns (w: Word)
      requires Valid()
      modifies `regs
      ensures Valid() && w == PulledWord(old(State())) && State() == Popped(Popped(old(State())))
      ensures regs == old(regs).(sp := regs.sp)
    {
      var low := Pull();
      var high := Pull();
      w := WordOf(low, high);
    }

    method PullStatus()
      requires Valid()
      modifies `regs
      ensures Valid() && State() == PulledStatus(old(State()))
    {
      var s := Pull();
      StatusRoundTrip(regs, s);
      regs := regs.SetStatus(s);
    }

    method PushStatus(breakBit: bool)
      requires Valid()
      modifies ram, `regs
      ensures Valid() && regs == old(regs).(sp := regs.sp)
      ensures State() == Mos6510.Push(old(State()), Value(StatusBits(old(State()).r.f, breakBit)))
    {
      StatusIsFaithful(regs.SetBreak(breakBit));
      Push(regs.SetBreak(breakBit).Status());
    }

    method TakeVector(vector: Word)
      requires Valid() && vector < 65535
      modifies `regs, `pc
      ensures Valid()
      ensures var s := old(State());
              State() == s.(pc := WordOf(s.ram[vector], s.ram[vector + 1]), r := s.r.(f := s.r.f.(i := true)))
    {
      regs := regs.SetInterrupt(true);
      var low := LoadAt(vector);
      var high := LoadAt(vector + 1);
      Jump(WordOf(low, high));
    }

    predicate Holds(cond: Condition)
      reads `regs
    {
      match cond
      case PL => !regs.Sign()
      case MI => regs.Sign()
      case VC => !regs.p.b6
      case VS => regs.p.b6
      case CC => !regs.p.b0
      case CS => regs.p.b0
      case NE => !regs.Zero()
      case EQ => regs.Zero()
    }

    function HighReg(op: HighOp): Byte
      reads `regs
    {
      match op
      case SHA => And(regs.a, regs.x)
      case SHX => regs.x
      case SHY => regs.y
      case SHS => And(regs.a, regs.x)
    }

    function StoreValue(op: StoreOp): Byte
      reads `regs
    {
      match op
      case STA => regs.a
      case STX => regs.x
      case STY => regs.y
      case SAX => And(regs.a, regs.x)
    }

    /** The opcode and its operand bytes; the fetch table decides whether a third byte is read. */
    method FetchOpcode() returns (p0: Byte, p1: Byte, p2: Word)
      requires Valid()
      modifies `clk
      ensures p0 == Fetch(State(), 0) && p1 == Operand8(State()) && (FetchesThree(p0) ==> p2 == Operand16(State()))
      ensures clk == old(clk) + if FetchesThree(p0) then 3 else 2
    {
      p0 := FetchByte(0);
      clk := clk + 1;
      p1 := FetchByte(1);
      p2 := p1;
      clk := clk + 1;
      if FetchesThree(p0) {
        var high := FetchByte(2);
        p2 := WordOf(p1, high);
        clk := clk + 1;
      }
    }
  }
}
