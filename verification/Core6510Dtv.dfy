/** The per-cycle 6510 core of src/6510dtvcore.c: every memory access is followed by its own cycle,
    and a read-modify-write stores the old value before the new one.  SKIP_CYCLE is false and no
    cycle is stolen. */
module Core6510PerCycle {
  import opened ByteBits
  import opened Bitwise
  import opened Mos6510
  import opened RegisterMacros
  import opened Decoder
  import opened Machine6510
  import opened OpcodeTable
  import Macros = OpcodeMacros

  method ClkInc(cpu: Machine)
    modifies cpu`clk
    ensures cpu.clk == old(cpu.clk) + 1
  {
    cpu.clk := cpu.clk + 1;
  }

  // ---------------------------------------------------------------- addressing modes

  method GetAbsX(cpu: Machine, p2: Word) returns (v: Byte)
    requires cpu.Valid() && p2 == Operand16(cpu.State())
    modifies cpu`clk
    ensures v == Operand(cpu.State(), AbsX) && cpu.clk == old(cpu.clk) + LoadCycles(cpu.State(), AbsX) - 3
  {
    if p2 % 256 + cpu.regs.x > 0xff {
      ClkInc(cpu);
    }
    v := cpu.LoadAbsX(p2);
    ClkInc(cpu);
  }

  method GetZeroX(cpu: Machine, p1: Byte) returns (v: Byte)
    requires cpu.Valid() && p1 == Operand8(cpu.State())
    modifies cpu`clk
    ensures v == Operand(cpu.State(), ZpX) && cpu.clk == old(cpu.clk) + 2
  {
    ClkInc(cpu);
    v := cpu.LoadZeroX(p1);
    ClkInc(cpu);
  }

  method GetAbsY(cpu: Machine, p2: Word) returns (v: Byte)
    requires cpu.Valid() && p2 == Operand16(cpu.State())
    modifies cpu`clk
    ensures v == Operand(cpu.State(), AbsY) && cpu.clk == old(cpu.clk) + LoadCycles(cpu.State(), AbsY) - 3
  {
    if p2 % 256 + cpu.regs.y > 0xff {
      ClkInc(cpu);
    }
    v := cpu.LoadAbsY(p2);
    ClkInc(cpu);
  }

  method GetZeroY(cpu: Machine, p1: Byte) returns (v: Byte)
    requires cpu.Valid() && p1 == Operand8(cpu.State())
    modifies cpu`clk
    ensures v == Operand(cpu.State(), ZpY) && cpu.clk == old(cpu.clk) + 2
  {
    ClkInc(cpu);
    v := cpu.LoadZeroY(p1);
    ClkInc(cpu);
  }

  method IntIndX(cpu: Machine, p1: Byte) returns (addr: Word)
    requires cpu.Valid() && p1 == Operand8(cpu.State())
    modifies cpu`clk
    ensures addr == Base(cpu.State(), IndX) && cpu.clk == old(cpu.clk) + 3
  {
    ClkInc(cpu);
    var tmpa := (p1 + cpu.regs.x) % 256;
    var low := cpu.LoadAt(tmpa);
    ClkInc(cpu);
    tmpa := (tmpa + 1) % 256;
    var high := cpu.LoadAt(tmpa);
    addr := WordOf(low, high);
    ClkInc(cpu);
  }

  /** The pointer of ($nn),Y, before Y is added. */
  method IntIndY(cpu: Machine, p1: Byte) returns (tmpa: Word)
    requires cpu.Valid() && p1 == Operand8(cpu.State())
    modifies cpu`clk
    ensures tmpa == Base(cpu.State(), IndY) && cpu.clk == old(cpu.clk) + 2
  {
    var low := cpu.LoadAt(p1);
    ClkInc(cpu);
    var high := cpu.LoadAt((p1 + 1) % 256);
    tmpa := WordOf(low, high);
    ClkInc(cpu);
  }

  method GetIndY(cpu: Machine, p1: Byte) returns (v: Byte)
    requires cpu.Valid() && p1 == Operand8(cpu.State())
    modifies cpu`clk
    ensures v == Operand(cpu.State(), IndY) && cpu.clk == old(cpu.clk) + LoadCycles(cpu.State(), IndY) - 2
  {
    var tmpa := IntIndY(cpu, p1);
    if tmpa % 256 + cpu.regs.y > 0xff {
      ClkInc(cpu);
    }
    v := cpu.LoadAt((tmpa + cpu.regs.y) % 65536);
    ClkInc(cpu);
  }

  method IntIndYW(cpu: Machine, p1: Byte) returns (addr: Word)
    requires cpu.Valid() && p1 == Operand8(cpu.State())
    modifies cpu`clk
    ensures addr == Address(cpu.State(), IndY) && cpu.clk == old(cpu.clk) + 3
  {
    var tmpa := IntIndY(cpu, p1);
    ClkInc(cpu);
    addr := (tmpa + cpu.regs.y) % 65536;
  }

  method GetAt(cpu: Machine, addr: Word) returns (v: Byte)
    requires cpu.Valid()
    modifies cpu`clk
    ensures v == cpu.State().ram[addr] && cpu.clk == old(cpu.clk) + 1
  {
    v := cpu.LoadAt(addr);
    ClkInc(cpu);
  }

  /** GET_ZERO, GET_ABS and GET_IND_X. */
  method GetPlain(cpu: Machine, mode: Mode, p1: Byte, p2: Word) returns (v: Byte)
    requires cpu.Valid() && p1 == Operand8(cpu.State()) && (WideMode(mode) ==> p2 == Operand16(cpu.State()))
    requires mode == Zp || mode == Abs || mode == IndX
    modifies cpu`clk
    ensures v == Operand(cpu.State(), mode)
    ensures cpu.clk == old(cpu.clk) + LoadCycles(cpu.State(), mode) - if WideMode(mode) then 3 else 2
  {
    var addr: Word;
    Unindexed(cpu.State(), mode);
    match mode {
      case Zp => addr := p1;
      case Abs => addr := p2;
      case IndX => addr := IntIndX(cpu, p1);
    }
    v := GetAt(cpu, addr);
  }

  /** GET_IMM, GET_ZERO, ... GET_IND_Y. */
  method Get(cpu: Machine, mode: Mode, p1: Byte, p2: Word) returns (v: Byte)
    requires cpu.Valid() && p1 == Operand8(cpu.State()) && (WideMode(mode) ==> p2 == Operand16(cpu.State()))
    modifies cpu`clk
    ensures v == Operand(cpu.State(), mode)
    ensures cpu.clk == old(cpu.clk) + LoadCycles(cpu.State(), mode) - if WideMode(mode) then 3 else 2
  {
    match mode {
      case Imm => v := p1;
      case ZpX => v := GetZeroX(cpu, p1);
      case ZpY => v := GetZeroY(cpu, p1);
      case AbsX => v := GetAbsX(cpu, p2);
      case AbsY => v := GetAbsY(cpu, p2);
      case IndY => v := GetIndY(cpu, p1);
      case _ => v := GetPlain(cpu, mode, p1, p2);
    }
  }

  method SetAt(cpu: Machine, addr: Word, value: nat)
    requires cpu.Valid()
    modifies cpu.ram, cpu`clk
    ensures cpu.Valid() && cpu.clk == old(cpu.clk) + 1
    ensures var s := old(cpu.State()); cpu.State() == s.(ram := s.ram[addr := value % 256])
  {
    cpu.StoreAt(addr, value % 256);
    ClkInc(cpu);
  }

  /** The effective address of a store or a read-modify-write, with the cycles before the access. */
  method Aim(cpu: Machine, mode: Mode, p1: Byte, p2: Word) returns (addr: Word)
    requires cpu.Valid() && p1 == Operand8(cpu.State()) && (WideMode(mode) ==> p2 == Operand16(cpu.State()))
    requires mode != Imm
    modifies cpu`clk
    ensures addr == Address(cpu.State(), mode)
    ensures cpu.clk == old(cpu.clk) + StoreCycles(mode) - if WideMode(mode) then 4 else 3
  {
    match mode {
      case Zp => addr := p1; Unindexed(cpu.State(), mode);
      case ZpX => ClkInc(cpu); addr := (p1 + cpu.regs.x) % 256;
      case ZpY => ClkInc(cpu); addr := (p1 + cpu.regs.y) % 256;
      case Abs => addr := p2; Unindexed(cpu.State(), mode);
      case AbsX => ClkInc(cpu); addr := (p2 + cpu.regs.x) % 65536;
      case AbsY => ClkInc(cpu); addr := (p2 + cpu.regs.y) % 65536;
      case IndX => addr := IntIndX(cpu, p1); Unindexed(cpu.State(), mode);
      case IndY => addr := IntIndYW(cpu, p1);
    }
  }

  // ---------------------------------------------------------------- operation macros

  method Alu(cpu: Machine, op: LoadOp, mode: Mode, p1: Byte, p2: Word)
    requires cpu.Valid() && p1 == Operand8(cpu.State()) && (WideMode(mode) ==> p2 == Operand16(cpu.State()))
    modifies cpu`regs, cpu`pc, cpu`clk
    ensures cpu.Valid() && cpu.State() == Moved(LoadedFrom(old(cpu.State()), op, mode), Length(mode))
    ensures cpu.clk == old(cpu.clk) + LoadCycles(old(cpu.State()), mode) - if WideMode(mode) then 3 else 2
  {
    var value := Get(cpu, mode, p1, p2);
    cpu.regs := Macros.Alu(op, cpu.regs, value);
    cpu.IncPc(Length(mode));
  }

  /** The PC is moved before the store, whose value and address are known by then. */
  method StoreBehind(cpu: Machine, op: StoreOp, addr: Word, length: nat)
    requires cpu.Valid()
    modifies cpu.ram, cpu`pc, cpu`clk
    ensures cpu.Valid() && cpu.State() == Moved(StoredAt(old(cpu.State()), op, addr), length)
    ensures cpu.clk == old(cpu.clk) + 1
  {
    cpu.IncPc(length);
    SetAt(cpu, addr, cpu.StoreValue(op));
  }

  method St(cpu: Machine, op: StoreOp, mode: Mode, p1: Byte, p2: Word)
    requires cpu.Valid() && p1 == Operand8(cpu.State()) && (WideMode(mode) ==> p2 == Operand16(cpu.State()))
    requires mode != Imm
    modifies cpu.ram, cpu`pc, cpu`clk
    ensures cpu.Valid()
    ensures cpu.State() == Moved(StoredAt(old(cpu.State()), op, Address(old(cpu.State()), mode)), Length(mode))
    ensures cpu.clk == old(cpu.clk) + StoreCycles(mode) - if WideMode(mode) then 3 else 2
  {
    var addr := Aim(cpu, mode, p1, p2);
    StoreBehind(cpu, op, addr, Length(mode));
  }

  /** SET_*_RMW: the dummy write of the old value, then the new one. */
  method SetRmw(cpu: Machine, addr: Word, oldValue: Byte, newValue: nat)
    requires cpu.Valid()
    modifies cpu.ram, cpu`clk
    ensures cpu.Valid() && cpu.clk == old(cpu.clk) + 2
    ensures var s := old(cpu.State()); cpu.State() == s.(ram := s.ram[addr := newValue % 256])
  {
    SetAt(cpu, addr, oldValue);
    SetAt(cpu, addr, newValue);
  }

  method Rmw(cpu: Machine, op: ModifyOp, mode: Mode, p1: Byte, p2: Word)
    requires cpu.Valid() && p1 == Operand8(cpu.State()) && (WideMode(mode) ==> p2 == Operand16(cpu.State()))
    requires mode != Imm && mode != ZpY
    modifies cpu.ram, cpu`regs, cpu`pc, cpu`clk
    ensures cpu.Valid()
    ensures cpu.State() == Moved(ModifiedAt(old(cpu.State()), op, Address(old(cpu.State()), mode)), Length(mode))
    ensures cpu.clk == old(cpu.clk) + ModifyCycles(mode) - if WideMode(mode) then 3 else 2
  {
    ghost var s, at := cpu.State(), Address(cpu.State(), mode);
    var addr := Aim(cpu, mode, p1, p2);
    var oldValue := GetAt(cpu, addr);
    var t, newValue := ReadModify(op, cpu.regs, oldValue);
    cpu.regs := t;
    cpu.IncPc(Length(mode));
    SetRmw(cpu, addr, oldValue, newValue);
    assert cpu.State() == Moved(ModifiedAt(s, op, at), Length(mode));
  }

  method SetAbsShI(cpu: Machine, addr: Word, regAnd: Byte, reg: Byte)
    requires cpu.Valid()
    modifies cpu.ram, cpu`clk
    ensures cpu.Valid() && cpu.clk == old(cpu.clk) + 1
    ensures var value := And(regAnd, (addr / 256 + 1) % 256);
            var at := if addr % 256 + reg > 255 then WordOf((addr + reg) % 256, value) else addr + reg;
            cpu.State() == old(cpu.State()).(ram := old(cpu.State()).ram[at := value])
  {
    var tmp3 := And(regAnd, (addr / 256 + 1) % 256);
    var tmp2 := addr + reg;
    if addr % 256 + reg > 0xff {
      tmp2 := WordOf(tmp2 % 256, tmp3);
    }
    cpu.StoreAt(tmp2, tmp3);
    ClkInc(cpu);
  }

  method ShAbsI(cpu: Machine, op: HighOp, mode: Mode, p2: Word)
    requires cpu.Valid() && p2 == Operand16(cpu.State()) && (mode == AbsX || mode == AbsY)
    modifies cpu.ram, cpu`regs, cpu`pc, cpu`clk
    ensures cpu.Valid() && cpu.State() == Moved(HighStored(old(cpu.State()), op, mode), 3)
    ensures cpu.clk == old(cpu.clk) + 2
  {
    ghost var at, masked := HighAddress(cpu.State(), op, mode), HighMasked(cpu.State(), op, mode);
    ClkInc(cpu);
    SetAbsShI(cpu, p2, cpu.HighReg(op), if mode == AbsX then cpu.regs.x else cpu.regs.y);
    assert cpu.State() == old(cpu.State()).(ram := old(cpu.State()).ram[at := masked]);
    cpu.IncPc(3);
    if op == SHS {
      cpu.regs := cpu.regs.(sp := And(cpu.regs.a, cpu.regs.x));
    }
  }

  method ShaIndY(cpu: Machine, p1: Byte)
    requires cpu.Valid() && p1 == Operand8(cpu.State())
    modifies cpu.ram, cpu`pc, cpu`clk
    ensures cpu.Valid() && cpu.State() == Moved(HighStored(old(cpu.State()), SHA, IndY), 2)
    ensures cpu.clk == old(cpu.clk) + 4
  {
    ghost var at, masked := HighAddress(cpu.State(), SHA, IndY), HighMasked(cpu.State(), SHA, IndY);
    var tmpa := IntIndY(cpu, p1);
    ClkInc(cpu);
    SetAbsShI(cpu, tmpa, And(cpu.regs.a, cpu.regs.x), cpu.regs.y);
    assert cpu.State() == old(cpu.State()).(ram := old(cpu.State()).ram[at := masked]);
    cpu.IncPc(2);
  }

  // ---------------------------------------------------------------- control flow and stack

  method BranchOn(cpu: Machine, cond: Condition, p1: Byte)
    requires cpu.Valid() && p1 == Operand8(cpu.State())
    modifies cpu`pc, cpu`clk
    ensures cpu.Valid() && cpu.State() == Branched(old(cpu.State()), cond)
    ensures cpu.clk == old(cpu.clk) + BranchCycles(old(cpu.State()), cond) - 2
  {
    cpu.IncPc(2);
    if cpu.Holds(cond) {
      var destAddr, crosses := Macros.BranchDest(cpu.pc, Signed(p1));
      ClkInc(cpu);
      if crosses {
        ClkInc(cpu);
      }
      cpu.Jump(destAddr);
    }
  }

  method JmpInd(cpu: Machine, p2: Word)
    requires cpu.Valid() && p2 == Operand16(cpu.State())
    modifies cpu`pc, cpu`clk
    ensures cpu.Valid() && cpu.State() == JumpedIndirect(old(cpu.State())) && cpu.clk == old(cpu.clk) + 2
  {
    var low := GetAt(cpu, p2);
    var high := GetAt(cpu, NextInPage(p2));
    cpu.Jump(WordOf(low, high));
  }

  method PushCycle(cpu: Machine, v: nat)
    requires cpu.Valid()
    modifies cpu.ram, cpu`regs, cpu`clk
    ensures cpu.Valid() && cpu.State() == Push(old(cpu.State()), v % 256) && cpu.clk == old(cpu.clk) + 1
    ensures cpu.regs == old(cpu.regs).(sp := cpu.regs.sp)
  {
    cpu.Push(v);
    ClkInc(cpu);
  }

  method PullCycle(cpu: Machine) returns (v: Byte)
    requires cpu.Valid()
    modifies cpu`regs, cpu`clk
    ensures cpu.Valid() && v == Top(old(cpu.State())) && cpu.State() == Popped(old(cpu.State()))
    ensures cpu.clk == old(cpu.clk) + 1 && cpu.regs == old(cpu.regs).(sp := cpu.regs.sp)
  {
    v := cpu.Pull();
    ClkInc(cpu);
  }

  method PushPcCycles(cpu: Machine)
    requires cpu.Valid()
    modifies cpu.ram, cpu`regs, cpu`clk
    ensures cpu.Valid() && cpu.State() == PushWord(old(cpu.State()), old(cpu.State()).pc)
    ensures cpu.clk == old(cpu.clk) + 2 && cpu.regs == old(cpu.regs).(sp := cpu.regs.sp)
  {
    cpu.PushPcHigh();
    ClkInc(cpu);
    cpu.PushPcLow();
    ClkInc(cpu);
  }

  method PullWordCycles(cpu: Machine) returns (w: Word)
    requires cpu.Valid()
    modifies cpu`regs, cpu`clk
    ensures cpu.Valid() && w == PulledWord(old(cpu.State())) && cpu.State() == Popped(Popped(old(cpu.State())))
    ensures cpu.clk == old(cpu.clk) + 2
  {
    var low := PullCycle(cpu);
    var high := PullCycle(cpu);
    w := WordOf(low, high);
  }

  method PullStatusCycle(cpu: Machine)
    requires cpu.Valid()
    modifies cpu`regs, cpu`clk
    ensures cpu.Valid() && cpu.State() == PulledStatus(old(cpu.State())) && cpu.clk == old(cpu.clk) + 1
  {
    cpu.PullStatus();
    ClkInc(cpu);
  }

  method Jsr(cpu: Machine, p1: Byte)
    requires cpu.Valid() && p1 == Operand8(cpu.State())
    modifies cpu.ram, cpu`regs, cpu`pc, cpu`clk
    ensures cpu.Valid() && cpu.State() == Called(old(cpu.State())) && cpu.clk == old(cpu.clk) + 4
  {
    ClkInc(cpu);
    cpu.IncPc(2);
    PushPcCycles(cpu);
    var addrMsb := cpu.FetchParam();
    ClkInc(cpu);
    cpu.Jump(WordOf(p1, addrMsb));
  }

  method Rts(cpu: Machine)
    requires cpu.Valid()
    modifies cpu`regs, cpu`pc, cpu`clk
    ensures cpu.Valid() && cpu.State() == Returned(old(cpu.State())) && cpu.clk == old(cpu.clk) + 4
  {
    ClkInc(cpu);
    var tmp := PullWordCycles(cpu);
    ClkInc(cpu);
    cpu.Jump((tmp as int + 1) % 65536);
  }

  method Rti(cpu: Machine)
    requires cpu.Valid()
    modifies cpu`regs, cpu`pc, cpu`clk
    ensures cpu.Valid() && cpu.State() == ReturnedFromInterrupt(old(cpu.State())) && cpu.clk == old(cpu.clk) + 4
  {
    ClkInc(cpu);
    PullStatusCycle(cpu);
    var tmp := PullWordCycles(cpu);
    cpu.Jump(tmp);
  }

  /** DO_IRQBRK, with the vector it ends up using. */
  method IrqBrk(cpu: Machine, handlerVector: Word)
    requires cpu.Valid() && handlerVector < 65535
    modifies cpu.ram, cpu`regs, cpu`pc, cpu`clk
    ensures cpu.Valid() && cpu.State() == Entered(old(cpu.State()), old(cpu.regs.p.b4), handlerVector)
    ensures cpu.clk == old(cpu.clk) + 5
  {
    PushPcCycles(cpu);
    cpu.PushStatus(cpu.regs.p.b4);
    ClkInc(cpu);
    cpu.TakeVector(handlerVector);
    ClkInc(cpu);
    ClkInc(cpu);
  }

  method EnterAt(cpu: Machine, breakBit: bool, vector: Word)
    requires cpu.Valid() && vector < 65535
    modifies cpu.ram, cpu`regs, cpu`pc, cpu`clk
    ensures cpu.Valid() && cpu.State() == Entered(old(cpu.State()), breakBit, vector)
    ensures cpu.clk == old(cpu.clk) + 5
  {
    cpu.regs := cpu.regs.SetBreak(breakBit);
    IrqBrk(cpu, vector);
  }

  method Brk(cpu: Machine)
    requires cpu.Valid()
    modifies cpu.ram, cpu`regs, cpu`pc, cpu`clk
    ensures cpu.Valid() && cpu.State() == Entered(Moved(old(cpu.State()), 2), true, IRQ_VECTOR)
    ensures cpu.clk == old(cpu.clk) + 5
  {
    cpu.IncPc(2);
    EnterAt(cpu, true, IRQ_VECTOR);
  }

  /** DO_INTERRUPT once the interrupt is taken, from the two dummy loads on. */
  method Interrupt(cpu: Machine, nmi: bool)
    requires cpu.Valid()
    modifies cpu.ram, cpu`regs, cpu`pc, cpu`clk
    ensures cpu.Valid() && cpu.State() == Interrupted(old(cpu.State()), if nmi then NMI_VECTOR else IRQ_VECTOR)
    ensures cpu.clk == old(cpu.clk) + INTERRUPT_CYCLES
  {
    ClkInc(cpu);
    ClkInc(cpu);
    EnterAt(cpu, false, if nmi then NMI_VECTOR else IRQ_VECTOR);
  }

  method Pha(cpu: Machine)
    requires cpu.Valid()
    modifies cpu.ram, cpu`regs, cpu`pc, cpu`clk
    ensures cpu.Valid() && cpu.State() == Moved(Push(old(cpu.State()), old(cpu.State()).r.a), 1)
    ensures cpu.clk == old(cpu.clk) + 1
  {
    PushCycle(cpu, cpu.regs.a);
    cpu.IncPc(1);
  }

  method Php(cpu: Machine)
    requires cpu.Valid()
    modifies cpu.ram, cpu`regs, cpu`pc, cpu`clk
    ensures var s := old(cpu.State());
            cpu.Valid() && cpu.State() == Moved(Push(s, Value(StatusBits(s.r.f, true))), 1)
    ensures cpu.clk == old(cpu.clk) + 1
  {
    cpu.PushStatus(true);
    ClkInc(cpu);
    cpu.IncPc(1);
  }

  method Pla(cpu: Machine)
    requires cpu.Valid()
    modifies cpu`regs, cpu`pc, cpu`clk
    ensures cpu.Valid() && cpu.State() == Moved(PulledA(old(cpu.State())), 1) && cpu.clk == old(cpu.clk) + 2
  {
    ClkInc(cpu);
    var a := PullCycle(cpu);
    cpu.regs := cpu.regs.(a := a).SetNZ(a);
    cpu.IncPc(1);
  }

  method Plp(cpu: Machine)
    requires cpu.Valid()
    modifies cpu`regs, cpu`pc, cpu`clk
    ensures cpu.Valid() && cpu.State() == Moved(PulledStatus(old(cpu.State())), 1) && cpu.clk == old(cpu.clk) + 2
  {
    ClkInc(cpu);
    PullStatusCycle(cpu);
    cpu.IncPc(1);
  }

  // ---------------------------------------------------------------- the opcode switch

  method SwitchStack(cpu: Machine, insn: Insn, p1: Byte)
    requires cpu.Valid() && p1 == Operand8(cpu.State())
    requires insn in {JSR, RTS, RTI, BRK, PHA, PHP, PLA, PLP}
    modifies cpu.ram, cpu`regs, cpu`pc, cpu`clk
    ensures cpu.Valid() && cpu.State() == Execute(old(cpu.State()), insn)
    ensures cpu.clk == old(cpu.clk) + Cycles(old(cpu.State()), insn) - FetchCycles(insn)
  {
    match insn {
      case JSR => Jsr(cpu, p1);
      case RTS => Rts(cpu);
      case RTI => Rti(cpu);
      case BRK => Brk(cpu);
      case PHA => Pha(cpu);
      case PHP => Php(cpu);
      case PLA => Pla(cpu);
      case PLP => Plp(cpu);
    }
  }

  /** JAM takes back its two fetch cycles and stays where it is. */
  method SwitchFlow(cpu: Machine, insn: Insn, p1: Byte, p2: Word)
    requires cpu.Valid() && p1 == Operand8(cpu.State()) && (Wide(insn) ==> p2 == Operand16(cpu.State()))
    requires Occurs(insn) && !insn.Load? && !insn.Store? && !insn.Modify? && cpu.clk >= 2
    modifies cpu.ram, cpu`regs, cpu`pc, cpu`clk
    ensures cpu.Valid() && cpu.State() == Execute(old(cpu.State()), insn)
    ensures cpu.clk == old(cpu.clk) + Cycles(old(cpu.State()), insn) - FetchCycles(insn)
  {
    if insn in {JSR, RTS, RTI, BRK, PHA, PHP, PLA, PLP} {
      SwitchStack(cpu, insn, p1);
    } else {
      match insn {
        case HighStore(op, mode) =>
          if mode == IndY {
            ShaIndY(cpu, p1);
          } else {
            ShAbsI(cpu, op, mode, p2);
          }
        case Simple(op) => cpu.regs := Macros.Implied(op, cpu.regs); cpu.IncPc(1);
        case Branch(cond) => BranchOn(cpu, cond, p1);
        case JMP => cpu.Jump(p2);
        case JMP_IND => JmpInd(cpu, p2);
        case JAM => cpu.clk := cpu.clk - 2;
      }
    }
  }

  method Switch(cpu: Machine, insn: Insn, p1: Byte, p2: Word)
    requires cpu.Valid() && p1 == Operand8(cpu.State()) && (Wide(insn) ==> p2 == Operand16(cpu.State()))
    requires Occurs(insn) && cpu.clk >= 2
    modifies cpu.ram, cpu`regs, cpu`pc, cpu`clk
    ensures cpu.Valid() && cpu.State() == Execute(old(cpu.State()), insn)
    ensures cpu.clk == old(cpu.clk) + Cycles(old(cpu.State()), insn) - FetchCycles(insn)
  {
    match insn {
      case Load(op, mode) => Alu(cpu, op, mode, p1, p2);
      case Store(op, mode) => St(cpu, op, mode, p1, p2);
      case Modify(op, mode) => Rmw(cpu, op, mode, p1, p2);
      case _ => SwitchFlow(cpu, insn, p1, p2);
    }
  }

  method Step(cpu: Machine) returns (insn: Insn)
    requires cpu.Valid()
    modifies cpu.ram, cpu`regs, cpu`pc, cpu`clk
    ensures cpu.Valid() && insn == Decode(Fetch(old(cpu.State()), 0))
    ensures cpu.State() == Execute(old(cpu.State()), insn)
    ensures cpu.clk == old(cpu.clk) + Cycles(old(cpu.State()), insn)
  {
    var p0, p1, p2 := cpu.FetchOpcode();
    FetchTableExact(p0);
    ListedIsDecoded(p0);
    insn := Listed(p0);
    Switch(cpu, insn, p1, p2);
  }

  method TickOnce(cpu: Machine, t: Tick)
    requires cpu.Valid()
    modifies cpu.ram, cpu`regs, cpu`pc, cpu`clk
    ensures cpu.Valid() && cpu.State() == Ticked(old(cpu.State()), t)
    ensures cpu.clk == old(cpu.clk) + TickCycles(old(cpu.State()), t)
  {
    match t {
      case Instruction => var _ := Step(cpu);
      case Irq => Interrupt(cpu, false);
      case Nmi => Interrupt(cpu, true);
    }
  }

  // ---------------------------------------------------------------- read-modify-write

  /** The middle of the read-modify-write macros; the store cuts the value to a byte. */
  method ReadModify(op: ModifyOp, r: Native, oldValue: Byte) returns (t: Native, newValue: nat)
    requires r.Clean()
    ensures t.Clean() && (t.Abstract(), newValue % 256) == Modified(op, r.Abstract(), oldValue)
  {
    match op {
      case SLO => t, newValue := ShiftAndOr(r, oldValue);
      case RRA => t, newValue := RotateAndAdd(r, oldValue);
      case _ => t, newValue := Macros.ReadModify(op, r, oldValue);
    }
  }

  /** The shifted value keeps its ninth bit until it is stored or put in A. */
  method ShiftAndOr(r: Native, oldValue: Byte) returns (t: Native, newValue: nat)
    requires r.Clean()
    ensures t.Clean() && (t.Abstract(), newValue % 256) == Modified(SLO, r.Abstract(), oldValue)
  {
    t := r.SetCarry(oldValue >= 0x80);
    newValue := 2 * oldValue;
    t := t.(a := Or(t.a, newValue % 256));
    t := t.SetNZ(t.a);
  }

  /** The carry enters as a ninth bit before the shift. */
  method RotateAndAdd(r: Native, oldValue: Byte) returns (t: Native, newValue: Byte)
    requires r.Clean()
    ensures t.Clean() && (t.Abstract(), newValue % 256) == Modified(RRA, r.Abstract(), oldValue)
  {
    hide Modified, Mos6510.Adc;
    var out: bool;
    out, newValue := RightThroughCarry(oldValue, r.p.b0);
    Macros.RraIsAdc(r.Abstract(), oldValue);
    Macros.AdcSetsNZ(r.SetCarry(out).Abstract(), newValue, newValue);
    t := r.SetCarry(out);
    t := t.SetNZ(newValue);
    t := Macros.Adc(t, newValue);
  }

  method RightThroughCarry(oldValue: Byte, carry: bool) returns (out: bool, newValue: Byte)
    ensures out == (oldValue % 2 == 1) && newValue == oldValue / 2 + if carry then 128 else 0
  {
    var value: nat := oldValue;
    if carry {
      value := value + 0x100;
    }
    out, newValue := value % 2 == 1, value / 2;
  }
}
