/** The batched 6510 core of src/6510core.c: cycles are added in lumps, and a read-modify-write
    stores once.  RAM is flat, and a dummy read of RAM, which changes nothing, is left out. */
module Core6510Batched {
  import opened ByteBits
  import opened Bitwise
  import opened Mos6510
  import opened RegisterMacros
  import opened Decoder
  import opened Machine6510
  import opened OpcodeTable
  import Macros = OpcodeMacros

  /** What loads an operand; P1 is the immediate byte itself. */
  datatype Source =
    | P1 | LOAD_P2 | LOAD_ZERO | LOAD_ZERO_X | LOAD_ZERO_Y | LOAD_ABS_X | LOAD_ABS_Y
    | LOAD_IND_X | LOAD_IND_Y | LOAD_IND_Y_BANK

  datatype LoadFunc = LOAD_ABS | LOAD_ZERO_PAGE | LOAD_ABS_X_RMW | LOAD_ABS_Y_RMW

  datatype StoreFunc = STORE_ABS | STORE_ABS_X | STORE_ABS_Y | STORE_ABS_X_RMW | STORE_ABS_Y_RMW

  const CLK_RTS := 3
  const CLK_RTI := 4
  const CLK_BRK := 5
  const CLK_ABS_I_STORE2 := 2
  const CLK_STACK_PUSH := 1
  const CLK_STACK_PULL := 2
  const CLK_ABS_RMW2 := 3
  const CLK_ABS_I_RMW2 := 3
  const CLK_ZERO_I_STORE := 2
  const CLK_ZERO_I2 := 2
  const CLK_ZERO_RMW := 3
  const CLK_ZERO_I_RMW := 4
  const CLK_IND_X_RMW := 3
  const CLK_IND_Y_RMW1 := 1
  const CLK_IND_Y_RMW2 := 3
  const CLK_BRANCH2 := 1
  const CLK_INT_CYCLE := 1
  const CLK_JSR_INT_CYCLE := 1
  const CLK_IND_Y_W := 2
  const CLK_NOOP_ZERO_X := 2

  function SourceMode(from: Source): Mode {
    match from
    case P1 => Imm
    case LOAD_P2 => Abs
    case LOAD_ZERO => Zp
    case LOAD_ZERO_X => ZpX
    case LOAD_ZERO_Y => ZpY
    case LOAD_ABS_X => AbsX
    case LOAD_ABS_Y => AbsY
    case LOAD_IND_X => IndX
    case LOAD_IND_Y => IndY
    case LOAD_IND_Y_BANK => IndY
  }

  /** The cycles that an operand load adds itself. */
  function SourceCycles(s: Cpu, mode: Mode): nat {
    match mode
    case AbsX => if PageCrossed(s, AbsX) then 1 else 0
    case AbsY => if PageCrossed(s, AbsY) then 1 else 0
    case IndX => 3
    case IndY => if PageCrossed(s, IndY) then 3 else 2
    case _ => 0
  }

  function LoadFuncCycles(load: LoadFunc): nat {
    if load == LOAD_ABS_X_RMW || load == LOAD_ABS_Y_RMW then CLK_INT_CYCLE else 0
  }

  function StoreIndex(r: Regs, store: StoreFunc): Byte {
    match store
    case STORE_ABS => 0
    case STORE_ABS_X => r.x
    case STORE_ABS_X_RMW => r.x
    case STORE_ABS_Y => r.y
    case STORE_ABS_Y_RMW => r.y
  }

  function LoadIndex(r: Regs, load: LoadFunc): Byte {
    match load
    case LOAD_ABS => 0
    case LOAD_ZERO_PAGE => 0
    case LOAD_ABS_X_RMW => r.x
    case LOAD_ABS_Y_RMW => r.y
  }

  // ---------------------------------------------------------------- operands

  method LoadAbs(cpu: Machine, p2: Word) returns (v: Byte)
    requires cpu.Valid() && p2 == Operand16(cpu.State())
    ensures v == Operand(cpu.State(), Abs)
  {
    v := cpu.LoadAt(p2);
  }

  method LoadAbsX(cpu: Machine, p2: Word) returns (v: Byte)
    requires cpu.Valid() && p2 == Operand16(cpu.State())
    modifies cpu`clk
    ensures v == Operand(cpu.State(), AbsX) && cpu.clk == old(cpu.clk) + SourceCycles(cpu.State(), AbsX)
  {
    if p2 % 256 + cpu.regs.x > 0xff {
      cpu.clk := cpu.clk + CLK_INT_CYCLE;
    }
    v := cpu.LoadAbsX(p2);
  }

  method LoadAbsY(cpu: Machine, p2: Word) returns (v: Byte)
    requires cpu.Valid() && p2 == Operand16(cpu.State())
    modifies cpu`clk
    ensures v == Operand(cpu.State(), AbsY) && cpu.clk == old(cpu.clk) + SourceCycles(cpu.State(), AbsY)
  {
    if p2 % 256 + cpu.regs.y > 0xff {
      cpu.clk := cpu.clk + CLK_INT_CYCLE;
    }
    v := cpu.LoadAbsY(p2);
  }

  method LoadIndY(cpu: Machine, p1: Byte) returns (v: Byte)
    requires cpu.Valid() && p1 == Operand8(cpu.State())
    modifies cpu`clk
    ensures v == Operand(cpu.State(), IndY)
    ensures cpu.clk == old(cpu.clk) + SourceCycles(cpu.State(), IndY)
  {
    cpu.clk := cpu.clk + 2;
    assert Base(cpu.State(), IndY) == cpu.LoadZeroAddr(p1);
    if cpu.LoadZeroAddr(p1) % 256 + cpu.regs.y > 0xff {
      cpu.clk := cpu.clk + CLK_INT_CYCLE;
    }
    v := cpu.Load(cpu.LoadZeroAddr(p1) + cpu.regs.y);
  }

  method LoadIndX(cpu: Machine, p1: Byte) returns (v: Byte)
    requires cpu.Valid() && p1 == Operand8(cpu.State())
    modifies cpu`clk
    ensures v == Operand(cpu.State(), IndX)
    ensures cpu.clk == old(cpu.clk) + SourceCycles(cpu.State(), IndX)
  {
    cpu.clk := cpu.clk + 3;
    assert Base(cpu.State(), IndX) == cpu.LoadZeroAddr(p1 + cpu.regs.x);
    v := cpu.Load(cpu.LoadZeroAddr(p1 + cpu.regs.x));
  }

  method LoadSource(cpu: Machine, from: Source, p1: Byte, p2: Word) returns (v: Byte)
    requires cpu.Valid() && p1 == Operand8(cpu.State()) && (WideMode(SourceMode(from)) ==> p2 == Operand16(cpu.State()))
    modifies cpu`clk
    ensures v == Operand(cpu.State(), SourceMode(from))
    ensures cpu.clk == old(cpu.clk) + SourceCycles(cpu.State(), SourceMode(from))
  {
    match from {
      case P1 => v := p1;
      case LOAD_P2 => v := LoadAbs(cpu, p2);
      case LOAD_ZERO => v := cpu.LoadZero(p1);
      case LOAD_ZERO_X => v := cpu.LoadZeroX(p1);
      case LOAD_ZERO_Y => v := cpu.LoadZeroY(p1);
      case LOAD_ABS_X => v := LoadAbsX(cpu, p2);
      case LOAD_ABS_Y => v := LoadAbsY(cpu, p2);
      case LOAD_IND_X => v := LoadIndX(cpu, p1);
      case LOAD_IND_Y => v := LoadIndY(cpu, p1);
      case LOAD_IND_Y_BANK => v := LoadIndY(cpu, p1);
    }
  }

  // ---------------------------------------------------------------- operations on a loaded value

  method Alu(cpu: Machine, op: LoadOp, from: Source, p1: Byte, p2: Word, clkInc: nat, pcInc: nat)
    requires cpu.Valid() && p1 == Operand8(cpu.State()) && (WideMode(SourceMode(from)) ==> p2 == Operand16(cpu.State()))
    modifies cpu`regs, cpu`pc, cpu`clk
    ensures cpu.Valid() && cpu.State() == Moved(LoadedFrom(old(cpu.State()), op, SourceMode(from)), pcInc)
    ensures cpu.clk == old(cpu.clk) + SourceCycles(old(cpu.State()), SourceMode(from)) + clkInc
  {
    var value := LoadSource(cpu, from, p1, p2);
    cpu.regs := Macros.Alu(op, cpu.regs, value);
    cpu.clk := cpu.clk + clkInc;
    cpu.IncPc(pcInc);
  }

  method Noop(cpu: Machine, clkInc: nat, pcInc: nat)
    requires cpu.Valid()
    modifies cpu`pc, cpu`clk
    ensures cpu.Valid() && cpu.State() == Moved(old(cpu.State()), pcInc) && cpu.clk == old(cpu.clk) + clkInc
  {
    cpu.clk := cpu.clk + clkInc;
    cpu.IncPc(pcInc);
  }

  // ---------------------------------------------------------------- stores

  /** The STORE_ABS macros; `at` is where the address and its index lead. */
  method StoreVia(cpu: Machine, store: StoreFunc, addr: nat, value: nat, inc: nat, ghost at: Word)
    requires cpu.Valid() && (store == STORE_ABS_X || store == STORE_ABS_Y ==> inc >= 2)
    requires (addr + StoreIndex(cpu.State().r, store)) % 65536 == at
    modifies cpu.ram, cpu`clk
    ensures cpu.Valid() && cpu.clk == old(cpu.clk) + inc
    ensures cpu.State() == old(cpu.State()).(ram := old(cpu.State()).ram[at := value % 256])
  {
    match store {
      case STORE_ABS => cpu.clk := cpu.clk + inc; cpu.Store(addr, value);
      case STORE_ABS_X => cpu.clk := cpu.clk + (inc - 2); cpu.clk := cpu.clk + 2; cpu.Store(addr + cpu.regs.x, value);
      case STORE_ABS_Y => cpu.clk := cpu.clk + (inc - 2); cpu.clk := cpu.clk + 2; cpu.Store(addr + cpu.regs.y, value);
      case STORE_ABS_X_RMW => cpu.clk := cpu.clk + inc; cpu.Store(addr + cpu.regs.x, value);
      case STORE_ABS_Y_RMW => cpu.clk := cpu.clk + inc; cpu.Store(addr + cpu.regs.y, value);
    }
  }

  method StoreTo(cpu: Machine, op: StoreOp, addr: nat, clkInc1: nat, clkInc2: nat, pcInc: nat, store: StoreFunc,
                 ghost at: Word)
    requires cpu.Valid() && (store == STORE_ABS_X || store == STORE_ABS_Y ==> clkInc2 >= 2)
    requires (addr + StoreIndex(cpu.State().r, store)) % 65536 == at
    modifies cpu.ram, cpu`pc, cpu`clk
    ensures cpu.Valid() && cpu.clk == old(cpu.clk) + clkInc1 + clkInc2
    ensures cpu.State() == Moved(StoredAt(old(cpu.State()), op, at), pcInc)
  {
    cpu.clk := cpu.clk + clkInc1;
    cpu.IncPc(pcInc);
    StoreVia(cpu, store, addr, cpu.StoreValue(op), clkInc2, at);
  }

  method StoreZero(cpu: Machine, op: StoreOp, addr: nat, clkInc: nat, pcInc: nat, ghost at: Word)
    requires cpu.Valid() && addr % 256 == at
    modifies cpu.ram, cpu`pc, cpu`clk
    ensures cpu.Valid() && cpu.clk == old(cpu.clk) + clkInc
    ensures cpu.State() == Moved(StoredAt(old(cpu.State()), op, at), pcInc)
  {
    cpu.clk := cpu.clk + clkInc;
    cpu.Store(addr % 256, cpu.StoreValue(op));
    cpu.IncPc(pcInc);
  }

  method IndYBase(cpu: Machine, p1: Byte) returns (base: Word)
    requires cpu.Valid() && p1 == Operand8(cpu.State())
    ensures base == Base(cpu.State(), IndY)
  {
    base := cpu.LoadZeroAddr(p1);
  }

  method IndYAddr(cpu: Machine, p1: Byte) returns (addr: nat)
    requires cpu.Valid() && p1 == Operand8(cpu.State())
    ensures addr % 65536 == Address(cpu.State(), IndY)
  {
    var base := IndYBase(cpu, p1);
    addr := base + cpu.regs.y;
  }

  method StoreIndY(cpu: Machine, op: StoreOp, p1: Byte)
    requires cpu.Valid() && p1 == Operand8(cpu.State())
    modifies cpu.ram, cpu`pc, cpu`clk
    ensures cpu.Valid() && cpu.clk == old(cpu.clk) + 4
    ensures cpu.State() == Moved(StoredAt(old(cpu.State()), op, Address(old(cpu.State()), IndY)), 2)
  {
    ghost var at := Address(cpu.State(), IndY);
    var tmp := IndYAddr(cpu, p1);
    cpu.clk := cpu.clk + 2;
    cpu.clk := cpu.clk + CLK_IND_Y_W;
    StoreThrough(cpu, op, tmp);
    assert cpu.State() == Moved(StoredAt(old(cpu.State()), op, at), 2);
  }

  method StoreThrough(cpu: Machine, op: StoreOp, addr: nat)
    requires cpu.Valid()
    modifies cpu.ram, cpu`pc
    ensures cpu.Valid() && cpu.State() == Moved(StoredAt(old(cpu.State()), op, addr % 65536), 2)
  {
    cpu.IncPc(2);
    cpu.Store(addr, cpu.StoreValue(op));
  }

  // ---------------------------------------------------------------- read-modify-write

  method LoadVia(cpu: Machine, load: LoadFunc, addr: nat, ghost at: Word) returns (v: Byte)
    requires cpu.Valid() && (load == LOAD_ZERO_PAGE ==> addr < 256)
    requires (addr + LoadIndex(cpu.State().r, load)) % 65536 == at
    modifies cpu`clk
    ensures v == cpu.State().ram[at]
    ensures cpu.clk == old(cpu.clk) + LoadFuncCycles(load)
  {
    match load {
      case LOAD_ABS => v := cpu.Load(addr);
      case LOAD_ZERO_PAGE => v := cpu.LoadZero(addr);
      case LOAD_ABS_X_RMW => cpu.clk := cpu.clk + CLK_INT_CYCLE; v := cpu.Load(addr + cpu.regs.x);
      case LOAD_ABS_Y_RMW => cpu.clk := cpu.clk + CLK_INT_CYCLE; v := cpu.Load(addr + cpu.regs.y);
    }
  }

  method Rmw(cpu: Machine, op: ModifyOp, addr: nat, clkInc1: nat, clkInc2: nat, pcInc: nat,
             load: LoadFunc, store: StoreFunc, ghost at: Word)
    requires cpu.Valid() && (addr + StoreIndex(cpu.State().r, store)) % 65536 == at
    requires LoadIndex(cpu.State().r, load) == StoreIndex(cpu.State().r, store)
    requires load == LOAD_ZERO_PAGE ==> addr < 256
    requires store in {STORE_ABS, STORE_ABS_X_RMW, STORE_ABS_Y_RMW}
    modifies cpu.ram, cpu`regs, cpu`pc, cpu`clk
    ensures cpu.Valid() && cpu.clk == old(cpu.clk) + LoadFuncCycles(load) + clkInc1 + clkInc2
    ensures cpu.State() == Moved(ModifiedAt(old(cpu.State()), op, at), pcInc)
  {
    cpu.clk := cpu.clk + clkInc1;
    var m := LoadVia(cpu, load, addr, at);
    var t, v := ReadModify(op, cpu.regs, m);
    Macros.ModifiedKeepsIndexes(op, cpu.regs.Abstract(), m);
    cpu.regs := t;
    cpu.IncPc(pcInc);
    StoreVia(cpu, store, addr, v, clkInc2, at);
  }

  method RmwIndY(cpu: Machine, op: ModifyOp, p1: Byte)
    requires cpu.Valid() && p1 == Operand8(cpu.State())
    modifies cpu.ram, cpu`regs, cpu`pc, cpu`clk
    ensures cpu.Valid() && cpu.clk == old(cpu.clk) + 6
    ensures cpu.State() == Moved(ModifiedAt(old(cpu.State()), op, Address(old(cpu.State()), IndY)), 2)
  {
    var tmpAddr := IndYAddr(cpu, p1);
    cpu.clk := cpu.clk + 2;
    cpu.clk := cpu.clk + CLK_IND_Y_RMW1;
    var m := cpu.Load(tmpAddr);
    var t, v := ReadModify(op, cpu.regs, m);
    cpu.regs := t;
    cpu.IncPc(2);
    StoreVia(cpu, STORE_ABS, tmpAddr, v, CLK_IND_Y_RMW2, tmpAddr % 65536);
  }

  // ---------------------------------------------------------------- stores masked by the high address byte

  method StoreAbsSh(cpu: Machine, addr: Word, reg: Byte, value: Byte, inc: nat)
    requires cpu.Valid() && inc >= 2
    modifies cpu.ram, cpu`clk
    ensures cpu.Valid() && cpu.clk == old(cpu.clk) + inc
    ensures var at := if addr % 256 + reg > 255 then WordOf((addr + reg) % 256, value) else addr + reg;
            cpu.State() == old(cpu.State()).(ram := old(cpu.State()).ram[at := value])
  {
    cpu.clk := cpu.clk + (inc - 2);
    cpu.clk := cpu.clk + 2;
    var tmp2 := addr + reg;
    if addr % 256 + reg > 0xff {
      tmp2 := WordOf(tmp2 % 256, value);
    }
    cpu.StoreAt(tmp2, value);
  }

  method ShAbs(cpu: Machine, op: HighOp, mode: Mode, p2: Word)
    requires cpu.Valid() && p2 == Operand16(cpu.State()) && (mode == AbsX || mode == AbsY)
    modifies cpu.ram, cpu`regs, cpu`pc, cpu`clk
    ensures cpu.Valid() && cpu.State() == Moved(HighStored(old(cpu.State()), op, mode), 3)
    ensures cpu.clk == old(cpu.clk) + 2
  {
    ghost var at, masked := HighAddress(cpu.State(), op, mode), HighMasked(cpu.State(), op, mode);
    var tmp := p2;
    var reg := if mode == AbsX then cpu.regs.x else cpu.regs.y;
    var value := And(cpu.HighReg(op), (tmp / 256 + 1) % 256);
    assert value == masked && at == (if tmp % 256 + reg > 255 then WordOf((tmp + reg) % 256, value) else tmp + reg);
    cpu.IncPc(3);
    StoreAbsSh(cpu, tmp, reg, value, CLK_ABS_I_STORE2);
    if op == SHS {
      cpu.regs := cpu.regs.(sp := And(cpu.regs.a, cpu.regs.x));
    }
  }

  method ShaIndY(cpu: Machine, p1: Byte)
    requires cpu.Valid() && p1 == Operand8(cpu.State())
    modifies cpu.ram, cpu`pc, cpu`clk
    ensures cpu.Valid() && cpu.State() == Moved(HighStored(old(cpu.State()), SHA, IndY), 2)
    ensures cpu.clk == old(cpu.clk) + 4
  {
    ghost var at, masked := HighAddress(cpu.State(), SHA, IndY), HighMasked(cpu.State(), SHA, IndY);
    cpu.clk := cpu.clk + 2;
    var tmp: nat := IndYBase(cpu, p1);
    cpu.clk := cpu.clk + CLK_IND_Y_W;
    var val := And(And(cpu.regs.a, cpu.regs.x), (tmp / 256 + 1) % 256);
    if tmp % 256 + cpu.regs.y > 0xff {
      tmp := WordOf((tmp + cpu.regs.y) % 256, val);
    } else {
      tmp := tmp + cpu.regs.y;
    }
    assert val == masked && tmp == at;
    cpu.IncPc(2);
    cpu.StoreAt(tmp, val);
  }

  // ---------------------------------------------------------------- control flow and stack

  method BranchOn(cpu: Machine, cond: Condition, p1: Byte)
    requires cpu.Valid() && p1 == Operand8(cpu.State())
    modifies cpu`pc, cpu`clk
    ensures cpu.Valid() && cpu.State() == Branched(old(cpu.State()), cond)
    ensures cpu.clk == old(cpu.clk) + BranchCycles(old(cpu.State()), cond) - 2
  {
    cpu.IncPc(2);
    if cpu.Holds(cond) {
      var destAddr, crosses := Macros.BranchDest(cpu.pc, Signed(p1));
      cpu.clk := cpu.clk + CLK_BRANCH2;
      if crosses {
        cpu.clk := cpu.clk + CLK_BRANCH2;
      }
      cpu.Jump(destAddr);
    }
  }

  method JmpInd(cpu: Machine, p2: Word)
    requires cpu.Valid() && p2 == Operand16(cpu.State())
    modifies cpu`pc, cpu`clk
    ensures cpu.Valid() && cpu.State() == JumpedIndirect(old(cpu.State())) && cpu.clk == old(cpu.clk) + 2
  {
    var low := cpu.LoadAt(p2);
    cpu.clk := cpu.clk + 1;
    var high := cpu.LoadAt(NextInPage(p2));
    cpu.clk := cpu.clk + 1;
    cpu.Jump(WordOf(low, high));
  }

  method Jsr(cpu: Machine, p1: Byte)
    requires cpu.Valid() && p1 == Operand8(cpu.State())
    modifies cpu.ram, cpu`regs, cpu`pc, cpu`clk
    ensures cpu.Valid() && cpu.State() == Called(old(cpu.State())) && cpu.clk == old(cpu.clk) + 4
  {
    cpu.clk := cpu.clk + 1;
    cpu.IncPc(2);
    cpu.clk := cpu.clk + 2;
    cpu.PushPc();
    var high := cpu.FetchParam();
    cpu.clk := cpu.clk + CLK_JSR_INT_CYCLE;
    cpu.Jump(WordOf(p1, high));
  }

  method Rts(cpu: Machine)
    requires cpu.Valid()
    modifies cpu`regs, cpu`pc, cpu`clk
    ensures cpu.Valid() && cpu.State() == Returned(old(cpu.State())) && cpu.clk == old(cpu.clk) + 4
  {
    cpu.clk := cpu.clk + CLK_RTS;
    var tmp := cpu.PullWord();
    cpu.Jump(tmp);
    cpu.clk := cpu.clk + CLK_INT_CYCLE;
    cpu.IncPc(1);
  }

  method Rti(cpu: Machine)
    requires cpu.Valid()
    modifies cpu`regs, cpu`pc, cpu`clk
    ensures cpu.Valid() && cpu.State() == ReturnedFromInterrupt(old(cpu.State())) && cpu.clk == old(cpu.clk) + 4
  {
    cpu.clk := cpu.clk + CLK_RTI;
    cpu.PullStatus();
    var tmp := cpu.PullWord();
    cpu.Jump(tmp);
  }

  method EnterAt(cpu: Machine, breakBit: bool, vector: Word)
    requires cpu.Valid() && vector < 65535
    modifies cpu.ram, cpu`regs, cpu`pc, cpu`clk
    ensures cpu.Valid() && cpu.State() == Entered(old(cpu.State()), breakBit, vector)
    ensures cpu.clk == old(cpu.clk) + 5
  {
    cpu.regs := cpu.regs.SetBreak(breakBit);
    cpu.PushPc();
    cpu.clk := cpu.clk + 2;
    cpu.PushStatus(cpu.regs.p.b4);
    cpu.clk := cpu.clk + 1;
    cpu.TakeVector(vector);
    cpu.clk := cpu.clk + 2;
  }

  method Brk(cpu: Machine)
    requires cpu.Valid()
    modifies cpu.ram, cpu`regs, cpu`pc, cpu`clk
    ensures cpu.Valid() && cpu.State() == Entered(Moved(old(cpu.State()), 2), true, IRQ_VECTOR)
    ensures cpu.clk == old(cpu.clk) + CLK_BRK
  {
    cpu.IncPc(2);
    EnterAt(cpu, true, IRQ_VECTOR);
  }

  /** DO_INTERRUPT once the interrupt is taken, from the two dummy fetches on. */
  method Interrupt(cpu: Machine, nmi: bool)
    requires cpu.Valid()
    modifies cpu.ram, cpu`regs, cpu`pc, cpu`clk
    ensures cpu.Valid() && cpu.State() == Interrupted(old(cpu.State()), if nmi then NMI_VECTOR else IRQ_VECTOR)
    ensures cpu.clk == old(cpu.clk) + INTERRUPT_CYCLES
  {
    cpu.clk := cpu.clk + 1;
    cpu.clk := cpu.clk + 1;
    EnterAt(cpu, false, if nmi then NMI_VECTOR else IRQ_VECTOR);
  }

  method Pha(cpu: Machine)
    requires cpu.Valid()
    modifies cpu.ram, cpu`regs, cpu`pc, cpu`clk
    ensures cpu.Valid() && cpu.State() == Moved(Mos6510.Push(old(cpu.State()), old(cpu.State()).r.a), 1)
    ensures cpu.clk == old(cpu.clk) + 1
  {
    cpu.clk := cpu.clk + CLK_STACK_PUSH;
    cpu.Push(cpu.regs.a);
    cpu.IncPc(1);
  }

  method Php(cpu: Machine)
    requires cpu.Valid()
    modifies cpu.ram, cpu`regs, cpu`pc, cpu`clk
    ensures cpu.Valid()
    ensures cpu.State() == Moved(Mos6510.Push(old(cpu.State()), Value(StatusBits(old(cpu.State()).r.f, true))), 1)
    ensures cpu.clk == old(cpu.clk) + 1
  {
    cpu.clk := cpu.clk + CLK_STACK_PUSH;
    cpu.PushStatus(true);
    cpu.IncPc(1);
  }

  method Pla(cpu: Machine)
    requires cpu.Valid()
    modifies cpu`regs, cpu`pc, cpu`clk
    ensures cpu.Valid() && cpu.State() == Moved(PulledA(old(cpu.State())), 1) && cpu.clk == old(cpu.clk) + 2
  {
    cpu.clk := cpu.clk + CLK_STACK_PULL;
    var tmp := cpu.Pull();
    cpu.regs := cpu.regs.(a := tmp).SetNZ(tmp);
    cpu.IncPc(1);
  }

  method Plp(cpu: Machine)
    requires cpu.Valid()
    modifies cpu`regs, cpu`pc, cpu`clk
    ensures cpu.Valid() && cpu.State() == Moved(PulledStatus(old(cpu.State())), 1) && cpu.clk == old(cpu.clk) + 2
  {
    cpu.PullStatus();
    cpu.clk := cpu.clk + CLK_STACK_PULL;
    cpu.IncPc(1);
  }

  // ---------------------------------------------------------------- the opcode switch

  method SwitchNoop(cpu: Machine, mode: Mode)
    requires cpu.Valid() && (mode == Imm || mode == Zp || mode == ZpX)
    modifies cpu`pc, cpu`clk
    ensures cpu.Valid() && cpu.State() == Moved(LoadedFrom(old(cpu.State()), NOOP, mode), Length(mode))
    ensures cpu.clk == old(cpu.clk) + LoadCycles(old(cpu.State()), mode) - 2
  {
    Noop(cpu, if mode == Imm then 0 else if mode == Zp then 1 else CLK_NOOP_ZERO_X, 2);
  }

  method SwitchLoad(cpu: Machine, op: LoadOp, mode: Mode, p1: Byte, p2: Word)
    requires cpu.Valid() && p1 == Operand8(cpu.State()) && (WideMode(mode) ==> p2 == Operand16(cpu.State()))
    modifies cpu`regs, cpu`pc, cpu`clk
    ensures cpu.Valid() && cpu.State() == Moved(LoadedFrom(old(cpu.State()), op, mode), Length(mode))
    ensures cpu.clk == old(cpu.clk) + LoadCycles(old(cpu.State()), mode) - if WideMode(mode) then 3 else 2
  {
    match mode {
      case Imm => Alu(cpu, op, P1, p1, p2, 0, 2);
      case Zp => Alu(cpu, op, LOAD_ZERO, p1, p2, 1, 2);
      case ZpX => Alu(cpu, op, LOAD_ZERO_X, p1, p2, CLK_ZERO_I2, 2);
      case ZpY => Alu(cpu, op, LOAD_ZERO_Y, p1, p2, CLK_ZERO_I2, 2);
      case Abs => Alu(cpu, op, LOAD_P2, p1, p2, 1, 3);
      case _ => SwitchLoadIndexed(cpu, op, mode, p1, p2);
    }
  }

  method SwitchLoadIndexed(cpu: Machine, op: LoadOp, mode: Mode, p1: Byte, p2: Word)
    requires cpu.Valid() && p1 == Operand8(cpu.State()) && (WideMode(mode) ==> p2 == Operand16(cpu.State()))
    requires mode == AbsX || mode == AbsY || mode == IndX || mode == IndY
    modifies cpu`regs, cpu`pc, cpu`clk
    ensures cpu.Valid() && cpu.State() == Moved(LoadedFrom(old(cpu.State()), op, mode), Length(mode))
    ensures cpu.clk == old(cpu.clk) + LoadCycles(old(cpu.State()), mode) - if WideMode(mode) then 3 else 2
  {
    if mode == AbsX {
      Alu(cpu, op, LOAD_ABS_X, p1, p2, 1, 3);
    } else if mode == AbsY {
      Alu(cpu, op, LOAD_ABS_Y, p1, p2, 1, 3);
    } else {
      SwitchLoadIndirect(cpu, op, mode, p1, p2);
    }
  }

  method SwitchLoadIndirect(cpu: Machine, op: LoadOp, mode: Mode, p1: Byte, p2: Word)
    requires cpu.Valid() && p1 == Operand8(cpu.State()) && (mode == IndX || mode == IndY)
    modifies cpu`regs, cpu`pc, cpu`clk
    ensures cpu.Valid() && cpu.State() == Moved(LoadedFrom(old(cpu.State()), op, mode), Length(mode))
    ensures cpu.clk == old(cpu.clk) + LoadCycles(old(cpu.State()), mode) - if WideMode(mode) then 3 else 2
  {
    match mode {
      case IndX => Alu(cpu, op, LOAD_IND_X, p1, p2, 1, 2);
      case IndY => Alu(cpu, op, if op == LDA then LOAD_IND_Y_BANK else LOAD_IND_Y, p1, p2, 1, 2);
    }
  }

  method SwitchStore(cpu: Machine, op: StoreOp, mode: Mode, p1: Byte, p2: Word)
    requires cpu.Valid() && p1 == Operand8(cpu.State()) && (WideMode(mode) ==> p2 == Operand16(cpu.State()))
    requires mode != Imm
    modifies cpu.ram, cpu`pc, cpu`clk
    ensures cpu.Valid()
    ensures cpu.State() == Moved(StoredAt(old(cpu.State()), op, Address(old(cpu.State()), mode)), Length(mode))
    ensures cpu.clk == old(cpu.clk) + StoreCycles(mode) - if WideMode(mode) then 3 else 2
  {
    ghost var at := Address(cpu.State(), mode);
    if mode == Abs {
      StoreTo(cpu, op, p2, 0, 1, 3, STORE_ABS, at);
    } else if mode == AbsX {
      StoreTo(cpu, op, p2, 0, CLK_ABS_I_STORE2, 3, STORE_ABS_X, at);
    } else if mode == AbsY {
      StoreTo(cpu, op, p2, 0, CLK_ABS_I_STORE2, 3, STORE_ABS_Y, at);
    } else {
      SwitchStoreShort(cpu, op, mode, p1);
    }
  }

  method SwitchStoreShort(cpu: Machine, op: StoreOp, mode: Mode, p1: Byte)
    requires cpu.Valid() && p1 == Operand8(cpu.State()) && mode != Imm && !WideMode(mode)
    modifies cpu.ram, cpu`pc, cpu`clk
    ensures cpu.Valid()
    ensures cpu.State() == Moved(StoredAt(old(cpu.State()), op, Address(old(cpu.State()), mode)), Length(mode))
    ensures cpu.clk == old(cpu.clk) + StoreCycles(mode) - if WideMode(mode) then 3 else 2
  {
    ghost var at := Address(cpu.State(), mode);
    match mode {
      case Zp => StoreZero(cpu, op, p1, 1, 2, at);
      case ZpX => StoreZero(cpu, op, p1 + cpu.regs.x, CLK_ZERO_I_STORE, 2, at);
      case ZpY =>
        if op == SAX {
          StoreTo(cpu, op, (p1 + cpu.regs.y) % 256, 0, CLK_ZERO_I_STORE, 2, STORE_ABS, at);
        } else {
          StoreZero(cpu, op, p1 + cpu.regs.y, CLK_ZERO_I_STORE, 2, at);
        }
      case IndX => StoreTo(cpu, op, cpu.LoadZeroAddr(p1 + cpu.regs.x), 3, 1, 2, STORE_ABS, at);
      case IndY => StoreIndY(cpu, op, p1);
    }
  }

  method SwitchModify(cpu: Machine, op: ModifyOp, mode: Mode, p1: Byte, p2: Word)
    requires cpu.Valid() && p1 == Operand8(cpu.State()) && (WideMode(mode) ==> p2 == Operand16(cpu.State()))
    requires mode != Imm && mode != ZpY
    modifies cpu.ram, cpu`regs, cpu`pc, cpu`clk
    ensures cpu.Valid()
    ensures cpu.State() == Moved(ModifiedAt(old(cpu.State()), op, Address(old(cpu.State()), mode)), Length(mode))
    ensures cpu.clk == old(cpu.clk) + ModifyCycles(mode) - if WideMode(mode) then 3 else 2
  {
    ghost var at := Address(cpu.State(), mode);
    if mode == Abs {
      Rmw(cpu, op, p2, 0, CLK_ABS_RMW2, 3, LOAD_ABS, STORE_ABS, at);
    } else if mode == AbsX {
      Rmw(cpu, op, p2, 0, CLK_ABS_I_RMW2, 3, LOAD_ABS_X_RMW, STORE_ABS_X_RMW, at);
    } else if mode == AbsY {
      Rmw(cpu, op, p2, 0, CLK_ABS_I_RMW2, 3, LOAD_ABS_Y_RMW, STORE_ABS_Y_RMW, at);
    } else {
      SwitchModifyShort(cpu, op, mode, p1);
    }
  }

  method SwitchModifyShort(cpu: Machine, op: ModifyOp, mode: Mode, p1: Byte)
    requires cpu.Valid() && p1 == Operand8(cpu.State()) && mode != Imm && mode != ZpY && !WideMode(mode)
    modifies cpu.ram, cpu`regs, cpu`pc, cpu`clk
    ensures cpu.Valid()
    ensures cpu.State() == Moved(ModifiedAt(old(cpu.State()), op, Address(old(cpu.State()), mode)), Length(mode))
    ensures cpu.clk == old(cpu.clk) + ModifyCycles(mode) - if WideMode(mode) then 3 else 2
  {
    ghost var at := Address(cpu.State(), mode);
    match mode {
      case Zp => Rmw(cpu, op, p1, 0, CLK_ZERO_RMW, 2, LOAD_ZERO_PAGE, STORE_ABS, at);
      case ZpX =>
        Rmw(cpu, op, (p1 + cpu.regs.x) % 256, 0, CLK_ZERO_I_RMW, 2,
            if op == DEC || op == DCP then LOAD_ABS else LOAD_ZERO_PAGE, STORE_ABS, at);
      case IndX => Rmw(cpu, op, cpu.LoadZeroAddr(p1 + cpu.regs.x), 3, CLK_IND_X_RMW, 2, LOAD_ABS, STORE_ABS, at);
      case IndY => RmwIndY(cpu, op, p1);
    }
  }

  method SwitchStack(cpu: Machine, insn: Insn, p1: Byte)
    requires cpu.Valid() && p1 == Operand8(cpu.State())
    requires insn in {JSR, RTS, RTI, BRK, PHA, PHP, PLA, PLP}
    modifies cpu.ram, cpu`regs, cpu`pc, cpu`clk
    ensures cpu.Valid() && cpu.State() == Execute(old(cpu.State()), insn)
    ensures cpu.clk == old(cpu.clk) + Cycles(old(cpu.State()), insn) - FetchCycles(insn)
  {
    match insn {
      case JSR => Jsr(cpu, p1);
      case RTS => Rts(cpu);
      case RTI => Rti(cpu);
      case BRK => Brk(cpu);
      case PHA => Pha(cpu);
      case PHP => Php(cpu);
      case PLA => Pla(cpu);
      case PLP => Plp(cpu);
    }
  }

  /** The rest of the switch.  JAM takes back its two fetch cycles and stays where it is. */
  method SwitchFlow(cpu: Machine, insn: Insn, p1: Byte, p2: Word)
    requires cpu.Valid() && p1 == Operand8(cpu.State()) && (Wide(insn) ==> p2 == Operand16(cpu.State()))
    requires Occurs(insn) && !insn.Load? && !insn.Store? && !insn.Modify? && cpu.clk >= 2
    modifies cpu.ram, cpu`regs, cpu`pc, cpu`clk
    ensures cpu.Valid() && cpu.State() == Execute(old(cpu.State()), insn)
    ensures cpu.clk == old(cpu.clk) + Cycles(old(cpu.State()), insn) - FetchCycles(insn)
  {
    if insn in {JSR, RTS, RTI, BRK, PHA, PHP, PLA, PLP} {
      SwitchStack(cpu, insn, p1);
    } else {
      match insn {
        case HighStore(op, mode) =>
          if mode == IndY {
            ShaIndY(cpu, p1);
          } else {
            ShAbs(cpu, op, mode, p2);
          }
        case Simple(op) => cpu.regs := Macros.Implied(op, cpu.regs); cpu.IncPc(1);
        case Branch(cond) => BranchOn(cpu, cond, p1);
        case JMP => cpu.Jump(p2);
        case JMP_IND => JmpInd(cpu, p2);
        case JAM => cpu.clk := cpu.clk - 2;
      }
    }
  }

  /** The opcode switch. */
  method Switch(cpu: Machine, insn: Insn, p1: Byte, p2: Word)
    requires cpu.Valid() && p1 == Operand8(cpu.State()) && (Wide(insn) ==> p2 == Operand16(cpu.State()))
    requires Occurs(insn) && cpu.clk >= 2
    modifies cpu.ram, cpu`regs, cpu`pc, cpu`clk
    ensures cpu.Valid() && cpu.State() == Execute(old(cpu.State()), insn)
    ensures cpu.clk == old(cpu.clk) + Cycles(old(cpu.State()), insn) - FetchCycles(insn)
  {
    match insn {
      case Load(op, mode) =>
        if op == NOOP && (mode == Imm || mode == Zp || mode == ZpX) {
          SwitchNoop(cpu, mode);
        } else {
          SwitchLoad(cpu, op, mode, p1, p2);
        }
      case Store(op, mode) => SwitchStore(cpu, op, mode, p1, p2);
      case Modify(op, mode) => SwitchModify(cpu, op, mode, p1, p2);
      case _ => SwitchFlow(cpu, insn, p1, p2);
    }
  }

  /** One instruction: the fetch, whose length comes from the fetch table, then the switch. */
  method Step(cpu: Machine) returns (insn: Insn)
    requires cpu.Valid()
    modifies cpu.ram, cpu`regs, cpu`pc, cpu`clk
    ensures cpu.Valid() && insn == Decode(Fetch(old(cpu.State()), 0))
    ensures cpu.State() == Execute(old(cpu.State()), insn)
    ensures cpu.clk == old(cpu.clk) + Cycles(old(cpu.State()), insn)
  {
    var p0, p1, p2 := cpu.FetchOpcode();
    FetchTableExact(p0);
    ListedIsDecoded(p0);
    insn := Listed(p0);
    Switch(cpu, insn, p1, p2);
  }

  method TickOnce(cpu: Machine, t: Tick)
    requires cpu.Valid()
    modifies cpu.ram, cpu`regs, cpu`pc, cpu`clk
    ensures cpu.Valid() && cpu.State() == Ticked(old(cpu.State()), t)
    ensures cpu.clk == old(cpu.clk) + TickCycles(old(cpu.State()), t)
  {
    match t {
      case Instruction => var _ := Step(cpu);
      case Irq => Interrupt(cpu, false);
      case Nmi => Interrupt(cpu, true);
    }
  }

  /** The middle of the read-modify-write macros: the new registers and the value to store, which
      the store cuts to a byte. */
  method ReadModify(op: ModifyOp, r: Native, m: Byte) returns (t: Native, v: nat)
    requires r.Clean()
    ensures t.Clean() && (t.Abstract(), v % 256) == Modified(op, r.Abstract(), m)
  {
    match op {
      case SLO => t, v := ShiftAndOr(r, m);
      case RRA => t, v := RotateAndAdd(r, m);
      case _ => t, v := Macros.ReadModify(op, r, m);
    }
  }

  method ShiftAndOr(r: Native, m: Byte) returns (t: Native, v: Byte)
    requires r.Clean()
    ensures t.Clean() && (t.Abstract(), v % 256) == Modified(SLO, r.Abstract(), m)
  {
    t := r.SetCarry(m >= 0x80);
    v := 2 * m % 256;
    var tmp2 := Or(t.a, v);
    t := t.(a := tmp2).SetNZ(tmp2);
  }

  method RotateAndAdd(r: Native, m: Byte) returns (t: Native, v: Byte)
    requires r.Clean()
    ensures t.Clean() && (t.Abstract(), v % 256) == Modified(RRA, r.Abstract(), m)
  {
    hide Modified, Mos6510.Adc;
    v := m / 2;
    if r.p.b0 {
      v := v + 0x80;
    }
    Macros.RraIsAdc(r.Abstract(), m);
    t := r.SetCarry(m % 2 == 1);
    t := Macros.Adc(t, v);
  }
}
