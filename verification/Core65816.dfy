/** The macros of src/65816core.c that touch the mode flags, the index registers or the stack pointer,
    on a register set and a flat memory that they change in place.  Operands arrive as parameters. */
module Core65816 {
  import opened ByteBits
  import opened Bitwise
  import opened Wdc65816
  import opened Opcodes65816
  import opened BlockMove
  import opened MoveRuns
  import Decimal = DecimalArithmetic
  import opened ModeRuns

  class Cpu {
    var r: Regs
    const ram: array<Byte>

    ghost predicate Sized()
    {
      ram.Length == 0x100_0000
    }

    ghost predicate Valid()
      reads `r
    {
      Sized() && Modes(r)
    }

    ghost function State(): Core
      requires Sized()
      reads `r, ram
    {
      Core(r, ram[..])
    }

    constructor (ram: array<Byte>, r: Regs)
      requires ram.Length == 0x100_0000 && Modes(r)
      ensures Valid() && State() == Core(r, ram[..])
    {
      this.ram, this.r := ram, r;
    }

    // ---------------------------------------------------------------- stack

    method PushByte(v: Byte)
      requires Sized()
      modifies ram, `r
      ensures State() == Pushed(old(State()), v)
    {
      ram[r.sp] := v;
      if r.e != 0 {
        r := r.(sp := 0x100 + (r.sp - 1) % 256);
      } else {
        r := r.(sp := Wrap16(r.sp - 1));
      }
    }

    method Push(v: nat)
      requires Sized()
      modifies ram, `r
      ensures State() == Pushed(old(State()), v % 256)
    {
      PushByte(v % 256);
    }

    method Pull() returns (v: Byte)
      requires Sized()
      modifies `r
      ensures v == Top(old(State())) && State() == Pulled(old(State()))
    {
      r := r.(sp := if r.e != 0 then 0x100 + (r.sp + 1) % 256 else Wrap16(r.sp + 1));
      v := ram[r.sp];
    }

    /** STORE_LONG at SP and `reg_sp--`. */
    method StoreDown(v: Byte)
      requires Sized()
      modifies ram, `r
      ensures State() == PushedUnwrapped(old(State()), v)
    {
      ram[r.sp] := v;
      r := r.(sp := Wrap16(r.sp - 1));
    }

    /** The tail of PEA, PEI, PER, PHD, JSL and JSR (abs,X). */
    method PushWordUnwrapped(w: Word)
      requires Sized()
      modifies ram, `r
      ensures State() == PushedWordUnwrapped(old(State()), w)
      ensures Modes(old(r)) ==> Modes(r)
    {
      StoreDown(w / 256);
      Push(w);
    }

    method StoreStack(v: Word, bits8: bool)
      requires Valid()
      modifies ram, `r
      ensures Valid()
      ensures State() == if bits8 then Pushed(old(State()), v % 256) else PushedWord(old(State()), v)
    {
      if !bits8 {
        Push(v / 256);
      }
      Push(v);
    }

    method LoadStack(bits8: bool) returns (v: Word)
      requires Valid()
      modifies `r
      ensures Valid() && v == if bits8 then Top(old(State())) else TopWord(old(State()))
      ensures State() == if bits8 then Pulled(old(State())) else Pulled(Pulled(old(State())))
    {
      var low := Pull();
      v := low;
      if !bits8 {
        var high := Pull();
        v := WordOf(low, high);
      }
    }

    // ---------------------------------------------------------------- index registers

    /** LDX and LDY. */
    method LoadIndex(isX: bool, operand: Word)
      requires Valid()
      modifies `r
      ensures Valid() && r == IndexLoaded(old(r), isX, operand)
    {
      if Index8(r) {
        var value := operand % 256;
        r := WithNZ(WithIndex(r, isX, value), value, true);
      } else {
        r := WithNZ(WithIndex(r, isX, operand), operand, false);
      }
    }

    /** TAX and TAY take the accumulator, TSX the stack pointer. */
    method TransferToIndex(isX: bool, source: Word)
      requires Valid()
      modifies `r
      ensures Valid() && r == IndexLoaded(old(r), isX, source)
    {
      r := WithIndex(r, isX, source);
      if Index8(r) {
        r := WithIndex(r, isX, source % 256);
        r := WithNZ(r, IndexOf(r, isX), true);
      } else {
        r := WithNZ(r, source, false);
      }
    }

    /** INX, INY, DEX and DEY: the new value is narrowed and sets the flags as a transfer does. */
    method CountIndex(isX: bool, up: bool)
      requires Valid()
      modifies `r
      ensures Valid() && r == IndexLoaded(old(r), isX, Stepped(IndexOf(old(r), isX), up, 1))
    {
      TransferToIndex(isX, Stepped(IndexOf(r, isX), up, 1));
    }

    /** TXY and TYX. */
    method TransferBetweenIndexes(toX: bool)
      requires Valid()
      modifies `r
      ensures Valid() && r == IndexLoaded(old(r), toX, IndexOf(old(r), !toX))
    {
      r := WithIndex(r, toX, IndexOf(r, !toX));
      r := WithNZ(r, IndexOf(r, toX), Index8(r));
    }

    /** PLX and PLY. */
    method PullIndex(isX: bool)
      requires Valid()
      modifies `r
      ensures Valid()
      ensures var s, narrow := old(State()), Index8(old(r));
              r == IndexLoaded((if narrow then Pulled(s) else Pulled(Pulled(s))).r, isX,
                               if narrow then Top(s) else TopWord(s))
    {
      var narrow := Index8(r);
      var v := LoadStack(narrow);
      r := WithIndex(r, isX, v);
      r := WithNZ(r, v, narrow);
    }

    method Txs()
      requires Valid()
      modifies `r
      ensures Valid() && r == old(r).(sp := if Index8(old(r)) then 0x100 + old(r).x else old(r).x)
    {
      if Index8(r) {
        r := r.(sp := 0x100 + r.x);
      } else {
        r := r.(sp := r.x);
      }
    }

    method Tcs()
      requires Valid()
      modifies `r
      ensures Valid() && r == old(r).(sp := if Emulation(old(r)) then 0x100 + old(r).c % 256 else old(r).c)
    {
      if r.e != 0 {
        r := r.(sp := 0x100 + r.c % 256);
      } else {
        r := r.(sp := r.c);
      }
    }

    // ---------------------------------------------------------------- modes

    /** XCE exchanges the carry with the emulation flag. */
    method Xce()
      requires Valid()
      modifies `r
      ensures Valid() && r.e == Carry(old(r)) && Carry(r) == old(r).e
      ensures old(r).e == r.e ==> r == old(r)
      ensures old(r).e < r.e ==> r.x == old(r).x % 256 && r.y == old(r).y % 256 && r.sp == 0x100 + old(r).sp % 256
      ensures old(r).e > r.e ==> r.p.b5 && r.p.b4 && r.x == old(r).x && r.y == old(r).y && r.sp == old(r).sp
      ensures r == Exchanged(old(r))
    {
      if Carry(r) != r.e {
        if r.p.b0 {
          r := r.(e := 1);
          r := r.(p := r.p.(b0 := false));
          r := r.(p := r.p.(b4 := false));
          r := r.(x := r.x % 256, y := r.y % 256);
          r := r.(sp := 0x100 + r.sp % 256);
        } else {
          r := r.(e := 0);
          r := r.(p := r.p.(b0 := true));
          r := r.(p := r.p.(b5 := true));
          r := r.(p := r.p.(b4 := true));
        }
      }
    }

    method RepSepModes(value: Bits, v: bool)
      requires Valid()
      modifies `r
      ensures Valid() && r == ModesSet(old(r), value, v)
    {
      if value.b5 && r.e == 0 {
        r := r.(p := r.p.(b5 := v));
      }
      if value.b4 && r.e == 0 {
        r := r.(p := r.p.(b4 := v));
        if v {
          r := r.(x := r.x % 256, y := r.y % 256);
        }
      }
    }

    method RepSepFlags(value: Bits, v: bool)
      requires Valid()
      modifies `r
      ensures Valid() && r == FlagsSet(old(r), value, v)
    {
      if value.b6 {
        r := r.(p := r.p.(b6 := v));
      }
      if value.b3 {
        r := r.(p := r.p.(b3 := v));
      }
      if value.b2 {
        r := r.(p := r.p.(b2 := v));
      }
      if value.b0 {
        r := r.(p := r.p.(b0 := v));
      }
    }

    /** REP and SEP; the bits are independent, so their order does not matter. */
    method RepSep(value: Bits, v: bool)
      requires Valid()
      modifies `r
      ensures Valid() && r == BitsSet(old(r), value, v)
    {
      if value.b7 {
        r := r.(flagN := if v then 0x80 else 0);
      }
      if value.b1 {
        r := r.(flagZ := if v then 0 else 1);
      }
      RepSepModes(value, v);
      RepSepFlags(value, v);
    }

    /** LOCAL_SET_STATUS and the narrowing that PLP and RTI do after it. */
    method SetStatus(v: Byte)
      requires Sized() && (r.e == 0 || r.e == 1) && (Emulation(r) ==> r.sp / 256 == 1)
      modifies `r
      ensures Valid() && r == Narrowed(WithStatus(old(r), v))
    {
      r := WithStatus(r, v);
      if Index8(r) {
        r := r.(x := r.x % 256, y := r.y % 256);
      }
    }

    method Plp()
      requires Valid()
      modifies `r
      ensures Valid() && StatusOf(r) == OfByte(Top(old(State())))
      ensures r == Narrowed(WithStatus(Pulled(old(State())).r, Top(old(State()))))
    {
      var s := Pull();
      StatusSet(r, s);
      NarrowedAside(WithStatus(r, s));
      SetStatus(s);
    }

    // ---------------------------------------------------------------- interrupts

    method PushWord(w: Word)
      requires Valid()
      modifies ram, `r
      ensures Valid() && State() == PushedWord(old(State()), w)
      ensures r == old(r).(sp := r.sp)
    {
      PushByte(w / 256);
      PushByte(w % 256);
    }

    method TakeVector(vector: Word)
      requires Valid() && vector < 0xffff
      modifies `r
      ensures Valid()
      ensures r == old(r).(p := old(r).p.(b3 := false, b2 := true), pbr := 0,
                           pc := WordOf(State().mem[vector], State().mem[vector + 1]))
    {
      r := r.(p := r.p.(b3 := false));
      r := r.(p := r.p.(b2 := true));
      var low, high := ram[vector], ram[vector + 1];
      r := r.(pc := WordOf(low, high));
      r := r.(pbr := 0);
    }

    method PushNativeFrame(returnTo: Word)
      requires Valid() && !Emulation(r)
      modifies ram, `r
      ensures Valid() && State() == Framed(old(State()), false, returnTo)
    {
      PushByte(r.pbr);
      PushWord(returnTo);
      PushByte(NativeStatus(r));
    }

    method PushFrame(brk: bool, returnTo: Word)
      requires Valid()
      modifies ram, `r
      ensures Valid() && State() == Framed(old(State()), brk, returnTo)
    {
      if r.e != 0 {
        r := r.(p := r.p.(b4 := brk));
        PushWord(returnTo);
        PushByte(EmulationStatus(r));
      } else {
        PushNativeFrame(returnTo);
      }
    }

    method Enter(kind: Interrupt)
      requires Valid()
      modifies ram, `r
      ensures Valid() && State() == Entered(old(State()), kind)
    {
      var vector := VectorOf(kind, r.e != 0);
      PushFrame(IsSoftware(kind), ReturnAddress(r, kind));
      TakeVector(vector);
    }

    method Rti()
      requires Valid()
      modifies `r
      ensures Valid() && State() == ReturnedFromInterrupt(old(State()))
    {
      var tmp := Pull();
      SetStatus(tmp);
      var pc := LoadStack(false);
      if r.e != 0 {
        r := r.(pc := pc);
      } else {
        var bank := Pull();
        r := r.(pc := pc, pbr := bank);
      }
    }

    /** Reset establishes the modes from any state. */
    method Res(vector: Word)
      requires Sized() && vector < 0xffff && !r.p.b7 && !r.p.b1
      modifies `r
      ensures Valid() && State() == Restarted(old(State()), vector)
    {
      ThreeDown(r.sp);
      r := r.(p := r.p.(b4 := false));
      r := r.(e := 1);
      r := r.(x := r.x % 256, y := r.y % 256);
      r := r.(sp := PageOne(r.sp));
      r := r.(d := 0, dbr := 0, pbr := 0);
      r := r.(sp := PageOne(r.sp - 1));
      r := r.(sp := PageOne(r.sp - 1));
      r := r.(sp := PageOne(r.sp - 1));
      r := r.(p := r.p.(b2 := true, b3 := false));
      var low, high := ram[vector], ram[vector + 1];
      r := r.(pc := WordOf(low, high));
    }

    // ---------------------------------------------------------------- long calls and the direct register

    method Param(k: nat) returns (v: Byte)
      requires Sized() && k <= 3
      ensures v == Fetched(State(), k)
    {
      v := ram[Wrap16(r.pc + k) + 0x1_0000 * r.pbr as int];
    }

    /** A load from a bank. */
    method LoadFrom(bank: Byte, addr: Word) returns (v: Byte)
      requires Sized()
      ensures v == State().mem[addr + 0x1_0000 * bank as int]
    {
      v := ram[addr + 0x1_0000 * bank as int];
    }

    method LoadVector(ea: Word) returns (w: Word)
      requires Sized()
      ensures w == Vector(State(), ea)
    {
      var low := LoadFrom(r.pbr, ea);
      var high := LoadFrom(r.pbr, Wrap16(ea + 1));
      w := WordOf(low, high);
    }

    method StoreTo(bank: Byte, addr: Word, v: Byte)
      requires Sized()
      modifies ram
      ensures State() == old(State()).(mem := old(State()).mem[addr + 0x1_0000 * bank as int := v])
    {
      ram[addr + 0x1_0000 * bank as int] := v;
    }

    method JsrLong()
      requires Valid()
      modifies ram, `r
      ensures Valid() && State() == CalledLong(old(State()))
    {
      var p1 := Param(1);
      var p2 := Param(2);
      var next := NextPc(r, 3);
      StoreDown(r.pbr);
      var bank := Param(3);
      PushWordUnwrapped(next);
      r := r.(pbr := bank, pc := WordOf(p1, p2));
    }

    /** `reg_sp++` and a load, without wrapping. */
    method LoadUp() returns (v: Byte)
      requires Sized()
      modifies `r
      ensures r == old(r).(sp := Wrap16(old(r).sp + 1)) && v == State().mem[r.sp]
    {
      r := r.(sp := Wrap16(r.sp + 1));
      v := ram[r.sp];
    }

    method LoadWordUp() returns (w: Word)
      requires Sized()
      modifies `r
      ensures var s := old(State()); w == WordOf(s.mem[At(s, 1)], s.mem[At(s, 2)]) && r == s.r.(sp := At(s, 2))
    {
      CountsUp(r.sp, 1);
      var low := LoadUp();
      var high := LoadUp();
      w := WordOf(low, high);
    }

    method Rtl()
      requires Valid()
      modifies `r
      ensures Valid() && State() == ReturnedLong(old(State()))
    {
      CountsUp(r.sp, 2);
      var pc := LoadWordUp();
      var bank := LoadUp();
      r := r.(pbr := bank);
      if r.e != 0 {
        r := r.(sp := 0x100 + r.sp % 256);
      }
      r := r.(pc := Wrap16(pc as int + 1));
    }

    /** The word that the operand and X lead to, the high operand byte fetched only now. */
    method IndirectTarget(p1: Byte) returns (pc: Word)
      requires Sized()
      ensures pc == Vector(State(), Wrap16(WordOf(p1, Fetched(State(), 2)) + r.x))
    {
      var p2 := Param(2);
      var ea := Wrap16(WordOf(p1, p2) + r.x);
      pc := LoadVector(ea);
    }

    method JsrIndX()
      requires Valid()
      modifies ram, `r
      ensures Valid() && State() == CalledIndirect(old(State()))
    {
      var p1 := Param(1);
      PushWordUnwrapped(NextPc(r, 2));
      var pc := IndirectTarget(p1);
      r := r.(pc := pc);
    }

    method Rts()
      requires Valid()
      modifies `r
      ensures Valid() && State() == Returned(old(State()))
    {
      var pc := LoadStack(false);
      r := r.(pc := Wrap16(pc as int + 1));
    }

    method Phd()
      requires Valid()
      modifies ram, `r
      ensures Valid() && State() == DirectPushed(old(State()))
    {
      PushWordUnwrapped(r.d);
      r := r.(pc := NextPc(r, 1));
    }

    method PullDirect()
      requires Valid()
      modifies `r
      ensures Valid()
      ensures var s := old(State());
              r == s.r.(sp := Dropped(s.r, 2), d := WordOf(s.mem[At(s, 1)], s.mem[At(s, 2)]))
    {
      var d := LoadWordUp();
      r := r.(d := d);
      if r.e != 0 {
        r := r.(sp := 0x100 + r.sp % 256);
      }
    }

    method Pld()
      requires Valid()
      modifies `r
      ensures Valid() && State() == DirectPulled(old(State()))
    {
      PullDirect();
      r := r.(pc := NextPc(r, 1));
      r := WithNZ(r, r.d, false);
    }

    // ---------------------------------------------------------------- block moves

    method Move(up: bool)
      requires Valid()
      modifies ram, `r
      ensures Valid() && State() == MovedOnce(old(State()), up)
    {
      var to, from := MoveBanks();
      if r.c == 0 {
        r := r.(pc := NextPc(r, 3));
      }
      var tmp := LoadFrom(from, r.x);
      StoreTo(to, r.y, tmp);
      r := r.(dbr := to);
      r := r.(x := Stepped(r.x, up, 1), y := Stepped(r.y, up, 1));
      if Index8(r) {
        r := r.(x := r.x % 256, y := r.y % 256);
      }
      r := r.(c := (r.c - 1) % 0x1_0000);
    }

    /** The last execution steps the PC over the operand bytes, the others look ahead of it. */
    method MoveBanks() returns (to: Byte, from: Byte)
      requires Sized()
      ensures to == DestBank(State()) && from == SourceBank(State())
    {
      if r.c == 0 {
        to := Param(1);
        from := Param(2);
      } else {
        to := ram[Wrap24(r.pc + 1 + 0x1_0000 * r.pbr as int)];
        from := ram[Wrap24(r.pc + 2 + 0x1_0000 * r.pbr as int)];
      }
    }

    /** One more turn of the main loop that finds the move at the PC, with the count it leaves. */
    method MoveAgain(up: bool, d: Data, ghost s: Core, ghost n: nat) returns (last: bool)
      requires Valid() && n <= s.r.c && State() == Repeated(s, up, n) && r.c == Stepped(s.r.c, false, n)
      requires Stands(State(), up)
      modifies ram, `r
      ensures Valid() && State() == Repeated(s, up, n + 1) && r.c == Stepped(s.r.c, false, n + 1)
      ensures last <==> n == s.r.c
    {
      hide MovedOnce, Ticked, Stands, MacroOf;
      assert r.c == (s.r.c - n) % 0x1_0000;
      hide Stepped;
      CountsOut(s.r.c, n);
      WideStep(s.r.c, false, n);
      TurnMoves(State(), up, Instruction(d));
      CountsOnce(State(), up);
      last := r.c == 0;
      TickOnce(Instruction(d));
    }

    /** The main loop meets the same opcode again until the count has run out, or until the move has
        overwritten its opcode with another one. */
    method RepeatMove(up: bool, d: Data) returns (ghost n: nat)
      requires Valid() && Stands(State(), up)
      modifies ram, `r
      ensures Valid() && State() == Repeated(old(State()), up, n)
      ensures if n <= old(r).c then !Stands(State(), up) else n == old(r).c + 1 && r.c == 0xffff
      ensures Ready(old(State()), up, old(r).c + 1) && OpcodeKept(old(State()), up, old(r).c + 1) ==> n == old(r).c + 1
    {
      ghost var s := State();
      n := 0;
      var last, there := false, true;
      while !last && there
        invariant Valid() && n <= s.r.c + 1 && State() == Repeated(s, up, n)
        invariant r.c == Stepped(s.r.c, false, n)
        invariant last <==> n == s.r.c + 1
        invariant there <==> Stands(State(), up)
        decreases s.r.c + 1 - n
      {
        last := MoveAgain(up, d, s, n);
        n := n + 1;
        var opcode := Param(0);
        there := MacroOf(opcode) == Mover(up);
      }
      if last {
        CountedOut(s.r.c, n);
      } else {
        NotYetStopped(s, up, n);
      }
    }

    // ---------------------------------------------------------------- accumulator and memory

    /** LOGICAL, TRANSA and PLA assign the accumulator at its width, then set N and Z. */
    method Accumulate(v: Word)
      requires Valid()
      modifies `r
      ensures Valid() && r == Accumulated(old(r), v)
    {
      var bits8 := Accumulator8(r);
      if bits8 {
        r := r.(c := r.c - r.c % 256 + v % 256);
      } else {
        r := r.(c := v);
      }
      r := WithNZ(r, v, bits8);
    }

    /** CMP and CMPI. */
    method Compare(reg: Word, value: Word, bits8: bool)
      requires Valid()
      modifies `r
      ensures Valid() && r == Compared(old(r), reg, value, bits8)
    {
      var carry, tmp := Difference(reg, value, bits8);
      r := r.(p := r.p.(b0 := carry));
      r := WithNZ(r, tmp, bits8);
    }

    method BitImmediate(value: Word)
      requires Valid()
      modifies `r
      ensures Valid() && r == Tested(old(r), value)
    {
      var masked := And16(r.c, value);
      if Accumulator8(r) {
        r := r.(flagZ := if masked % 256 == 0 then 0 else 1);
      } else {
        r := r.(flagZ := if masked == 0 then 0 else 1);
      }
    }

    method Bit(value: Word)
      requires Valid()
      modifies `r
      ensures Valid() && r == BitTested(old(r), value)
    {
      if Accumulator8(r) {
        TopBits(value % 256);
        r := r.(flagN := if value % 256 >= 0x80 then 0x80 else 0);
        r := r.(p := r.p.(b6 := value % 256 / 0x40 % 2 == 1));
      } else {
        r := r.(flagN := if value >= 0x8000 then 0x80 else 0);
        r := r.(p := r.p.(b6 := value / 0x4000 % 2 == 1));
      }
      BitImmediate(value);
    }

    /** ASLROL and LSRROR. */
    method ShiftLeft(v: Word, carry: bool) returns (value: Word)
      requires Valid()
      modifies `r
      ensures Valid() && (r, value) == ShiftedLeft(old(r), v, carry)
    {
      var bits8 := Accumulator8(r);
      var out: bool;
      out, value := LeftShift(v, carry, bits8);
      r := r.(p := r.p.(b0 := out));
      r := WithNZ(r, value, bits8);
    }

    method ShiftRight(v: Word, carry: bool) returns (value: Word)
      requires Valid()
      modifies `r
      ensures Valid() && (r, value) == ShiftedRight(old(r), v, carry)
    {
      var bits8 := Accumulator8(r);
      var out: bool;
      out, value := RightShift(v, carry, bits8);
      r := r.(p := r.p.(b0 := out));
      r := WithNZ(r, value, bits8);
    }

    method Count(tmp: int) returns (value: Word)
      requires Valid()
      modifies `r
      ensures Valid() && (r, value) == Counted(old(r), tmp)
    {
      value := AtWidth(tmp, Accumulator8(r));
      r := WithNZ(r, value, Accumulator8(r));
    }

    method Change(m: Macro, v: Word) returns (value: Word)
      requires Valid() && ChangesMemory(m)
      modifies `r
      ensures Valid() && (r, value) == Changed(m, old(r), v)
    {
      match m {
        case ASL => value := ShiftLeft(v, false);
        case ROL => value := ShiftLeft(v, r.p.b0);
        case LSR => value := ShiftRight(v, false);
        case ROR => value := ShiftRight(v, r.p.b0);
        case INC => value := Count(v + 1);
        case DEC => value := Count(v - 1);
      }
    }

    /** The same on the accumulator, STORE_ACCU_RRW last. */
    method ChangeAccumulator(m: Macro)
      requires Valid() && ChangesMemory(m)
      modifies `r
      ensures Valid() && r == ChangedAccumulator(m, old(r))
    {
      var value := Change(m, r.c);
      r := WithAccumulator(r, value);
    }

    /** ADC and SBC. */
    method Sum(subtract: bool, value: Word)
      requires Valid()
      modifies `r
      ensures Valid() && r == Summed(old(r), subtract, value)
    {
      var sum, carry, overflow := Total(subtract, value);
      r := r.(p := r.p.(b6 := overflow));
      r := r.(p := r.p.(b0 := carry));
      Accumulate(sum);
    }

    method Total(subtract: bool, value: Word) returns (sum: Word, carry: bool, overflow: bool)
      ensures (sum, carry, overflow) == TotalOf(r, subtract, value)
    {
      var c := if r.p.b0 then 1 else 0;
      if Accumulator8(r) {
        var o;
        if subtract {
          o := Decimal.Sbc65816(r.c % 256, value % 256, c, r.p.b3);
        } else {
          o := Decimal.Adc65816(r.c % 256, value % 256, c, r.p.b3);
        }
        return o.a, o.c, o.v;
      } else {
        var n, z;
        if subtract {
          sum, carry, overflow, n, z := Decimal.Sbc65816Wide(r.c, value, c, r.p.b3);
        } else {
          sum, carry, overflow, n, z := Decimal.Adc65816Wide(r.c, value, c, r.p.b3);
        }
      }
    }

    method Use(m: Macro, d: Data)
      requires Valid() && UsesOperand(m)
      modifies `r
      ensures Valid() && r == Used(old(r), m, d)
    {
      hide Compared, BitTested, Tested, Summed;
      match m {
        case CMP => Compare(r.c, d.operand, Accumulator8(r));
        case CPX => Compare(r.x, d.operand, Index8(r));
        case CPY => Compare(r.y, d.operand, Index8(r));
        case BIT => Bit(d.operand);
        case ADC => Sum(false, d.operand);
        case SBC => Sum(true, d.operand);
        case BIT_IMM => BitImmediate(d.operand);
        case TSB => BitImmediate(d.operand);
        case TRB => BitImmediate(d.operand);
      }
    }

    method TransferWide(m: Macro)
      requires Valid() && TransfersWide(m)
      modifies `r
      ensures Valid() && r == TransferredWide(old(r), m)
    {
      hide WithNZ;
      if m == TCD {
        r := r.(d := r.c);
      } else {
        r := r.(c := if m == TDC then r.d else r.sp);
      }
      r := WithNZ(r, r.c, false);
      assert r == TransferredWide(old(r), m);
    }

    method Xba()
      requires Valid()
      modifies `r
      ensures Valid() && r == old(r).(c := Swapped(old(r).c))
    {
      var tmp := r.c % 256;
      r := r.(c := r.c - tmp + r.c / 256);
      r := r.(c := r.c % 256 + 256 * tmp);
    }

    method SetFlag(m: Macro)
      requires Valid()
      modifies `r
      ensures Valid() && r == old(r).(p := WithFlag(old(r).p, m))
    {
      r := r.(p := WithFlag(r.p, m));
    }

    method SetOrMove(m: Macro, bank: Byte)
      requires Valid()
      modifies `r
      ensures Valid() && r == SetOrMoved(old(r), m, bank)
    {
      if SetsFlag(m) {
        SetFlag(m);
      } else if m == XBA {
        Xba();
      } else if m == JMP_LONG || m == JMP_IND_LONG {
        r := r.(pbr := bank);
      }
    }

    method Simple(m: Macro, bank: Byte)
      requires Valid()
      modifies `r
      ensures Valid() && r == Simply(old(r), m, bank)
    {
      if TransfersWide(m) {
        TransferWide(m);
      } else {
        SetOrMove(m, bank);
      }
    }

    method ComputeInside(m: Macro, d: Data)
      requires Valid()
      modifies `r
      ensures Valid() && r == Internal(old(r), m, d)
    {
      if ChangesMemory(m) {
        var _ := Change(m, d.operand);
      } else if ChangesAccumulator(m) {
        ChangeAccumulator(OnMemory(m));
      } else {
        Simple(m, d.pbr);
      }
    }

    method ComputeRegisters(m: Macro, d: Data)
      requires Valid()
      modifies `r
      ensures Valid() && r == Computed(old(r), m, d)
    {
      if Assigns(m) {
        Accumulate(Assigned(r, m, d.operand));
      } else if UsesOperand(m) {
        Use(m, d);
      } else {
        ComputeInside(m, d);
      }
    }

    /** A store of one byte or of two, wherever the addressing mode puts them. */
    method StoreAt(d: Data, v: Word, bits8: bool)
      requires Sized()
      modifies ram
      ensures ram[..] == Put(old(ram[..]), d, v, bits8)
    {
      ram[d.low] := v % 256;
      if !bits8 {
        ram[d.high] := v / 256;
      }
    }

    /** STA, STX, STY, STZ, TSB and TRB. */
    method StorePlain(m: Macro, d: Data) returns (value: Word)
      requires Valid() && StoresMemory(m) && !ChangesMemory(m)
      modifies `r
      ensures Valid() && r == Computed(old(r), m, d) && value == ToStore(old(r), m, d.operand)
    {
      PlainIs(r, m, d);
      hide ToStore, Computed, Tested;
      value := ToStore(r, m, d.operand);
      if m == TSB || m == TRB {
        BitImmediate(d.operand);
      }
    }

    /** ... and the read-modify-writes. */
    method StoreResult(m: Macro, d: Data) returns (value: Word, bits8: bool)
      requires Valid() && StoresMemory(m)
      modifies `r
      ensures Valid() && r == Computed(old(r), m, d)
      ensures value == ToStore(old(r), m, d.operand) && bits8 == StoresByte(old(r), m)
    {
      bits8 := StoresByte(r, m);
      if ChangesMemory(m) {
        ChangedIs(r, m, d);
        value := Change(m, d.operand);
      } else {
        value := StorePlain(m, d);
      }
      hide Computed, ToStore, Changed, StoresByte;
    }

    method Compute(m: Macro, d: Data)
      requires Valid() && !Jumps(m) && !OnIndex(m) && !OnModes(m) && !Pulls(m) && !Pushes(m)
      modifies ram, `r
      ensures Valid() && State() == Worked(old(State()), m, d)
    {
      if StoresMemory(m) {
        var value, bits8 := StoreResult(m, d);
        StoreAt(d, value, bits8);
      } else {
        ComputeRegisters(m, d);
      }
    }

    // ---------------------------------------------------------------- any instruction

    method Index(m: Macro, operand: Word)
      requires Valid() && OnIndex(m)
      modifies `r
      ensures Valid() && r == Indexed(old(r), m, operand)
    {
      match m {
        case LDX => LoadIndex(true, operand);
        case LDY => LoadIndex(false, operand);
        case INX => CountIndex(true, true);
        case INY => CountIndex(false, true);
        case DEX => CountIndex(true, false);
        case DEY => CountIndex(false, false);
        case TAX => TransferToIndex(true, r.c);
        case TAY => TransferToIndex(false, r.c);
        case TSX => TransferToIndex(true, r.sp);
        case TXY => TransferBetweenIndexes(false);
        case TYX => TransferBetweenIndexes(true);
      }
    }

    method SetModes(m: Macro, operand: Word)
      requires Valid() && OnModes(m)
      modifies `r
      ensures Valid() && r == Moded(old(r), m, operand)
    {
      match m {
        case TXS => Txs();
        case TCS => Tcs();
        case XCE => Xce();
        case REP => RepSep(OfByte(operand % 256), false);
        case SEP => RepSep(OfByte(operand % 256), true);
      }
    }

    method PushAny(m: Macro, operand: Word)
      requires Valid()
      modifies ram, `r
      ensures Valid() && State() == AfterPush(old(State()), m, operand)
    {
      if PushesOperand(m) {
        PushWordUnwrapped(operand);
      } else {
        StoreStack(ToPush(r, m), PushesByte(r, m));
      }
    }

    method PullAccumulator()
      requires Valid()
      modifies `r
      ensures Valid() && r == PulledAccumulator(old(State()))
    {
      var v := LoadStack(Accumulator8(r));
      Accumulate(v);
    }

    method Plb()
      requires Valid()
      modifies `r
      ensures Valid() && r == AfterPull(old(State()), PLB)
    {
      var v := Pull();
      r := r.(dbr := v);
      r := WithNZ(r, v, true);
    }

    method PullAny(m: Macro)
      requires Valid() && Pulls(m)
      modifies `r
      ensures Valid() && r == AfterPull(old(State()), m)
    {
      match m {
        case PLA => PullAccumulator();
        case PLX => PullIndex(true);
        case PLY => PullIndex(false);
        case PLB => Plb();
        case PLP => Plp();
      }
    }

    method Jump(m: Macro)
      requires Valid() && Jumps(m)
      modifies ram, `r
      ensures Valid() && State() == Jumped(old(State()), m)
    {
      match m {
        case BRK => Enter(Interrupt.BRK);
        case COP_02 => Enter(Interrupt.COP);
        case IRQ => Enter(Interrupt.IRQ);
        case NMI => Enter(Interrupt.NMI);
        case RES => Res(RESET_VECTOR);
        case RTI => Rti();
        case JSR_LONG => JsrLong();
        case RTL => Rtl();
        case JSR_IND_X => JsrIndX();
        case RTS => Rts();
        case PHD => Phd();
        case PLD => Pld();
        case MVN => Move(true);
        case MVP => Move(false);
      }
    }

    method WorkOnIndex(m: Macro, d: Data)
      requires Valid() && !Jumps(m) && OnIndex(m)
      modifies `r
      ensures Valid() && State() == Worked(old(State()), m, d)
    {
      ghost var s := State();
      Index(m, d.operand);
      assert State() == s.(r := r);
    }

    method WorkOnModes(m: Macro, d: Data)
      requires Valid() && !Jumps(m) && !OnIndex(m) && OnModes(m)
      modifies `r
      ensures Valid() && State() == Worked(old(State()), m, d)
    {
      ghost var s := State();
      SetModes(m, d.operand);
      assert State() == s.(r := r);
    }

    method WorkOnPull(m: Macro, d: Data)
      requires Valid() && !Jumps(m) && !OnIndex(m) && !OnModes(m) && Pulls(m)
      modifies `r
      ensures Valid() && State() == Worked(old(State()), m, d)
    {
      ghost var s := State();
      PullAny(m);
      assert State() == s.(r := r);
    }

    method WorkOnPush(m: Macro, d: Data)
      requires Valid() && !Jumps(m) && !OnIndex(m) && !OnModes(m) && !Pulls(m) && Pushes(m)
      modifies ram, `r
      ensures Valid() && State() == Worked(old(State()), m, d)
    {
      PushAny(m, d.operand);
    }

    method Work(m: Macro, d: Data)
      requires Valid() && !Jumps(m)
      modifies ram, `r
      ensures Valid() && State() == Worked(old(State()), m, d)
    {
      if OnIndex(m) {
        WorkOnIndex(m, d);
      } else if OnModes(m) {
        WorkOnModes(m, d);
      } else if Pulls(m) {
        WorkOnPull(m, d);
      } else if Pushes(m) {
        WorkOnPush(m, d);
      } else {
        Compute(m, d);
      }
    }

    /** One case of the opcode switch. */
    method Execute(m: Macro, d: Data)
      requires Valid()
      modifies ram, `r
      ensures Valid() && State() == Executed(old(State()), m, d)
    {
      if Jumps(m) {
        Jump(m);
      } else {
        Work(m, d);
        r := r.(pc := d.pc);
      }
    }

    /** One turn of the main loop. */
    method TickOnce(t: Tick)
      requires Valid()
      modifies ram, `r
      ensures Valid() && State() == Ticked(old(State()), t)
    {
      match t {
        case Instruction(d) => var opcode := Param(0); Execute(MacroOf(opcode), d);
        case Irq => Jump(Macro.IRQ);
        case Nmi => Jump(Macro.NMI);
        case Reset => Jump(Macro.RES);
      }
    }

    /** Any run of instructions, interrupts and resets. */
    method Run(run: seq<Tick>)
      requires Valid()
      modifies ram, `r
      ensures Valid() && State() == After(old(State()), run)
    {
      for k := 0 to |run|
        invariant Valid() && After(State(), run[k..]) == After(old(State()), run)
      {
        TickOnce(run[k]);
        assert run[k..][1..] == run[k + 1..];
      }
    }
  }

  lemma TopBits(v: Byte)
    ensures v * 256 >= 0x8000 <==> v >= 0x80
    ensures v * 256 / 0x4000 == v / 0x40
  {
  }

  lemma UnsignedDifference(a: Word, b: Word)
    ensures (a - b) % 0x1_0000_0000 == if a >= b then a - b else a - b + 0x1_0000_0000
    ensures (a - b) % 0x1_0000_0000 % 256 == (a - b) % 256
    ensures (a - b) % 0x1_0000_0000 % 0x1_0000 == (a - b) % 0x1_0000
  {
  }

  /** A comparison subtracts unsigned: no borrow leaves the difference small. */
  method Difference(reg: Word, value: Word, bits8: bool) returns (carry: bool, diff: Word)
    ensures carry == (AtWidth(reg, bits8) >= AtWidth(value, bits8))
    ensures diff == AtWidth(AtWidth(reg, bits8) - AtWidth(value, bits8), bits8)
  {
    UnsignedDifference(AtWidth(reg, bits8), AtWidth(value, bits8));
    var tmp := (AtWidth(reg, bits8) - AtWidth(value, bits8)) % 0x1_0000_0000;
    carry, diff := tmp < (if bits8 then 0x100 else 0x1_0000), AtWidth(tmp, bits8);
  }

  /** A shift computes in a wider variable, where the bit above the value is the carry. */
  method LeftShift(v: Word, carry: bool, bits8: bool) returns (out: bool, value: Word)
    ensures out == (AtWidth(v, bits8) >= if bits8 then 0x80 else 0x8000)
    ensures value == AtWidth(2 * AtWidth(v, bits8) + (if carry then 1 else 0), bits8)
  {
    var tmp := 2 * AtWidth(v, bits8) + if carry then 1 else 0;
    out := if bits8 then tmp / 0x100 % 2 == 1 else tmp / 0x1_0000 % 2 == 1;
    value := AtWidth(tmp, bits8);
  }

  method RightShift(v: Word, carry: bool, bits8: bool) returns (out: bool, value: Word)
    ensures out == (v % 2 == 1)
    ensures value == AtWidth(v, bits8) / 2 + (if !carry then 0 else if bits8 then 0x80 else 0x8000)
  {
    var tmp := AtWidth(v, bits8) + if !carry then 0 else if bits8 then 0x100 else 0x1_0000;
    LowBit(v);
    out := tmp % 2 == 1;
    value := tmp / 2;
  }

  lemma LowBit(v: Word)
    ensures v % 256 % 2 == v % 2
  {
  }

  lemma NarrowedAside(r: Regs)
    ensures StatusOf(Narrowed(r)) == StatusOf(r)
  {
  }

  lemma OneDownInPage(sp: int)
    ensures PageOne(PageOne(sp) - 1) == PageOne(sp - 1)
  {
  }

  lemma ThreeDown(sp: Word)
    ensures PageOne(PageOne(PageOne(PageOne(sp) - 1) - 1) - 1) == PageOne(sp - 3)
  {
    OneDownInPage(sp);
    OneDownInPage(sp - 1);
    OneDownInPage(sp - 2);
  }

  lemma CountsUp(sp: Word, k: nat)
    requires k <= 3
    ensures Wrap16(Wrap16(sp + k) + 1) == Wrap16(sp + (k + 1))
  {
  }
}
