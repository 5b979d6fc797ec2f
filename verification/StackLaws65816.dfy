/** What the stack instructions, calls, block moves and interrupt entries of the 65816 do, said of cells
    of memory and of numbers. */
module StackLaws65816 {
  import opened ByteBits
  import opened Bitwise
  import opened Wdc65816
  import opened Opcodes65816
  import opened BlockMove
  import opened ModeRuns
  import opened Laws65816

  // ------------------------------------------------------------------ the stack

  /** The stack pointer after a push and after a pull: in emulation mode in page one. */
  function Below(r: Regs, sp: Word): Word {
    if r.e != 0 then 256 + (sp - 1) % 256 else (sp - 1) % 65536
  }

  function Above(r: Regs, sp: Word): Word {
    if r.e != 0 then 256 + (sp + 1) % 256 else (sp + 1) % 65536
  }

  lemma StackSteps(s: Core, v: Byte)
    ensures Pushed(s, v) == s.(mem := s.mem[s.r.sp := v], r := s.r.(sp := Below(s.r, s.r.sp)))
    ensures Pulled(s) == s.(r := s.r.(sp := Above(s.r, s.r.sp))) && Top(s) == s.mem[Above(s.r, s.r.sp)]
  {
  }

  /** `t` has a byte or a word pushed, the high byte first, and goes on at `pc`. */
  predicate Holds(s: Core, t: Core, v: Word, bits8: bool, pc: Word) {
    var next := Below(s.r, s.r.sp);
    && t.r == s.r.(sp := if bits8 then next else Below(s.r, next), pc := pc)
    && t.mem == if bits8 then s.mem[s.r.sp := v % 256] else s.mem[s.r.sp := v / 256][next := v % 256]
  }

  lemma BelowAlike(r: Regs, t: Regs, sp: Word)
    requires r.e == t.e
    ensures Below(r, sp) == Below(t, sp)
  {
  }

  lemma StackedIs(s: Core, v: Word, bits8: bool)
    ensures Holds(s, Stacked(s, v, bits8), v, bits8, s.r.pc)
  {
    hide Pushed, Below;
    if bits8 {
      StackSteps(s, v % 256);
    } else {
      var t := Pushed(s, v / 256);
      StackSteps(s, v / 256);
      StackSteps(t, v % 256);
      BelowAlike(t.r, s.r, t.r.sp);
    }
  }

  lemma GoneOn(s: Core, t: Core, v: Word, bits8: bool, d: Data)
    requires Holds(s, t, v, bits8, s.r.pc)
    ensures Holds(s, t.(r := t.r.(pc := d.pc)), v, bits8, d.pc)
  {
    hide Below;
  }

  predicate PushesRegister(m: Macro) {
    m == PHA || m == PHX || m == PHY || m == PHB || m == PHK || m == PHP || m == JSR
  }

  /** The byte that PHP pushes has the unused and the break bit set in emulation mode. */
  function StatusByte(r: Regs): Byte {
    if r.e != 0 then Value(StatusOf(r).(b5 := true, b4 := true)) else Value(StatusOf(r))
  }

  /** What a push pushes, and whether that is one byte. */
  function Pushing(r: Regs, m: Macro): Word {
    if m == PHA then r.c
    else if m == PHX then r.x
    else if m == PHY then r.y
    else if m == PHB then r.dbr
    else if m == PHK then r.pbr
    else if m == PHP then StatusByte(r)
    else (r.pc + 2) % 65536
  }

  predicate PushesOne(r: Regs, m: Macro) {
    if m == PHA then ByteWide(r) else if m == PHX || m == PHY then ByteIndex(r) else m != JSR
  }

  lemma PushesAlone(m: Macro)
    requires PushesRegister(m) || m == PEA || m == PEI || m == PER
    ensures Pushes(m) && !Jumps(m) && !OnIndex(m) && !OnModes(m) && !Pulls(m)
    ensures PushesOperand(m) == !PushesRegister(m)
  {
  }

  lemma PushIs(s: Core, m: Macro, d: Data)
    requires Modes(s.r) && (PushesRegister(m) || m == PEA || m == PEI || m == PER)
    ensures var t := AfterPush(s, m, d.operand); Executed(s, m, d) == t.(r := t.r.(pc := d.pc))
  {
    hide Modes, Jumps, OnIndex, OnModes, Pulls, Pushes, PushesRegister, AfterPush;
    PushesAlone(m);
  }

  lemma StatusPushedIs(r: Regs)
    requires Modes(r)
    ensures PushedStatus(r) == StatusByte(r)
  {
    hide Value;
  }

  lemma ToPushIs(r: Regs, m: Macro)
    requires Modes(r) && PushesRegister(m)
    ensures ToPush(r, m) == Pushing(r, m)
  {
    hide StatusByte, PushedStatus, Modes;
    match m {
      case PHA =>
      case PHX =>
      case PHY =>
      case PHB =>
      case PHK =>
      case PHP => StatusPushedIs(r);
      case JSR => assert ToPush(r, JSR) == (r.pc + 2) % 65536;
    }
  }

  lemma PushesByteIs(r: Regs, m: Macro)
    requires PushesRegister(m)
    ensures PushesByte(r, m) == PushesOne(r, m)
  {
    match m {
      case PHA =>
      case PHX =>
      case PHY =>
      case PHB =>
      case PHK =>
      case PHP =>
      case JSR =>
    }
  }

  /** PHA, PHX, PHY, PHB, PHK, PHP and JSR push a register, the status or the address of the last byte of
      the instruction, and change no register but SP. */
  lemma PushExact(s: Core, m: Macro, d: Data)
    requires Modes(s.r) && PushesRegister(m)
    ensures Holds(s, Executed(s, m, d), Pushing(s.r, m), PushesOne(s.r, m), d.pc)
  {
    hide Modes, Executed, PushesRegister, ToPush, PushesByte, Pushing, PushesOne, Stacked, Holds;
    PushIs(s, m, d);
    PushesAlone(m);
    ToPushIs(s.r, m);
    PushesByteIs(s.r, m);
    StackedIs(s, Pushing(s.r, m), PushesOne(s.r, m));
    GoneOn(s, AfterPush(s, m, d.operand), Pushing(s.r, m), PushesOne(s.r, m), d);
  }

  /** `t` has a word pushed of which the first byte does not stay in page one. */
  predicate HoldsUnwrapped(s: Core, t: Core, w: Word, pc: Word) {
    var next := (s.r.sp - 1) % 65536;
    && t.r == s.r.(sp := Below(s.r, next), pc := pc)
    && t.mem == s.mem[s.r.sp := w / 256][next := w % 256]
  }

  lemma UnwrappedIs(s: Core, w: Word)
    ensures HoldsUnwrapped(s, PushedWordUnwrapped(s, w), w, s.r.pc)
  {
    var t := PushedUnwrapped(s, w / 256);
    assert t == s.(mem := s.mem[s.r.sp := w / 256], r := s.r.(sp := (s.r.sp - 1) % 65536));
    hide Pushed, Below, PushedUnwrapped;
    StackSteps(t, w % 256);
    BelowAlike(t.r, s.r, t.r.sp);
  }

  /** PEA, PEI and PER push their operand. */
  lemma PushOperandExact(s: Core, m: Macro, d: Data)
    requires Modes(s.r) && (m == PEA || m == PEI || m == PER)
    ensures HoldsUnwrapped(s, Executed(s, m, d), d.operand, d.pc)
  {
    hide Modes, Executed, PushedWordUnwrapped, PushesOperand, Below, Pushes, Jumps, OnIndex, OnModes, Pulls;
    PushIs(s, m, d);
    PushesAlone(m);
    UnwrappedIs(s, d.operand);
  }

  /** The byte or the word on top of the stack, and the stack pointer behind it. */
  function Pulling(s: Core, bits8: bool): Word {
    var low := Above(s.r, s.r.sp);
    if bits8 then s.mem[low] else s.mem[low] as int + 256 * s.mem[Above(s.r, low)] as int
  }

  function PulledTo(r: Regs, bits8: bool): Word {
    if bits8 then Above(r, r.sp) else Above(r, Above(r, r.sp))
  }

  lemma AboveAlike(r: Regs, t: Regs, sp: Word)
    requires r.e == t.e
    ensures Above(r, sp) == Above(t, sp)
  {
  }

  lemma PulledIs(s: Core)
    ensures Pulled(s) == s.(r := s.r.(sp := PulledTo(s.r, true))) && Top(s) == Pulling(s, true)
    ensures Pulled(Pulled(s)) == s.(r := s.r.(sp := PulledTo(s.r, false))) && TopWord(s) == Pulling(s, false)
  {
    hide Pulled, Above, Top;
    StackSteps(s, 0);
    StackSteps(Pulled(s), 0);
    AboveAlike(Pulled(s).r, s.r, Pulled(s).r.sp);
  }

  lemma PullsAlone(m: Macro)
    requires m == PLA || m == PLX || m == PLY || m == PLB || m == PLP
    ensures Pulls(m) && !Jumps(m) && !OnIndex(m) && !OnModes(m)
  {
  }

  lemma PullIs(s: Core, m: Macro, d: Data)
    requires Modes(s.r) && Pulls(m) && (m == PLA || m == PLX || m == PLY || m == PLB || m == PLP)
    ensures Executed(s, m, d) == s.(r := AfterPull(s, m).(pc := d.pc))
  {
    hide Modes, Jumps, OnIndex, OnModes, Pulls, AfterPull;
    PullsAlone(m);
  }

  /** PLA assigns the accumulator what it finds on the stack. */
  lemma PullAccumulatorExact(s: Core, d: Data)
    requires Modes(s.r)
    ensures var t, bits8 := Executed(s, PLA, d), ByteWide(s.r);
            && Assigned8or16(s.(r := s.r.(sp := PulledTo(s.r, bits8))), t, d)
            && Part(t.r.c, bits8) == Pulling(s, bits8)
  {
    hide Modes, Pulls, Jumps, OnIndex, OnModes, Executed, Accumulated, Pulled, Top, TopWord, Pulling, PulledTo,
         Assigned8or16;
    PullsAlone(PLA);
    PullIs(s, PLA, d);
    PulledIs(s);
    var bits8 := ByteWide(s.r);
    AccumulatedIs(s.(r := s.r.(sp := PulledTo(s.r, bits8))), Pulling(s, bits8), d);
  }

  lemma PulledIndexIs(s: Core, isX: bool)
    ensures PulledIndex(s, isX)
            == IndexLoaded(s.r.(sp := PulledTo(s.r, ByteIndex(s.r))), isX, Pulling(s, ByteIndex(s.r)))
  {
    hide IndexLoaded, Pulled, Top, TopWord, Pulling, PulledTo;
    PulledIs(s);
  }

  lemma PullingInRange(s: Core, bits8: bool)
    ensures Part(Pulling(s, bits8), bits8) == Pulling(s, bits8)
  {
  }

  /** PLX and PLY. */
  lemma PullIndexExact(s: Core, m: Macro, d: Data)
    requires Modes(s.r) && (m == PLX || m == PLY)
    ensures var t, bits8 := Executed(s, m, d), ByteIndex(s.r); var v := Pulling(s, bits8);
            && t == s.(r := s.r.(x := if m == PLX then v else s.r.x, y := if m == PLX then s.r.y else v,
                                 sp := PulledTo(s.r, bits8), flagN := t.r.flagN, flagZ := t.r.flagZ, pc := d.pc))
            && Shows(t.r, v, bits8)
  {
    hide Modes, Pulls, Jumps, OnIndex, OnModes, Executed, IndexLoaded, Pulling, PulledTo, Shows, PulledIndex, Part;
    PullsAlone(m);
    PullIs(s, m, d);
    PulledIndexIs(s, m == PLX);
    var bits8 := ByteIndex(s.r);
    var r := s.r.(sp := PulledTo(s.r, bits8));
    PullingInRange(s, bits8);
    LoadedIs(r, m == PLX, Pulling(s, bits8));
    FlagsStay(IndexLoaded(r, m == PLX, Pulling(s, bits8)), s.r.c, d.pc);
  }

  /** PLB takes a byte into the data bank. */
  lemma PullBankExact(s: Core, d: Data)
    requires Modes(s.r)
    ensures var t, v := Executed(s, PLB, d), Pulling(s, true);
            && t == s.(r := s.r.(dbr := v, sp := PulledTo(s.r, true), flagN := t.r.flagN, flagZ := t.r.flagZ,
                                 pc := d.pc))
            && Shows(t.r, v, true)
  {
    hide Modes, Pulls, Jumps, OnIndex, OnModes, Executed, WithNZ, Pulled, Top, Pulling, PulledTo, Shows;
    PullsAlone(PLB);
    PullIs(s, PLB, d);
    PulledIs(s);
    FlagsOf(Pulled(s).r.(dbr := Top(s)), Top(s), true);
    FlagsStay(WithNZ(Pulled(s).r.(dbr := Top(s)), Top(s), true), s.r.c, d.pc);
  }

  lemma NarrowedIs(r: Regs, pc: Word)
    ensures var t := Narrowed(r).(pc := pc);
            && t == r.(x := Part(r.x, ByteIndex(t)), y := Part(r.y, ByteIndex(t)), pc := pc)
            && StatusOf(t) == StatusOf(r)
  {
  }

  /** PLP takes one into the status, which may narrow X and Y. */
  lemma PullStatusExact(s: Core, d: Data)
    requires Modes(s.r)
    ensures var t := Executed(s, PLP, d);
            && t == s.(r := s.r.(sp := PulledTo(s.r, true), p := t.r.p, flagN := t.r.flagN, flagZ := t.r.flagZ,
                                 x := Part(s.r.x, ByteIndex(t.r)), y := Part(s.r.y, ByteIndex(t.r)), pc := d.pc))
            && StatusOf(t.r) == OfByte(Pulling(s, true))
  {
    hide Modes, Pulls, Jumps, OnIndex, OnModes, Executed, Pulled, Top, Pulling, PulledTo, WithStatus, OfByte,
         Narrowed, ByteIndex, Part, StatusOf;
    PullsAlone(PLP);
    PullIs(s, PLP, d);
    PulledIs(s);
    StatusSet(Pulled(s).r, Top(s));
    NarrowedIs(WithStatus(Pulled(s).r, Top(s)), d.pc);
  }

  // ------------------------------------------------------------------ calls, returns and moves

  /** The byte `k` behind the PC in the program bank. */
  function Behind(s: Core, k: nat): Byte {
    s.mem[(s.r.pc + k) % 65536 + 65536 * s.r.pbr as int]
  }

  lemma BehindIs(s: Core, k: nat)
    requires k <= 3
    ensures Fetched(s, k) == Behind(s, k) && NextPc(s.r, k) == (s.r.pc + k) % 65536
  {
  }

  /** JSL pushes its bank and the address of its last byte, the first two bytes without wrapping, and fetches
      the bank of the target from the memory that the first of them leaves. */
  lemma CallLongExact(s: Core, d: Data)
    requires Modes(s.r)
    ensures var t, last: Word := Executed(s, JSR_LONG, d), (s.r.pc + 3) % 65536;
            var sp1: Word, sp2: Word := (s.r.sp - 1) % 65536, (s.r.sp - 2) % 65536;
            && t.mem == s.mem[s.r.sp := s.r.pbr][sp1 := last / 256][sp2 := last % 256]
            && t.r == s.r.(sp := Below(s.r, sp2), pc := Behind(s, 1) as int + 256 * Behind(s, 2) as int,
                           pbr := Behind(s.(mem := s.mem[s.r.sp := s.r.pbr]), 3))
  {
    var t := PushedUnwrapped(s, s.r.pbr);
    assert t == s.(mem := s.mem[s.r.sp := s.r.pbr], r := s.r.(sp := (s.r.sp - 1) % 65536));
    hide Modes, Behind, Fetched, NextPc, PushedUnwrapped, PushedWordUnwrapped, Below;
    BehindIs(s, 1);
    BehindIs(s, 2);
    BehindIs(s, 3);
    BehindIs(t, 3);
    UnwrappedIs(t, (s.r.pc + 3) % 65536);
    TwoBelow(s.r.sp);
    BelowAlike(t.r, s.r, (s.r.sp - 2) % 65536);
    SameBehind(t, s.(mem := t.mem), 3);
  }

  lemma TwoBelow(sp: Word)
    ensures ((sp - 1) % 65536 - 1) % 65536 == (sp - 2) % 65536
  {
  }

  lemma SameBehind(s: Core, t: Core, k: nat)
    requires s.mem == t.mem && s.r.pc == t.r.pc && s.r.pbr == t.r.pbr
    ensures Behind(s, k) == Behind(t, k)
  {
  }

  /** The byte `k` above SP, without wrapping in page one. */
  function Over(s: Core, k: nat): Byte {
    s.mem[(s.r.sp + k) % 65536]
  }

  lemma OverIs(s: Core, k: nat)
    requires k <= 3
    ensures s.mem[At(s, k)] == Over(s, k)
    ensures Dropped(s.r, k) == if s.r.e != 0 then 256 + (s.r.sp + k) % 256 else (s.r.sp + k) % 65536
  {
    ByteOfWrapped(s.r.sp + k);
  }

  lemma ByteOfWrapped(v: nat)
    ensures v % 65536 % 256 == v % 256
  {
    assert v == 65536 * (v / 65536) + v % 65536;
  }

  lemma Wrapped(v: nat)
    requires v < 0x2_0000
    ensures Wrap16(v) == v % 65536
  {
  }

  /** RTL takes the three bytes above SP without wrapping, and goes on one behind the address. */
  lemma ReturnLongExact(s: Core, d: Data)
    requires Modes(s.r)
    ensures var low: int, high: int := Over(s, 1), Over(s, 2);
            Executed(s, RTL, d)
            == s.(r := s.r.(sp := if s.r.e != 0 then 256 + (s.r.sp + 3) % 256 else (s.r.sp + 3) % 65536,
                            pbr := Over(s, 3), pc := (low + 256 * high + 1) % 65536))
  {
    hide Modes, Executed, At, Dropped, Over, Wrap16;
    ReturnedIs(s, d);
    OverIs(s, 1);
    OverIs(s, 2);
    OverIs(s, 3);
    Wrapped(Over(s, 1) as int + 256 * Over(s, 2) as int + 1);
  }

  lemma ReturnedIs(s: Core, d: Data)
    requires Modes(s.r)
    ensures Executed(s, RTL, d) == ReturnedLong(s)
  {
    hide Modes, ReturnedLong;
  }

  /** RTS pulls a word and goes on one behind it. */
  lemma ReturnExact(s: Core, d: Data)
    requires Modes(s.r)
    ensures Executed(s, RTS, d)
            == s.(r := s.r.(sp := PulledTo(s.r, false), pc := (Pulling(s, false) as int + 1) % 65536))
  {
    hide Modes, Pulled, TopWord, Pulling, PulledTo;
    PulledIs(s);
  }

  /** The word at an address of the program bank. */
  function Pointed(s: Core, ea: Word): Word {
    s.mem[ea + 65536 * s.r.pbr as int] as int + 256 * s.mem[(ea + 1) % 65536 + 65536 * s.r.pbr as int] as int
  }

  lemma PointedIs(s: Core, ea: Word)
    ensures Vector(s, ea) == Pointed(s, ea)
  {
  }

  /** JSR (abs,X) pushes the address of its last byte, and finds the high byte of its operand, and the
      target, in the memory that this leaves. */
  lemma CallIndirectExact(s: Core, d: Data)
    requires Modes(s.r)
    ensures var t := Executed(s, JSR_IND_X, d); var u := s.(mem := t.mem);
            && HoldsUnwrapped(s, t, (s.r.pc + 2) % 65536, t.r.pc)
            && t.r.pc == Pointed(u, (Behind(s, 1) as int + 256 * Behind(u, 2) as int + s.r.x) % 65536)
  {
    hide Modes, Executed, Behind, Fetched, NextPc, PushedWordUnwrapped, Below, Vector, Pointed;
    var t := PushedWordUnwrapped(s, (s.r.pc + 2) % 65536);
    BehindIs(s, 2);
    UnwrappedIs(s, (s.r.pc + 2) % 65536);
    CalledIndirectIs(s, d);
    SameBehind(t, s.(mem := t.mem), 2);
    SamePointed(t, s.(mem := t.mem), (Behind(s, 1) as int + 256 * Behind(t, 2) as int + s.r.x) % 65536);
  }

  lemma CalledIs(s: Core, d: Data)
    requires Modes(s.r)
    ensures Executed(s, JSR_IND_X, d) == CalledIndirect(s)
  {
    hide Modes, CalledIndirect;
  }

  lemma CalledIndirectIs(s: Core, d: Data)
    requires Modes(s.r)
    ensures var t := PushedWordUnwrapped(s, NextPc(s.r, 2));
            var ea := (Behind(s, 1) as int + 256 * Behind(t, 2) as int + s.r.x) % 65536;
            Executed(s, JSR_IND_X, d) == t.(r := t.r.(pc := Pointed(t, ea)))
  {
    hide Modes, Executed, Behind, Fetched, NextPc, PushedWordUnwrapped, Vector, Pointed, Wrap16;
    var t := PushedWordUnwrapped(s, NextPc(s.r, 2));
    CalledIs(s, d);
    BehindIs(s, 1);
    BehindIs(t, 2);
    Wrapped(Behind(s, 1) as int + 256 * Behind(t, 2) as int + s.r.x);
    PointedIs(t, (Behind(s, 1) as int + 256 * Behind(t, 2) as int + s.r.x) % 65536);
  }

  lemma SamePointed(s: Core, t: Core, ea: Word)
    requires s.mem == t.mem && s.r.pbr == t.r.pbr
    ensures Pointed(s, ea) == Pointed(t, ea)
  {
  }

  /** PHD pushes the direct register and PLD takes it back, the first byte, and all of them, without
      wrapping. */
  lemma DirectExact(s: Core, d: Data)
    requires Modes(s.r)
    ensures HoldsUnwrapped(s, Executed(s, PHD, d), s.r.d, (s.r.pc + 1) % 65536)
    ensures var t, v := Executed(s, PLD, d), Over(s, 1) as int + 256 * Over(s, 2) as int;
            && t == s.(r := s.r.(sp := if s.r.e != 0 then 256 + (s.r.sp + 2) % 256 else (s.r.sp + 2) % 65536,
                                 d := v, flagN := t.r.flagN, flagZ := t.r.flagZ, pc := (s.r.pc + 1) % 65536))
            && Shows(t.r, v, false)
  {
    hide Modes, At, Dropped, Over, NextPc, PushedWordUnwrapped, Below, WithNZ, Shows;
    BehindIs(s, 1);
    UnwrappedIs(s, s.r.d);
    OverIs(s, 1);
    OverIs(s, 2);
    var v := Over(s, 1) as int + 256 * Over(s, 2) as int;
    FlagsOf(s.r.(sp := Dropped(s.r, 2), d := v, pc := (s.r.pc + 1) % 65536), v, false);
  }

  /** The cell of operand byte `k` of a move that is not its last. */
  function Ahead(r: Regs, k: nat): nat {
    (r.pc + k + 65536 * r.pbr as int) % 0x100_0000
  }

  /** One execution of MVN or MVP: one byte from bank and X to bank and Y, the counts, and the PC only with
      the last byte. */
  lemma MoveExact(s: Core, m: Macro, d: Data)
    requires Modes(s.r) && (m == MVN || m == MVP)
    ensures var last, step := s.r.c == 0, if m == MVN then 1 else -1;
            var to := if last then Behind(s, 1) else s.mem[Ahead(s.r, 1)];
            var from := if last then Behind(s, 2) else s.mem[Ahead(s.r, 2)];
            Executed(s, m, d)
            == Core(s.r.(dbr := to, x := Cut(s.r.x + step, ByteIndex(s.r)), y := Cut(s.r.y + step, ByteIndex(s.r)),
                         c := if last then 65535 else s.r.c - 1, pc := if last then (s.r.pc + 3) % 65536 else s.r.pc),
                    s.mem[65536 * to as int + s.r.y := s.mem[65536 * from as int + s.r.x]])
  {
    hide Modes, Executed, Behind, NextPc, OperandCell, Stepped, Cut, Ahead;
    MoveIs(s, m, d);
    BehindIs(s, 3);
    OperandCells(s);
    StepsBy(s.r.x, m == MVN, ByteIndex(s.r));
    StepsBy(s.r.y, m == MVN, ByteIndex(s.r));
  }

  lemma MoveIs(s: Core, m: Macro, d: Data)
    requires Modes(s.r) && (m == MVN || m == MVP)
    ensures Executed(s, m, d) == MovedOnce(s, m == MVN)
  {
    hide Modes, MovedOnce;
  }

  lemma OperandCells(s: Core)
    ensures s.mem[OperandCell(s.r, 1, true)] == Behind(s, 1) && s.mem[OperandCell(s.r, 2, true)] == Behind(s, 2)
    ensures OperandCell(s.r, 1, false) == Ahead(s.r, 1) && OperandCell(s.r, 2, false) == Ahead(s.r, 2)
  {
  }

  lemma StepsBy(w: Word, up: bool, bits8: bool)
    ensures var v := Stepped(w, up, 1); (if bits8 then v % 256 else v) == Cut(w + (if up then 1 else -1), bits8)
  {
    CutTwice(w + (if up then 1 else -1), bits8);
  }

  // ------------------------------------------------------------------ interrupt entries and reset

  /** The status byte of an interrupt frame; the break bit only exists in emulation mode. */
  function FrameByte(r: Regs, brk: bool): Byte {
    if r.e != 0 then Value(StatusOf(r).(b5 := true, b4 := brk)) else Value(StatusOf(r))
  }

  /** The frame: in native mode the program bank, then the return address and the status. */
  function FrameOn(s: Core, returnTo: Word, brk: bool): Memory {
    var a := Below(s.r, s.r.sp);
    var b := Below(s.r, a);
    if s.r.e != 0 then s.mem[s.r.sp := returnTo / 256][a := returnTo % 256][b := FrameByte(s.r, brk)]
    else s.mem[s.r.sp := s.r.pbr][a := returnTo / 256][b := returnTo % 256][Below(s.r, b) := FrameByte(s.r, brk)]
  }

  function FrameEnd(r: Regs): Word {
    var c := Below(r, Below(r, Below(r, r.sp)));
    if r.e != 0 then c else Below(r, c)
  }

  /** The entry pushes the frame, clears D, sets I, and goes on in bank 0 at the word in the two cells from
      `vector` of the memory that the frame leaves. */
  predicate Enters(s: Core, t: Core, returnTo: Word, brk: bool, vector: Word)
    requires vector < 65535
  {
    && t.mem == FrameOn(s, returnTo, brk)
    && t.r == s.r.(sp := FrameEnd(s.r), pbr := 0, pc := t.mem[vector] as int + 256 * t.mem[vector + 1] as int,
                   p := s.r.p.(b4 := if s.r.e != 0 then brk else s.r.p.b4, b3 := false, b2 := true))
  }

  lemma WordPushedIs(s: Core, w: Word)
    ensures var a := Below(s.r, s.r.sp);
            PushedWord(s, w) == s.(mem := s.mem[s.r.sp := w / 256][a := w % 256], r := s.r.(sp := Below(s.r, a)))
  {
    hide Pushed, Below;
    var t := Pushed(s, w / 256);
    StackSteps(s, w / 256);
    StackSteps(t, w % 256);
    BelowAlike(t.r, s.r, t.r.sp);
  }

  lemma EmulationFrame(s: Core, brk: bool, returnTo: Word)
    requires Modes(s.r) && s.r.e != 0
    ensures var t := Framed(s, brk, returnTo);
            t.mem == FrameOn(s, returnTo, brk)
            && t.r == s.r.(sp := FrameEnd(s.r), p := s.r.p.(b4 := brk))
  {
    hide PushedWord, Pushed, Below, Value;
    var b := s.(r := s.r.(p := s.r.p.(b4 := brk)));
    BelowAlike(b.r, s.r, s.r.sp);
    WordPushedIs(b, returnTo);
    var t := PushedWord(b, returnTo);
    BelowAlike(b.r, s.r, Below(s.r, s.r.sp));
    StackSteps(t, EmulationStatus(t.r));
    BelowAlike(t.r, s.r, t.r.sp);
  }

  lemma NativeFrame(s: Core, brk: bool, returnTo: Word)
    requires Modes(s.r) && s.r.e == 0
    ensures var t := Framed(s, brk, returnTo);
            t.mem == FrameOn(s, returnTo, brk) && t.r == s.r.(sp := FrameEnd(s.r))
  {
    hide PushedWord, Pushed, Below, Value;
    var b := Pushed(s, s.r.pbr);
    StackSteps(s, s.r.pbr);
    BelowAlike(b.r, s.r, b.r.sp);
    WordPushedIs(b, returnTo);
    var t := PushedWord(b, returnTo);
    BelowAlike(b.r, s.r, Below(s.r, b.r.sp));
    StackSteps(t, NativeStatus(t.r));
    BelowAlike(t.r, s.r, t.r.sp);
  }

  lemma EntryExact(s: Core, kind: Interrupt)
    requires Modes(s.r)
    ensures Enters(s, Entered(s, kind), if kind.BRK? || kind.COP? then (s.r.pc + 2) % 65536 else s.r.pc,
                   kind.BRK? || kind.COP?, VectorOf(kind, s.r.e != 0))
  {
    hide Framed, FrameOn, FrameEnd, VectorOf, Modes;
    if s.r.e != 0 {
      EmulationFrame(s, IsSoftware(kind), ReturnAddress(s.r, kind));
    } else {
      NativeFrame(s, IsSoftware(kind), ReturnAddress(s.r, kind));
    }
  }

  /** An IRQ goes on at the word in 0xFFFE in emulation mode and in 0xFFEE in native mode, an NMI at the one in
      0xFFFA and in 0xFFEA, both from where the program stood. */
  lemma InterruptExact(s: Core)
    requires Modes(s.r)
    ensures Enters(s, Ticked(s, Irq), s.r.pc, false, if s.r.e != 0 then 0xfffe else 0xffee)
    ensures Enters(s, Ticked(s, Nmi), s.r.pc, false, if s.r.e != 0 then 0xfffa else 0xffea)
  {
    hide Entered, Enters, Modes;
    EntryExact(s, Interrupt.IRQ);
    EntryExact(s, Interrupt.NMI);
  }

  /** BRK shares the vector of IRQ in emulation mode and has 0xFFE6 in native mode, COP has 0xFFF4 and 0xFFE4;
      both return behind their second byte. */
  lemma SoftwareInterruptExact(s: Core, d: Data)
    requires Modes(s.r)
    ensures Enters(s, Executed(s, Macro.BRK, d), (s.r.pc + 2) % 65536, true, if s.r.e != 0 then 0xfffe else 0xffe6)
    ensures Enters(s, Executed(s, COP_02, d), (s.r.pc + 2) % 65536, true, if s.r.e != 0 then 0xfff4 else 0xffe4)
  {
    hide Entered, Enters, Modes;
    EntryExact(s, Interrupt.BRK);
    EntryExact(s, Interrupt.COP);
  }

  /** A reset goes on at the word in 0xFFFC in emulation mode, with I set and D clear, 8-bit index registers, the
      direct register and the banks zero, and SP in page one, three lower. */
  lemma ResetExact(s: Core)
    requires Modes(s.r)
    ensures Ticked(s, Reset)
            == s.(r := s.r.(e := 1, x := s.r.x % 256, y := s.r.y % 256, sp := 256 + (s.r.sp - 3) % 256, d := 0,
                            dbr := 0, pbr := 0, p := s.r.p.(b4 := false, b3 := false, b2 := true),
                            pc := s.mem[0xfffc] as int + 256 * s.mem[0xfffd] as int))
  {
    hide Modes;
  }
}
