/** RTI undoes an interrupt entry of the 65816, in both modes and wherever the stack wraps. */
module Interrupts65816 {
  import opened ByteBits
  import opened Bitwise
  import opened Wdc65816

  /** The stack pointer after `k` pushes. */
  function DownBy(r: Regs, k: nat): Word
    requires k <= 4
  {
    if Emulation(r) then PageOne(r.sp - k) else Wrap16(r.sp - k)
  }

  lemma OneDown(r: Regs, k: nat)
    requires Modes(r) && k <= 3
    ensures Down(r.(sp := DownBy(r, k))) == DownBy(r, k + 1)
    ensures Up(r.(sp := DownBy(r, k + 1))) == DownBy(r, k)
    ensures DownBy(r, 0) == r.sp
  {
    if Emulation(r) {
      PageDown(r.sp, k);
    } else {
      BankDown(r.sp, k);
    }
  }

  lemma PageDown(sp: Word, k: nat)
    ensures PageOne(PageOne(sp - k) - 1) == PageOne(sp - (k + 1))
    ensures PageOne(PageOne(sp - (k + 1)) + 1) == PageOne(sp - k)
    ensures sp / 256 == 1 ==> PageOne(sp - 0) == sp
  {
  }

  lemma BankDown(sp: Word, k: nat)
    requires k <= 3
    ensures Wrap16(Wrap16(sp - k) - 1) == Wrap16(sp - (k + 1))
    ensures Wrap16(Wrap16(sp - (k + 1)) + 1) == Wrap16(sp - k)
  {
  }

  lemma Distinct(r: Regs, j: nat, k: nat)
    requires j < k <= 3
    ensures DownBy(r, j) != DownBy(r, k)
  {
  }

  /** Bytes in the frame: the bank is only pushed in native mode. */
  function FrameSize(r: Regs): nat {
    if Emulation(r) then 3 else 4
  }

  /** The status byte of the frame. */
  function FrameStatus(r: Regs, kind: Interrupt): Byte {
    if Emulation(r) then EmulationStatus(r.(p := r.p.(b4 := IsSoftware(kind)))) else NativeStatus(r)
  }

  lemma PushAt(r: Regs, s: Core, v: Byte, k: nat)
    requires Modes(r) && k <= 3 && s.r.e == r.e && s.r.sp == DownBy(r, k)
    ensures Pushed(s, v) == s.(mem := s.mem[DownBy(r, k) := v], r := s.r.(sp := DownBy(r, k + 1)))
  {
    OneDown(r, k);
  }

  lemma PushWordAt(r: Regs, s: Core, w: Word, k: nat)
    requires Modes(r) && k <= 2 && s.r.e == r.e && s.r.sp == DownBy(r, k)
    ensures PushedWord(s, w)
            == s.(mem := s.mem[DownBy(r, k) := w / 256][DownBy(r, k + 1) := w % 256], r := s.r.(sp := DownBy(r, k + 2)))
  {
    PushAt(r, s, w / 256, k);
    PushAt(r, Pushed(s, w / 256), w % 256, k + 1);
  }

  /** What the frame of an interrupt holds, from the last byte pushed. */
  ghost predicate HasFrame(r: Regs, u: Core, w: Word, status: Byte) {
    var n := FrameSize(r);
    && u.r.sp == DownBy(r, n) && u.r.e == r.e && u.mem[DownBy(r, n - 1)] == status
    && u.mem[DownBy(r, n - 2)] == w % 256 && u.mem[DownBy(r, n - 3)] == w / 256
    && (!Emulation(r) ==> u.mem[DownBy(r, 0)] == r.pbr)
  }

  lemma EmulationFrame(s: Core, brk: bool, w: Word)
    requires Modes(s.r) && Emulation(s.r)
    ensures HasFrame(s.r, Framed(s, brk, w), w, EmulationStatus(s.r.(p := s.r.p.(b4 := brk))))
  {
    var b := s.(r := s.r.(p := s.r.p.(b4 := brk)));
    OneDown(s.r, 0);
    PushWordAt(s.r, b, w, 0);
    PushAt(s.r, PushedWord(b, w), EmulationStatus(PushedWord(b, w).r), 2);
    Distinct(s.r, 0, 1);
    Distinct(s.r, 0, 2);
    Distinct(s.r, 1, 2);
  }

  lemma NativeFrame(s: Core, brk: bool, w: Word)
    requires Modes(s.r) && !Emulation(s.r)
    ensures HasFrame(s.r, Framed(s, brk, w), w, NativeStatus(s.r))
  {
    var b := Pushed(s, s.r.pbr);
    OneDown(s.r, 0);
    PushAt(s.r, s, s.r.pbr, 0);
    PushWordAt(s.r, b, w, 1);
    PushAt(s.r, PushedWord(b, w), NativeStatus(PushedWord(b, w).r), 3);
    Distinct(s.r, 0, 1);
    Distinct(s.r, 0, 2);
    Distinct(s.r, 0, 3);
    Distinct(s.r, 1, 2);
    Distinct(s.r, 1, 3);
    Distinct(s.r, 2, 3);
  }

  lemma Frame(s: Core, kind: Interrupt)
    requires Modes(s.r)
    ensures HasFrame(s.r, Entered(s, kind), ReturnAddress(s.r, kind), FrameStatus(s.r, kind))
  {
    if Emulation(s.r) {
      EmulationFrame(s, IsSoftware(kind), ReturnAddress(s.r, kind));
    } else {
      NativeFrame(s, IsSoftware(kind), ReturnAddress(s.r, kind));
    }
  }

  lemma PullAt(r: Regs, t: Core, k: nat)
    requires Modes(r) && k <= 3 && t.r.e == r.e && t.r.sp == DownBy(r, k + 1)
    ensures Top(t) == t.mem[DownBy(r, k)] && Pulled(t).r.sp == DownBy(r, k)
  {
    OneDown(r, k);
  }

  /** `t` has the stack frame, the stack pointer and the mode of `u`. */
  ghost predicate SameFrame(r: Regs, u: Core, t: Core) {
    && t.r.sp == u.r.sp && t.r.e == u.r.e
    && forall k: nat :: k < FrameSize(r) ==> t.mem[DownBy(r, k)] == u.mem[DownBy(r, k)]
  }

  /** The machine after the status has been pulled, with the PC still on the stack. */
  function StatusPulled(t: Core): Core {
    var t1 := Pulled(t);
    t1.(r := Narrowed(WithStatus(t1.r, Top(t))))
  }

  lemma StatusPulledIs(r: Regs, t: Core, k: nat)
    requires Modes(r) && k <= 3 && t.r.e == r.e && t.r.sp == DownBy(r, k + 1)
    ensures var u := StatusPulled(t); var v := t.mem[DownBy(r, k)];
            && u.mem == t.mem && u.r.e == r.e && u.r.sp == DownBy(r, k) && u.r.pbr == t.r.pbr
            && u.r.p == WithStatus(t.r, v).p && StatusOf(u.r) == OfByte(v)
  {
    PullAt(r, t, k);
    StatusSet(Pulled(t).r, Top(t));
  }

  lemma ReturnAfterStatus(t: Core)
    ensures var u := StatusPulled(t); var v := Pulled(Pulled(u));
            ReturnedFromInterrupt(t)
            == if Emulation(t.r) then v.(r := v.r.(pc := TopWord(u)))
               else Pulled(v).(r := Pulled(v).r.(pc := TopWord(u), pbr := Top(v)))
  {
  }

  /** The rest of the return from there on. */
  lemma WordPulledIs(r: Regs, u: Core, k: nat)
    requires Modes(r) && 1 <= k <= 3 && u.r.e == r.e && u.r.sp == DownBy(r, k + 1)
    ensures TopWord(u) == WordOf(u.mem[DownBy(r, k)], u.mem[DownBy(r, k - 1)])
    ensures Pulled(Pulled(u)) == u.(r := u.r.(sp := DownBy(r, k - 1)))
  {
    PullAt(r, u, k);
    PullAt(r, Pulled(u), k - 1);
  }

  lemma ReturnReadsFrame(r: Regs, t: Core)
    requires Modes(r) && t.r.e == r.e && t.r.sp == DownBy(r, FrameSize(r))
    ensures var n := FrameSize(r); var u := ReturnedFromInterrupt(t);
            && u.r.sp == r.sp && u.r.pc == WordOf(t.mem[DownBy(r, n - 2)], t.mem[DownBy(r, n - 3)])
            && u.r.p == WithStatus(t.r, t.mem[DownBy(r, n - 1)]).p
            && StatusOf(u.r) == OfByte(t.mem[DownBy(r, n - 1)])
            && u.r.pbr == if Emulation(r) then t.r.pbr else t.mem[DownBy(r, 0)]
  {
    var n := FrameSize(r);
    var u := StatusPulled(t);
    StatusPulledIs(r, t, n - 1);
    WordPulledIs(r, u, n - 2);
    ReturnAfterStatus(t);
    OneDown(r, 0);
    if !Emulation(r) {
      PullAt(r, Pulled(Pulled(u)), 0);
    }
  }

  /** Whatever the handler does, as long as it leaves SP, the mode and the frame: RTI resumes at the
      return address with the stack pointer and the status as they were, M and X included, and in
      native mode in the same bank.  In emulation mode the break bit reads as the frame has it and the
      unused bit as set. */
  lemma InterruptUndone(s: Core, kind: Interrupt, t: Core)
    requires Modes(s.r) && SameFrame(s.r, Entered(s, kind), t)
    ensures var u := ReturnedFromInterrupt(t);
            && u.r.pc == ReturnAddress(s.r, kind) && u.r.sp == s.r.sp
            && (!Emulation(s.r) ==> u.r.pbr == s.r.pbr && StatusOf(u.r) == StatusOf(s.r))
            && (Emulation(s.r) ==> StatusOf(u.r) == StatusOf(s.r).(b5 := true, b4 := IsSoftware(kind)))
  {
    Frame(s, kind);
    ReturnReadsFrame(s.r, t);
    Joined(ReturnAddress(s.r, kind));
    StatusPushed(s.r, kind);
  }

  lemma StatusPushed(r: Regs, kind: Interrupt)
    requires Modes(r)
    ensures OfByte(FrameStatus(r, kind))
            == if Emulation(r) then StatusOf(r).(b5 := true, b4 := IsSoftware(kind)) else StatusOf(r)
  {
    OfByteValue(StatusOf(r));
    OfByteValue(StatusOf(r).(b5 := true, b4 := IsSoftware(kind)));
  }
}
