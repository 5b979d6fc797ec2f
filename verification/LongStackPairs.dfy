/** JSL/RTL, JSR (abs,X)/RTS and PHD/PLD undo each other although their intermediate stack pointer is
    not wrapped: always in native mode, and in emulation mode exactly from a certain SP upwards. */
module LongStackPairs {
  import opened ByteBits
  import opened Bitwise
  import opened Wdc65816

  /** The cells that the three bytes from SP downwards occupy, without wrapping into page one. */
  function Below(sp: Word, k: nat): Word
    requires k <= 3
  {
    Wrap16(sp - k)
  }

  lemma UpAndDown(sp: Word, k: nat, j: nat)
    requires k <= j <= 3
    ensures Wrap16(Wrap16(sp - j) + k) == Below(sp, j - k)
  {
  }

  lemma DistinctCells(sp: Word)
    ensures Below(sp, 0) == sp && Below(sp, 1) != sp && Below(sp, 2) != sp && Below(sp, 1) != Below(sp, 2)
    ensures Below(Below(sp, 1), 1) == Below(sp, 2) && Below(Below(sp, 2), 1) == Below(sp, 3)
  {
  }

  /** `t` has the stack bytes and the stack pointer of `s`. */
  ghost predicate SameStack(s: Core, t: Core, sp: Word, n: nat)
    requires n <= 4
  {
    t.r.sp == s.r.sp && t.r.e == s.r.e && forall k | 0 <= k < n :: t.mem[Below(sp, k)] == s.mem[Below(sp, k)]
  }

  /** SP after `n` pushes of which only the last wraps, and where it stays in page one. */
  function AfterPushes(r: Regs, n: nat): Word
    requires 1 <= n <= 3
  {
    if Emulation(r) then PageOne(Below(r.sp, n - 1) - 1) else Below(r.sp, n)
  }

  predicate Safe(r: Regs, n: nat) {
    Emulation(r) ==> r.sp >= 0x100 + n
  }

  lemma SafeStays(r: Regs, n: nat)
    requires Modes(r) && Safe(r, n) && 1 <= n <= 3
    ensures AfterPushes(r, n) == Below(r.sp, n)
  {
  }

  lemma SafeReturns(r: Regs, t: Regs, n: nat)
    requires Modes(r) && Safe(r, n) && 1 <= n <= 3 && t.e == r.e && t.sp == Below(r.sp, n)
    ensures Dropped(t, n) == r.sp
  {
    UpAndDown(r.sp, n, n);
  }

  lemma WordPushed(t: Core, w: Word)
    ensures PushedWordUnwrapped(t, w)
            == Core(t.r.(sp := Down(t.r.(sp := Below(t.r.sp, 1)))),
                    t.mem[t.r.sp := w / 256][Below(t.r.sp, 1) := w % 256])
  {
  }

  lemma PushedTwo(s: Core, w: Word)
    requires Modes(s.r)
    ensures var t := PushedWordUnwrapped(s, w);
            t.mem[s.r.sp] == w / 256 && t.mem[Below(s.r.sp, 1)] == w % 256
            && t.r == s.r.(sp := AfterPushes(s.r, 2))
  {
    WordPushed(s, w);
    DistinctCells(s.r.sp);
  }

  // ------------------------------------------------------------------ PHD / PLD

  lemma DirectPullOf(r: Regs, u: Core, t: Core, w: Word)
    requires Modes(r) && Safe(r, 2) && SameStack(u, t, r.sp, 2)
    requires u.mem[r.sp] == w / 256 && u.mem[Below(r.sp, 1)] == w % 256
    requires u.r.sp == AfterPushes(r, 2) && u.r.e == r.e
    ensures var v := DirectPulled(t); v.r.d == w && v.r.sp == r.sp
  {
    SafeStays(r, 2);
    SafeReturns(r, t.r, 2);
    UpAndDown(r.sp, 1, 2);
    UpAndDown(r.sp, 2, 2);
    assert Below(r.sp, 0) == r.sp;
    assert t.mem[At(t, 1)] == w % 256 && t.mem[At(t, 2)] == w / 256;
    Joined(w);
  }

  /** What lies between may do anything that keeps SP, the mode and the pushed bytes. */
  lemma DirectPairUndone(s: Core, t: Core)
    requires Modes(s.r) && Safe(s.r, 2) && SameStack(DirectPushed(s), t, s.r.sp, 2)
    ensures var u := DirectPulled(t); u.r.d == s.r.d && u.r.sp == s.r.sp
  {
    PushedTwo(s, s.r.d);
    DirectPullOf(s.r, DirectPushed(s), t, s.r.d);
  }

  // ------------------------------------------------------------------ JSL / RTL

  lemma LongCallPushes(s: Core)
    requires Modes(s.r)
    ensures var t := CalledLong(s); var next := NextPc(s.r, 3);
            t.mem[s.r.sp] == s.r.pbr && t.mem[Below(s.r.sp, 1)] == next / 256 && t.mem[Below(s.r.sp, 2)] == next % 256
            && t.r.sp == AfterPushes(s.r, 3) && t.r.e == s.r.e
  {
    var b, next := PushedUnwrapped(s, s.r.pbr), NextPc(s.r, 3);
    WordPushed(b, next);
    DistinctCells(s.r.sp);
    CalledBy(s);
  }

  lemma CalledBy(s: Core)
    ensures var u := PushedWordUnwrapped(PushedUnwrapped(s, s.r.pbr), NextPc(s.r, 3));
            CalledLong(s).mem == u.mem && CalledLong(s).r.sp == u.r.sp && CalledLong(s).r.e == u.r.e
  {
  }

  lemma LongReturnReads(r: Regs, t: Core)
    requires Modes(r) && Safe(r, 3) && t.r.sp == AfterPushes(r, 3) && t.r.e == r.e
    ensures At(t, 1) == Below(r.sp, 2) && At(t, 2) == Below(r.sp, 1) && At(t, 3) == r.sp
    ensures Dropped(t.r, 3) == r.sp
  {
    SafeStays(r, 3);
    SafeReturns(r, t.r, 3);
    UpAndDown(r.sp, 1, 3);
    UpAndDown(r.sp, 2, 3);
    UpAndDown(r.sp, 3, 3);
  }

  lemma LongReturnOf(r: Regs, u: Core, t: Core, w: Word, bank: Byte)
    requires Modes(r) && Safe(r, 3) && SameStack(u, t, r.sp, 3)
    requires u.mem[r.sp] == bank && u.mem[Below(r.sp, 1)] == w / 256 && u.mem[Below(r.sp, 2)] == w % 256
    requires u.r.sp == AfterPushes(r, 3) && u.r.e == r.e
    ensures var v := ReturnedLong(t); v.r.pc == Wrap16(w + 1) && v.r.pbr == bank && v.r.sp == r.sp
  {
    LongReturnReads(r, t);
    assert Below(r.sp, 0) == r.sp;
    assert t.mem[At(t, 1)] == w % 256 && t.mem[At(t, 2)] == w / 256 && t.mem[At(t, 3)] == bank;
    Joined(w);
  }

  /** RTL resumes after the JSL, in the bank it came from. */
  lemma LongCallUndone(s: Core, t: Core)
    requires Modes(s.r) && Safe(s.r, 3) && SameStack(CalledLong(s), t, s.r.sp, 3)
    ensures var u := ReturnedLong(t); u.r.pc == NextPc(s.r, 4) && u.r.pbr == s.r.pbr && u.r.sp == s.r.sp
  {
    LongCallPushes(s);
    LongReturnOf(s.r, CalledLong(s), t, NextPc(s.r, 3), s.r.pbr);
    OneFurther(s.r.pc, 3);
  }

  lemma OneFurther(pc: Word, k: nat)
    requires k <= 3
    ensures Wrap16(Wrap16(pc + k) + 1) == Wrap16(pc + (k + 1))
  {
  }

  // ------------------------------------------------------------------ JSR (abs,X) / RTS

  lemma IndirectCallPushes(s: Core)
    requires Modes(s.r)
    ensures var t := CalledIndirect(s); var next := NextPc(s.r, 2);
            t.mem[s.r.sp] == next / 256 && t.mem[Below(s.r.sp, 1)] == next % 256
            && t.r.sp == AfterPushes(s.r, 2) && t.r.e == s.r.e && t.r.pbr == s.r.pbr
  {
    PushedTwo(s, NextPc(s.r, 2));
  }

  lemma UpInPage(sp: int)
    ensures PageOne(PageOne(sp) + 1) == PageOne(sp + 1)
  {
  }

  lemma WithinPage(sp: int)
    requires 0x100 <= sp < 0x200
    ensures PageOne(sp) == sp
  {
  }

  lemma PullsFollowInPage(r: Regs, t: Regs)
    requires Emulation(r) && 0x101 <= r.sp < 0x200 && t.e == r.e && t.sp == PageOne(r.sp - 2)
    ensures Up(t) == r.sp - 1 && Up(t.(sp := r.sp - 1)) == r.sp
  {
    UpInPage(r.sp - 2);
    WithinPage(r.sp - 1);
    WithinPage(r.sp);
  }

  lemma PullsFollowInBank(r: Regs, t: Regs)
    requires !Emulation(r) && t.e == r.e && t.sp == Below(r.sp, 2)
    ensures Up(t) == Below(r.sp, 1) && Up(t.(sp := Below(r.sp, 1))) == r.sp
  {
    UpAndDown(r.sp, 1, 2);
    UpAndDown(r.sp, 1, 1);
  }

  /** Wrapping pulls find the bytes as long as the second one did not leave page one. */
  lemma PullsFollow(r: Regs, t: Regs)
    requires Modes(r) && Safe(r, 1) && t.e == r.e && t.sp == AfterPushes(r, 2)
    ensures Up(t) == Below(r.sp, 1) && Up(t.(sp := Up(t))) == r.sp
  {
    if Emulation(r) {
      assert Below(r.sp, 1) == r.sp - 1;
      PullsFollowInPage(r, t);
    } else {
      PullsFollowInBank(r, t);
    }
  }

  lemma ReturnOf(r: Regs, u: Core, t: Core, w: Word)
    requires Modes(r) && Safe(r, 1) && SameStack(u, t, r.sp, 2)
    requires u.mem[r.sp] == w / 256 && u.mem[Below(r.sp, 1)] == w % 256
    requires u.r.sp == AfterPushes(r, 2) && u.r.e == r.e
    ensures var v := Returned(t); v.r.pc == Wrap16(w + 1) && v.r.sp == r.sp && v.r.pbr == t.r.pbr
  {
    PullsFollow(r, t.r);
    assert Below(r.sp, 0) == r.sp;
    assert TopWord(t) == WordOf(w % 256, w / 256);
    Joined(w);
  }

  lemma IndirectCallUndone(s: Core, t: Core)
    requires Modes(s.r) && Safe(s.r, 1) && SameStack(CalledIndirect(s), t, s.r.sp, 2)
    ensures var u := Returned(t); u.r.pc == NextPc(s.r, 3) && u.r.pbr == t.r.pbr && u.r.sp == s.r.sp
  {
    IndirectCallPushes(s);
    ReturnOf(s.r, CalledIndirect(s), t, NextPc(s.r, 2));
    OneFurther(s.r.pc, 2);
  }

  // ------------------------------------------------------------------ the bounds are exact

  predicate LongCallReturnsFrom(s: Core) {
    var u := ReturnedLong(CalledLong(s)); u.r.pc == NextPc(s.r, 4) && u.r.pbr == s.r.pbr && u.r.sp == s.r.sp
  }

  ghost predicate LongCallsReturn(e: bool, sp: Word) {
    forall s: Core :: Modes(s.r) && Emulation(s.r) == e && s.r.sp == sp ==> LongCallReturnsFrom(s)
  }

  predicate IndirectCallReturnsFrom(s: Core) {
    var u := Returned(CalledIndirect(s)); u.r.pc == NextPc(s.r, 3) && u.r.pbr == s.r.pbr && u.r.sp == s.r.sp
  }

  ghost predicate IndirectCallsReturn(e: bool, sp: Word) {
    forall s: Core :: Modes(s.r) && Emulation(s.r) == e && s.r.sp == sp ==> IndirectCallReturnsFrom(s)
  }

  predicate DirectPairRestoresFrom(s: Core) {
    var u := DirectPulled(DirectPushed(s)); u.r.d == s.r.d && u.r.sp == s.r.sp
  }

  ghost predicate DirectPairsRestore(e: bool, sp: Word) {
    forall s: Core :: Modes(s.r) && Emulation(s.r) == e && s.r.sp == sp ==> DirectPairRestoresFrom(s)
  }

  /** Zeroed memory, PC at 0x1000 and a direct register of 0x1234, in emulation mode. */
  function Witness(sp: Word): Core {
    Core(Regs(0, 0, 0, sp, 0x1234, 0, 0, 0x1000, 1, ZERO, 0, 0), seq(0x100_0000, _ => 0))
  }

  lemma HighByteZero(t: Core)
    requires t.mem[At(t, 2)] == 0
    ensures ReturnedLong(t).r.pc <= 0x100
  {
  }

  lemma LowByteZero(t: Core)
    requires Top(t) == 0
    ensures Returned(t).r.pc % 256 == 1
  {
  }

  /** Too low in page one, RTL takes the high byte of the PC from a cell that JSL has not written. */
  lemma LongReturnMisses(s: Core)
    requires Modes(s.r) && Emulation(s.r) && s.r.sp < 0x103
    ensures var t := CalledLong(s); t.mem[At(t, 2)] == s.mem[At(t, 2)]
  {
    LongCallPushes(s);
    MissedCell(s.r.sp);
  }

  lemma MissedCell(sp: Word)
    requires 0x100 <= sp < 0x103
    ensures Wrap16(PageOne(Below(sp, 2) - 1) + 2) !in {sp, Below(sp, 1), Below(sp, 2)}
  {
  }

  /** At the bottom of page one, RTS takes the low byte of the PC from a cell not written. */
  lemma IndirectReturnMisses(s: Core)
    requires Modes(s.r) && Emulation(s.r) && s.r.sp == 0x100
    ensures Up(CalledIndirect(s).r) == 0x1ff && CalledIndirect(s).mem[0x1ff] == s.mem[0x1ff]
  {
    IndirectCallPushes(s);
    assert AfterPushes(s.r, 2) == 0x1fe;
    assert PageOne(0x1fe + 1) == 0x1ff;
    assert Below(s.r.sp, 1) == 0xff;
  }

  lemma LongCallLost(s: Core)
    requires Modes(s.r) && Emulation(s.r) && s.r.sp < 0x103 && s.r.pc == 0x1000
    requires forall a: nat :: a < 0x100_0000 ==> s.mem[a] == 0
    ensures ReturnedLong(CalledLong(s)).r.pc != NextPc(s.r, 4)
  {
    LongReturnMisses(s);
    HighByteZero(CalledLong(s));
  }

  lemma IndirectCallLost(s: Core)
    requires Modes(s.r) && Emulation(s.r) && s.r.sp == 0x100 && s.r.pc == 0x1000
    requires forall a: nat :: a < 0x100_0000 ==> s.mem[a] == 0
    ensures Returned(CalledIndirect(s)).r.pc != NextPc(s.r, 3)
  {
    IndirectReturnMisses(s);
    LowByteZero(CalledIndirect(s));
  }

  /** Too low in page one, PLD takes the low byte from a cell that PHD has not written. */
  lemma DirectPairLost(s: Core)
    requires Modes(s.r) && Emulation(s.r) && s.r.sp < 0x102 && s.r.d == 0x1234
    requires forall a: nat :: a < 0x100_0000 ==> s.mem[a] == 0
    ensures DirectPulled(DirectPushed(s)).r.d != s.r.d
  {
    PushedTwo(s, s.r.d);
    MissedByPld(s.r.sp);
    LowByteOfD(DirectPushed(s));
  }

  lemma MissedByPld(sp: Word)
    requires 0x100 <= sp < 0x102
    ensures Wrap16(PageOne(Below(sp, 1) - 1) + 1) !in {sp, Below(sp, 1)}
  {
  }

  lemma LowByteOfD(t: Core)
    requires t.mem[At(t, 1)] == 0
    ensures DirectPulled(t).r.d != 0x1234
  {
    NoLowByte(t.mem[At(t, 2)]);
  }

  lemma NoLowByte(high: Byte)
    ensures WordOf(0, high) != 0x1234
  {
  }

  // ------------------------------------------------------------------ the exact bounds

  lemma LongCallReturns(s: Core)
    requires Modes(s.r) && Safe(s.r, 3)
    ensures var u := ReturnedLong(CalledLong(s));
            u.r.pc == NextPc(s.r, 4) && u.r.pbr == s.r.pbr && u.r.sp == s.r.sp
  {
    LongCallUndone(s, CalledLong(s));
  }

  lemma IndirectCallReturns(s: Core)
    requires Modes(s.r) && Safe(s.r, 1)
    ensures var u := Returned(CalledIndirect(s));
            u.r.pc == NextPc(s.r, 3) && u.r.pbr == s.r.pbr && u.r.sp == s.r.sp
  {
    IndirectCallPushes(s);
    IndirectCallUndone(s, CalledIndirect(s));
  }

  lemma DirectPairReturns(s: Core)
    requires Modes(s.r) && Safe(s.r, 2)
    ensures var u := DirectPulled(DirectPushed(s)); u.r.d == s.r.d && u.r.sp == s.r.sp
  {
    PushedTwo(s, s.r.d);
    DirectPairUndone(s, DirectPushed(s));
  }

  lemma LongCallExact(e: bool, sp: Word)
    requires e ==> sp / 256 == 1
    ensures LongCallsReturn(e, sp) <==> !e || sp >= 0x103
  {
    if !e || sp >= 0x103 {
      forall s: Core | Modes(s.r) && Emulation(s.r) == e && s.r.sp == sp
        ensures LongCallReturnsFrom(s)
      {
        LongCallReturns(s);
      }
    } else {
      LongCallLost(Witness(sp));
      assert !LongCallReturnsFrom(Witness(sp));
    }
  }

  lemma IndirectCallExact(e: bool, sp: Word)
    requires e ==> sp / 256 == 1
    ensures IndirectCallsReturn(e, sp) <==> !e || sp >= 0x101
  {
    if !e || sp >= 0x101 {
      forall s: Core | Modes(s.r) && Emulation(s.r) == e && s.r.sp == sp
        ensures IndirectCallReturnsFrom(s)
      {
        IndirectCallReturns(s);
      }
    } else {
      IndirectCallLost(Witness(sp));
      assert !IndirectCallReturnsFrom(Witness(sp));
    }
  }

  lemma DirectPairExact(e: bool, sp: Word)
    requires e ==> sp / 256 == 1
    ensures DirectPairsRestore(e, sp) <==> !e || sp >= 0x102
  {
    if !e || sp >= 0x102 {
      forall s: Core | Modes(s.r) && Emulation(s.r) == e && s.r.sp == sp
        ensures DirectPairRestoresFrom(s)
      {
        DirectPairReturns(s);
      }
    } else {
      DirectPairLost(Witness(sp));
      assert !DirectPairRestoresFrom(Witness(sp));
    }
  }
}
