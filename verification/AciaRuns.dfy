/** Whole runs of the ACIA: register accesses, alarms firing when due, resets and rebased clocks, in
    any order. */
module AciaRuns {
  import opened Clocks
  import opened Options
  import opened ByteBits
  import opened AciaModel
  import opened AciaSnapshot

  datatype Event =
    | WriteEvent(clk: Clock, addr: nat, byte: Bits, rmw: bool, openOk: bool, openOk2: bool)
    | ReadEvent(clk: Clock, addr: nat, dsr: bool)
    | TransmitEvent(clk: Clock)
    | ReceiveEvent(clk: Clock, input: Option<Bits>)
    | ResetEvent(clk: Clock)
    | RebaseEvent(clk: Clock, sub: Clock)   // `sub` is taken off every clock
    | OtherEvent(clk: Clock)                // another chip sets or unsets alarms of its own

  /** What an event takes off the clock, and the clock after it. */
  function Sub(e: Event): Clock {
    if e.RebaseEvent? then e.sub else 0
  }

  function Later(e: Event): Clock {
    Wrap(e.clk - Sub(e))
  }

  function Earlier(at: Option<Clock>, sub: Clock): Option<Clock> {
    match at
    case None => None
    case Some(deadline) => Some(Wrap(deadline - sub))
  }

  function Step(cfg: Config, s: State, e: Event): State {
    match e
    case WriteEvent(clk, addr, byte, rmw, openOk, openOk2) =>
      Store(cfg, s, addr, byte, clk, rmw, openOk, openOk2)
    case ReadEvent(_, addr, dsr) => s.(r := Read(cfg, s.r, addr, dsr))
    case TransmitEvent(clk) => TransmitAlarm(cfg, s, clk)
    case ReceiveEvent(clk, input) => ReceiveAlarm(cfg, s, clk, input)
    case ResetEvent(_) => HardwareReset(cfg, s)
    case RebaseEvent(_, sub) => s.(txAt := Earlier(s.txAt, sub), rxAt := Earlier(s.rxAt, sub))
    case OtherEvent(_) => s
  }

  /** An alarm event happens only at or after its queued deadline. */
  predicate Enabled(s: State, e: Event) {
    match e
    case TransmitEvent(clk) => s.txAt.Some? && s.txAt.value <= clk
    case ReceiveEvent(clk, _) => s.rxAt.Some? && s.rxAt.value <= clk
    case _ => true
  }

  predicate NotBefore(at: Option<Clock>, clk: Clock) {
    at.Some? ==> clk <= at.value
  }

  /** The clock guard keeps a transmit deadline inside the 32-bit clock, at both ends. */
  predicate NoWrap(s: State, e: Event) {
    match e
    case TransmitEvent(clk) => clk + s.r.ticks < MODULUS
    case WriteEvent(clk, _, _, _, _, _) => 1 <= clk && clk + 1 < MODULUS
    case RebaseEvent(clk, sub) => sub <= clk && NotBefore(s.txAt, sub) && NotBefore(s.rxAt, sub)
    case _ => true
  }

  datatype Run = Run(cfg: Config, start: State, events: seq<Event>) {
    function At(i: nat): State
      requires i <= |events|
    {
      if i == 0 then start else Step(cfg, At(i - 1), events[i - 1])
    }

    /** What has been taken off the clock before event `i`, and the time of the event had it not been. */
    function Base(i: nat): nat
      requires i <= |events|
    {
      if i == 0 then 0 else Base(i - 1) + Sub(events[i - 1])
    }

    function Time(i: nat): nat
      requires i < |events|
    {
      Base(i) + events[i].clk
    }

    /** Every event is possible where it happens, and time never goes back. */
    ghost predicate Legal() {
      forall i: nat :: i < |events| ==> PossibleAt(i)
    }

    predicate PossibleAt(i: nat)
      requires i < |events|
    {
      && Enabled(At(i), events[i]) && NoWrap(At(i), events[i])
      && (i > 0 ==> Later(events[i - 1]) <= events[i].clk)
    }

    predicate SendsAt(i: nat)
      requires i < |events|
    {
      Sends(At(i), events[i])
    }

    predicate CancelsAt(i: nat)
      requires i < |events|
    {
      Cancels(cfg, At(i), events[i])
    }
  }

  // ------------------------------------------------------------------ what every step keeps

  /** What holds between calls once the chip has been reset. */
  predicate Safe(cfg: Config, s: State) {
    match s
    case State(r, txAt, _) =>
      && NO_TRANSMIT <= r.inTx <= DR_WRITTEN
      && (txAt.Some? ==> r.inTx != NO_TRANSMIT)
      && (r.inTx == DR_WRITTEN ==> !r.status.b4)
      && (r.fdOpen ==> Dtr(r.cmd))
      && !r.status.b7
      && (cfg.wired ==> r.line == r.irq)
      && 0 <= r.ticks && r.ticksRx == r.ticks * 5 / 4
  }

  lemma ResetIsSafe(cfg: Config, s: State)
    ensures Safe(cfg, HardwareReset(cfg, s))
  {
  }

  lemma HandshakeKeepsSafe(cfg: Config, s: State, clk: Clock)
    requires Safe(cfg, s)
    ensures Safe(cfg, WithHandshake(cfg, s, clk))
    ensures var t := WithHandshake(cfg, s, clk); t.r.cmd == s.r.cmd && t.r.fdOpen == s.r.fdOpen
  {
  }

  lemma CommandKeepsSafe(cfg: Config, s: State, byte: Bits, clk: Clock, openOk: bool)
    requires Safe(cfg, s)
    ensures Safe(cfg, WriteCommand(cfg, s, byte, clk, openOk))
  {
    hide Ticks;
    // Between the register write and the open or close, the port may be open with DTR off.
    var t := s.(r := s.r.(cmd := byte, fdOpen := false));
    HandshakeKeepsSafe(cfg, t, clk);
  }

  lemma WriteKeepsSafe(cfg: Config, s: State, addr: nat, byte: Bits, clk: Clock, openOk: bool)
    requires Safe(cfg, s)
    ensures Safe(cfg, Write(cfg, s, addr, byte, clk, openOk))
  {
    var n := Decode(cfg.mode, addr);
    if n == CMD {
      CommandKeepsSafe(cfg, s, byte, clk, openOk);
    } else if n == SR {
      HandshakeKeepsSafe(cfg, State(ResetRegs(cfg, s.r), None, s.rxAt), clk);
    }
  }

  lemma StepKeepsSafe(cfg: Config, s: State, e: Event)
    requires Safe(cfg, s)
    ensures Safe(cfg, Step(cfg, s, e))
  {
    match e
    case WriteEvent(clk, addr, byte, rmw, openOk, openOk2) =>
      StoreKeepsSafe(cfg, s, addr, byte, clk, rmw, openOk, openOk2);
    case ReadEvent(_, addr, dsr) => ReadKeepsSafe(cfg, s, addr, dsr);
    case TransmitEvent(clk) => TransmitKeepsSafe(cfg, s, clk);
    case ReceiveEvent(clk, input) => ReceiveKeepsSafe(cfg, s, clk, input);
    case ResetEvent(_) => ResetIsSafe(cfg, s);
    case RebaseEvent(_, _) =>
    case OtherEvent(_) =>
  }

  lemma ReadKeepsSafe(cfg: Config, s: State, addr: nat, dsr: bool)
    requires Safe(cfg, s)
    ensures Safe(cfg, s.(r := Read(cfg, s.r, addr, dsr)))
  {
  }

  lemma TransmitKeepsSafe(cfg: Config, s: State, clk: Clock)
    requires Safe(cfg, s)
    ensures Safe(cfg, TransmitAlarm(cfg, s, clk))
  {
  }

  lemma ReceiveKeepsSafe(cfg: Config, s: State, clk: Clock, input: Option<Bits>)
    requires Safe(cfg, s)
    ensures Safe(cfg, ReceiveAlarm(cfg, s, clk, input))
  {
  }

  lemma StoreKeepsSafe(cfg: Config, s: State, addr: nat, byte: Bits, clk: Clock, rmw: bool,
                       openOk: bool, openOk2: bool)
    requires Safe(cfg, s)
    ensures Safe(cfg, Store(cfg, s, addr, byte, clk, rmw, openOk, openOk2))
  {
    var t := if rmw then Write(cfg, s, addr, s.r.lastRead, Wrap(clk - 1), openOk) else s;
    if rmw {
      WriteKeepsSafe(cfg, s, addr, s.r.lastRead, Wrap(clk - 1), openOk);
    }
    WriteKeepsSafe(cfg, t, addr, byte, clk, openOk2);
  }

  lemma {:induction false} RunKeepsSafe(run: Run, i: nat)
    requires Safe(run.cfg, run.start) && i <= |run.events|
    ensures Safe(run.cfg, run.At(i))
  {
    if i > 0 {
      RunKeepsSafe(run, i - 1);
      StepKeepsSafe(run.cfg, run.At(i - 1), run.events[i - 1]);
    }
  }

  // ------------------------------------------------------------------ transmit spacing

  /** The event hands a byte to the serial driver. */
  predicate Sends(s: State, e: Event) {
    e.TransmitEvent? && Transmits(s.r).Some?
  }

  /** Resets and command writes with DTR off cancel the character being sent. */
  predicate Cancels(cfg: Config, s: State, e: Event) {
    match e
    case WriteEvent(_, addr, byte, rmw, _, _) =>
      var n := Decode(cfg.mode, addr);
      n == SR || (n == CMD && (!Dtr(byte) || (rmw && !Dtr(s.r.lastRead))))
    case ResetEvent(_) => true
    case _ => false
  }

  /** Nothing can be sent before `bound`: the transmit alarm is set for later, or it is idle and the
      time has passed. */
  predicate HeldUntil(s: State, now: Clock, bound: int) {
    match s.txAt
    case Some(deadline) => bound <= deadline
    case None => bound <= now
  }

  lemma WriteHolds(cfg: Config, s: State, addr: nat, byte: Bits, clk: Clock, openOk: bool,
                   now: Clock, later: Clock, bound: int)
    requires HeldUntil(s, now, bound) && now <= later && now <= clk + 1 < MODULUS
    requires Decode(cfg.mode, addr) != SR && (Decode(cfg.mode, addr) == CMD ==> Dtr(byte))
    ensures HeldUntil(Write(cfg, s, addr, byte, clk, openOk), later, bound)
  {
  }

  lemma StoreHolds(cfg: Config, s: State, addr: nat, byte: Bits, clk: Clock, rmw: bool,
                   openOk: bool, openOk2: bool, now: Clock, bound: int)
    requires HeldUntil(s, now, bound) && now <= clk && 1 <= clk && clk + 1 < MODULUS
    requires var n := Decode(cfg.mode, addr);
             n != SR && (n == CMD ==> Dtr(byte) && (rmw ==> Dtr(s.r.lastRead)))
    ensures HeldUntil(Store(cfg, s, addr, byte, clk, rmw, openOk, openOk2), clk, bound)
  {
    var t := if rmw then Write(cfg, s, addr, s.r.lastRead, Wrap(clk - 1), openOk) else s;
    if rmw {
      WriteHolds(cfg, s, addr, s.r.lastRead, Wrap(clk - 1), openOk, now, clk, bound);
    }
    WriteHolds(cfg, t, addr, byte, clk, openOk2, if rmw then clk else now, clk, bound);
  }

  lemma TransmitHolds(cfg: Config, s: State, clk: Clock, now: Clock, bound: int)
    requires HeldUntil(s, now, bound) && now <= clk && s.txAt.Some? && s.txAt.value <= clk
    requires 0 <= s.r.ticks && clk + s.r.ticks < MODULUS
    ensures HeldUntil(TransmitAlarm(cfg, s, clk), clk, bound)
  {
  }

  lemma RebaseHolds(s: State, clk: Clock, sub: Clock, now: Clock, bound: int)
    requires HeldUntil(s, now, bound) && now <= clk && sub <= clk && NotBefore(s.txAt, sub)
    ensures HeldUntil(s.(txAt := Earlier(s.txAt, sub), rxAt := Earlier(s.rxAt, sub)), Wrap(clk - sub), bound - sub)
  {
    NotWrapped(clk, sub);
    if s.txAt.Some? {
      NotWrapped(s.txAt.value, sub);
    }
  }

  lemma NotWrapped(clk: Clock, sub: Clock)
    requires sub <= clk
    ensures Wrap(clk - sub) == clk - sub
  {
  }

  lemma StepHolds(cfg: Config, s: State, e: Event, now: Clock, bound: int)
    requires HeldUntil(s, now, bound) && now <= e.clk
    requires Enabled(s, e) && NoWrap(s, e) && s.r.ticks >= 0
    requires !Cancels(cfg, s, e)
    ensures HeldUntil(Step(cfg, s, e), Later(e), bound - Sub(e))
  {
    hide Store, TransmitAlarm, Read;
    match e
    case WriteEvent(clk, addr, byte, rmw, openOk, openOk2) =>
      StoreHolds(cfg, s, addr, byte, clk, rmw, openOk, openOk2, now, bound);
    case TransmitEvent(clk) => TransmitHolds(cfg, s, clk, now, bound);
    case RebaseEvent(clk, sub) => RebaseHolds(s, clk, sub, now, bound);
    case _ =>
  }

  /** Sending a byte holds the transmitter for one character time. */
  lemma SendHolds(cfg: Config, s: State, e: Event)
    requires Sends(s, e) && NoWrap(s, e) && s.r.ticks >= 0
    ensures HeldUntil(Step(cfg, s, e), e.clk, e.clk + s.r.ticks)
  {
  }

  lemma HoldsOneMore(run: Run, j: nat, bound: int)
    requires Safe(run.cfg, run.start) && run.Legal() && 1 < j <= |run.events|
    requires HeldUntil(run.At(j - 1), Later(run.events[j - 2]), bound - run.Base(j - 1))
    requires !run.CancelsAt(j - 1)
    ensures HeldUntil(run.At(j), Later(run.events[j - 1]), bound - run.Base(j))
  {
    RunKeepsSafe(run, j - 1);
    assert run.PossibleAt(j - 1);
    var t, e := run.At(j - 1), run.events[j - 1];
    assert t.r.ticks >= 0;
    StepHolds(run.cfg, t, e, Later(run.events[j - 2]), bound - run.Base(j - 1));
  }

  lemma {:induction false} RunHolds(run: Run, i: nat, j: nat, bound: int)
    requires Safe(run.cfg, run.start) && run.Legal() && i < j <= |run.events|
    requires HeldUntil(run.At(i + 1), Later(run.events[i]), bound - run.Base(i + 1))
    requires forall k :: i < k < j ==> !run.CancelsAt(k)
    ensures HeldUntil(run.At(j), Later(run.events[j - 1]), bound - run.Base(j))
  {
    if i + 1 < j {
      RunHolds(run, i, j - 1, bound);
      HoldsOneMore(run, j, bound);
    }
  }

  /** Transmit spacing over a whole run: two bytes sent with no cancellation between them are at
      least a character time apart, whatever registers are written and however often the clock is
      rebased in between. */
  lemma TransmitSpacing(run: Run, i: nat, j: nat)
    requires Safe(run.cfg, run.start) && run.Legal() && i < j < |run.events|
    requires run.SendsAt(i) && run.SendsAt(j)
    requires forall k :: i < k < j ==> !run.CancelsAt(k)
    ensures run.Time(j) >= run.Time(i) + run.At(i).r.ticks
  {
    RunKeepsSafe(run, i);
    assert run.PossibleAt(i) && run.PossibleAt(j);
    SendHolds(run.cfg, run.At(i), run.events[i]);
    RunHolds(run, i, j, run.Time(i) + run.At(i).r.ticks);
  }

  /** DTR and RTS on, no transmit interrupt. */
  const LINES_ON := ZERO.(b3 := true, b0 := true)

  /** After a reset: the port is opened, a byte is written and sent, and while it is under way the next one is
      written and sent when its time has come. */
  function TwoBytes(cfg: Config, s: State, first: Bits, second: Bits, end: Clock): Run {
    Run(cfg, HardwareReset(cfg, s),
        [WriteEvent(10, 2, LINES_ON, false, true, true), WriteEvent(20, 0, first, false, true, true),
         TransmitEvent(21), WriteEvent(22, 0, second, false, true, true), TransmitEvent(end)])
  }

  lemma PortOpened(cfg: Config, s: State)
    ensures var t := Store(cfg, HardwareReset(cfg, s), 2, LINES_ON, 10, false, true, true);
            && t.r.fdOpen && t.r.cmd == LINES_ON && t.txAt == None && t.r.inTx == NO_TRANSMIT
            && t.r.ticks == Ticks(cfg, LINES_ON, ZERO, ZERO)
  {
    hide Ticks;
  }

  /** With the port open, what is written is sent at the next transmit alarm. */
  lemma WrittenIsSent(cfg: Config, s: State, byte: Bits, clk: Clock, at: Clock)
    requires s.r.fdOpen && Dtr(s.r.cmd) && clk + 1 < MODULUS
    ensures var t := Store(cfg, s, 0, byte, clk, false, true, true); var u := TransmitAlarm(cfg, t, at);
            && t.txAt == (if s.txAt.Some? then s.txAt else Some(clk + 1)) && Transmits(t.r) == Some(byte)
            && t.r.ticks == s.r.ticks && t.r.cmd == s.r.cmd
            && u.txAt == Some(Wrap(at + s.r.ticks)) && u.r.fdOpen && u.r.cmd == s.r.cmd && u.r.ticks == s.r.ticks
  {
  }

  /** The bound is attained: such a run is legal, and its two bytes are exactly a character time apart. */
  lemma SpacingAttained(cfg: Config, s: State, first: Bits, second: Bits, end: Clock)
    requires var ticks := Ticks(cfg, LINES_ON, ZERO, ZERO); 1 <= ticks && end == 21 + ticks && end + ticks < MODULUS
    ensures var run := TwoBytes(cfg, s, first, second, end);
            && run.Legal() && run.SendsAt(2) && run.SendsAt(4) && !run.CancelsAt(3)
            && run.Time(4) == run.Time(2) + run.At(2).r.ticks
  {
    hide Ticks, HardwareReset, Store, TransmitAlarm, Transmits;
    var run := TwoBytes(cfg, s, first, second, end);
    PortOpened(cfg, s);
    assert run.At(1) == Store(cfg, run.start, 2, LINES_ON, 10, false, true, true) by {
      assert run.At(0) == run.start;
    }
    WrittenIsSent(cfg, run.At(1), first, 20, 21);
    assert run.At(2) == Store(cfg, run.At(1), 0, first, 20, false, true, true);
    assert run.At(3) == TransmitAlarm(cfg, run.At(2), 21);
    WrittenIsSent(cfg, run.At(3), second, 22, end);
    assert run.At(4) == Store(cfg, run.At(3), 0, second, 22, false, true, true);
    assert run.Base(1) == 0 && run.Base(2) == 0 && run.Base(3) == 0 && run.Base(4) == 0;
  }

  // ------------------------------------------------------------------ byte accounting

  /** What happened to bytes written to the data register. */
  datatype Flow = Flow(accepted: nat, overwritten: nat, sent: nat, dropped: nat) {
    function Plus(f: Flow): Flow {
      Flow(accepted + f.accepted, overwritten + f.overwritten, sent + f.sent, dropped + f.dropped)
    }
  }

  const NOTHING := Flow(0, 0, 0, 0)

  /** One if a byte is waiting in the transmitter. */
  function Waiting(s: State): nat {
    if s.r.inTx == DR_WRITTEN then 1 else 0
  }

  /** A data write is accepted under DTR, over any byte still waiting; a programmed reset drops one. */
  function WriteFlow(cfg: Config, s: State, addr: nat): Flow {
    var n := Decode(cfg.mode, addr);
    if n == DR && Dtr(s.r.cmd) then Flow(1, Waiting(s), 0, 0)
    else if n == SR then Flow(0, 0, 0, Waiting(s))
    else NOTHING
  }

  function StoreFlow(cfg: Config, s: State, addr: nat, clk: Clock, rmw: bool, openOk: bool): Flow {
    if rmw then
      WriteFlow(cfg, s, addr).Plus(
        WriteFlow(cfg, Write(cfg, s, addr, s.r.lastRead, Wrap(clk - 1), openOk), addr))
    else WriteFlow(cfg, s, addr)
  }

  /** The transmit alarm sends the waiting byte, or drops it when the port is closed. */
  function StepFlow(cfg: Config, s: State, e: Event): Flow {
    match e
    case WriteEvent(clk, addr, byte, rmw, openOk, _) => StoreFlow(cfg, s, addr, clk, rmw, openOk)
    case TransmitEvent(_) =>
      if Transmits(s.r).Some? then Flow(0, 0, 1, 0) else Flow(0, 0, 0, Waiting(s))
    case ResetEvent(_) => Flow(0, 0, 0, Waiting(s))
    case _ => NOTHING
  }

  function FlowUpTo(run: Run, i: nat): Flow
    requires i <= |run.events|
  {
    if i == 0 then NOTHING
    else FlowUpTo(run, i - 1).Plus(StepFlow(run.cfg, run.At(i - 1), run.events[i - 1]))
  }

  predicate Balanced(before: State, f: Flow, after: State) {
    Waiting(before) + f.accepted == f.sent + f.overwritten + f.dropped + Waiting(after)
  }

  lemma WriteBalances(cfg: Config, s: State, addr: nat, byte: Bits, clk: Clock, openOk: bool)
    ensures Balanced(s, WriteFlow(cfg, s, addr), Write(cfg, s, addr, byte, clk, openOk))
  {
    hide Ticks;
  }

  lemma StoreBalances(cfg: Config, s: State, addr: nat, byte: Bits, clk: Clock, rmw: bool,
                      openOk: bool, openOk2: bool)
    ensures Balanced(s, StoreFlow(cfg, s, addr, clk, rmw, openOk),
                     Store(cfg, s, addr, byte, clk, rmw, openOk, openOk2))
  {
    var t := if rmw then Write(cfg, s, addr, s.r.lastRead, Wrap(clk - 1), openOk) else s;
    if rmw {
      WriteBalances(cfg, s, addr, s.r.lastRead, Wrap(clk - 1), openOk);
    }
    WriteBalances(cfg, t, addr, byte, clk, openOk2);
  }

  lemma TransmitBalances(cfg: Config, s: State, clk: Clock)
    requires NO_TRANSMIT <= s.r.inTx <= DR_WRITTEN
    ensures Balanced(s, StepFlow(cfg, s, TransmitEvent(clk)), TransmitAlarm(cfg, s, clk))
  {
  }

  lemma StepBalances(cfg: Config, s: State, e: Event)
    requires Safe(cfg, s)
    ensures Balanced(s, StepFlow(cfg, s, e), Step(cfg, s, e))
  {
    match e
    case WriteEvent(clk, addr, byte, rmw, openOk, openOk2) =>
      StoreBalances(cfg, s, addr, byte, clk, rmw, openOk, openOk2);
    case TransmitEvent(clk) => TransmitBalances(cfg, s, clk);
    case _ =>
  }

  /** Over any run, every accepted byte is sent, overwritten, dropped, or still waiting. */
  lemma {:induction false} BytesConserved(run: Run, i: nat)
    requires Safe(run.cfg, run.start) && i <= |run.events|
    ensures Balanced(run.start, FlowUpTo(run, i), run.At(i))
  {
    hide Step, StepFlow, Safe;
    if i > 0 {
      BytesConserved(run, i - 1);
      RunKeepsSafe(run, i - 1);
      StepBalances(run.cfg, run.At(i - 1), run.events[i - 1]);
    }
  }

  /** The last byte written to the data register, accepted or not. */
  function LastWritten(run: Run, i: nat): Bits
    requires i <= |run.events|
  {
    if i == 0 then run.start.r.txdata
    else
      var e := run.events[i - 1];
      if e.WriteEvent? && Decode(run.cfg.mode, e.addr) == DR then e.byte else LastWritten(run, i - 1)
  }

  lemma WriteKeepsTxData(cfg: Config, s: State, addr: nat, byte: Bits, clk: Clock, openOk: bool)
    ensures Write(cfg, s, addr, byte, clk, openOk).r.txdata ==
            if Decode(cfg.mode, addr) == DR then byte else s.r.txdata
  {
    hide Ticks;
  }

  lemma StoreKeepsTxData(cfg: Config, s: State, addr: nat, byte: Bits, clk: Clock, rmw: bool,
                         openOk: bool, openOk2: bool)
    ensures Store(cfg, s, addr, byte, clk, rmw, openOk, openOk2).r.txdata ==
            if Decode(cfg.mode, addr) == DR then byte else s.r.txdata
  {
    var t := if rmw then Write(cfg, s, addr, s.r.lastRead, Wrap(clk - 1), openOk) else s;
    WriteKeepsTxData(cfg, s, addr, s.r.lastRead, Wrap(clk - 1), openOk);
    WriteKeepsTxData(cfg, t, addr, byte, clk, openOk2);
  }

  lemma StepKeepsTxData(cfg: Config, s: State, e: Event)
    ensures Step(cfg, s, e).r.txdata ==
            if e.WriteEvent? && Decode(cfg.mode, e.addr) == DR then e.byte else s.r.txdata
  {
    match e
    case WriteEvent(clk, addr, byte, rmw, openOk, openOk2) =>
      StoreKeepsTxData(cfg, s, addr, byte, clk, rmw, openOk, openOk2);
    case _ =>
  }

  lemma {:induction false} TxDataIsLastWritten(run: Run, i: nat)
    requires i <= |run.events|
    ensures run.At(i).r.txdata == LastWritten(run, i)
  {
    if i > 0 {
      TxDataIsLastWritten(run, i - 1);
      StepKeepsTxData(run.cfg, run.At(i - 1), run.events[i - 1]);
    }
  }

  /** Every byte sent is the most recent write to the data register. */
  lemma SentIsLastWritten(run: Run, i: nat)
    requires i < |run.events| && run.SendsAt(i)
    ensures Transmits(run.At(i).r) == Some(LastWritten(run, i))
  {
    TxDataIsLastWritten(run, i);
  }

  // ------------------------------------------------------------------ snapshots in between

  /** Writing a snapshot keeps the chip safe, and any reader of what a safe chip wrote is safe, with the
      same byte waiting: so everything above holds again of the runs from there. */
  lemma RestoreIsSafe(cfg: Config, w: State, s: State, clk: Clock, dsr: bool, openOk: bool)
    requires Safe(cfg, w)
    ensures Safe(cfg, Written(w, dsr)) && Waiting(Written(w, dsr)) == Waiting(w)
    ensures var (t, ok) := Restore(cfg, s, Present(MAJOR, MINOR, Snapshot(w, clk, dsr)), clk, openOk);
            ok && Safe(cfg, t) && Waiting(t) == Waiting(w) && t.r.txdata == w.r.txdata
  {
    var b := Snapshot(w, clk, dsr);
    var r := Disarmed(cfg, s).r;
    hide Snapshot, Restored, Waiting;
    RoundTrip(cfg, w, s, clk, dsr, openOk);
    RestoredLine(cfg, r, b, clk, openOk);
    RestoredTx(cfg, w, r, clk, dsr, openOk);
    SafeAgain(cfg, w, Written(w, dsr), dsr);
    SafeAgain(cfg, w, Restored(cfg, r, b, clk, openOk), dsr);
    hide Safe, Disarmed, Written;
  }

  /** The transmit alarm is set again at most where it was set. */
  lemma RestoredTx(cfg: Config, w: State, r: Regs, clk: Clock, dsr: bool, openOk: bool)
    requires 0 <= w.r.inTx < 256
    ensures Restored(cfg, r, Snapshot(w, clk, dsr), clk, openOk).txAt.Some? ==> w.txAt.Some?
  {
    hide Restored, Snapshot, Dword;
    SnapshotFields(w, clk, dsr);
    RestoredAlarms(cfg, r, Snapshot(w, clk, dsr), clk, openOk);
  }

  lemma SafeAgain(cfg: Config, w: State, t: State, dsr: bool)
    requires Safe(cfg, w) && SameRegisters(w.r, t.r, dsr) && (t.txAt.Some? ==> w.txAt.Some?)
    requires (t.r.fdOpen ==> Dtr(w.r.cmd)) && (cfg.wired ==> t.r.line == t.r.irq)
    requires 0 <= t.r.ticks && t.r.ticksRx == t.r.ticks * 5 / 4
    ensures Safe(cfg, t) && Waiting(t) == Waiting(w)
  {
  }

  lemma RestoredLine(cfg: Config, r: Regs, b: seq<Bits>, clk: Clock, openOk: bool)
    requires |b| >= 10
    ensures var t := Restored(cfg, r, b, clk, openOk).r;
            (cfg.wired ==> t.line == t.irq) && 0 <= t.ticks && t.ticksRx == t.ticks * 5 / 4
  {
    hide Ticks, Value, Dword;
    PortKeepsRegisters(cfg, State(SavedRegs(cfg, r, b), None, None), clk, openOk);
  }

  // ------------------------------------------------------------------ the driver's log

  /** A byte handed to the driver, and when. */
  datatype Sent = Sent(byte: Bits, clk: Clock)

  function SentBy(s: State, e: Event): seq<Sent> {
    if Sends(s, e) then [Sent(s.r.txdata, e.clk)] else []
  }

  /** Everything sent by the first `i` events. */
  function Log(run: Run, i: nat): seq<Sent>
    requires i <= |run.events|
  {
    if i == 0 then [] else Log(run, i - 1) + SentBy(run.At(i - 1), run.events[i - 1])
  }

  lemma FlowCountsSends(cfg: Config, s: State, e: Event)
    ensures StepFlow(cfg, s, e).sent == |SentBy(s, e)|
  {
  }

  /** The log is as long as the account of bytes says. */
  lemma {:induction false} LogCounts(run: Run, i: nat)
    requires i <= |run.events|
    ensures |Log(run, i)| == FlowUpTo(run, i).sent
  {
    if i > 0 {
      LogCounts(run, i - 1);
      FlowCountsSends(run.cfg, run.At(i - 1), run.events[i - 1]);
    }
  }

  /** A run that goes on is the same as far as it went before. */
  lemma {:induction false} RunGoesOn(run: Run, more: seq<Event>, i: nat)
    requires i <= |run.events|
    ensures var longer := run.(events := run.events + more);
            longer.At(i) == run.At(i) && Log(longer, i) == Log(run, i)
  {
    if i > 0 {
      RunGoesOn(run, more, i - 1);
      assert (run.events + more)[i - 1] == run.events[i - 1];
    }
  }

  lemma OneMoreEvent(run: Run, e: Event)
    ensures var longer := run.(events := run.events + [e]); var n := |run.events|;
            && longer.At(n + 1) == Step(run.cfg, run.At(n), e)
            && Log(longer, n + 1) == Log(run, n) + SentBy(run.At(n), e)
  {
    RunGoesOn(run, [e], |run.events|);
    assert (run.events + [e])[|run.events|] == e;
  }

  /** An event may follow a run: it is possible there, and no earlier than the last one. */
  predicate MayFollow(run: Run, e: Event) {
    && Enabled(run.At(|run.events|), e) && NoWrap(run.At(|run.events|), e)
    && (run.events != [] ==> Later(run.events[|run.events| - 1]) <= e.clk)
  }

  lemma LegalGoesOn(run: Run, e: Event)
    requires run.Legal() && MayFollow(run, e)
    ensures run.(events := run.events + [e]).Legal()
  {
    var longer := run.(events := run.events + [e]);
    forall i: nat | i < |longer.events|
      ensures longer.PossibleAt(i)
    {
      RunGoesOn(run, [e], i);
      if i < |run.events| {
        assert run.PossibleAt(i);
      }
    }
  }

  /** A chip is where the run leads, and has added to the log what the run sends. */
  ghost predicate Reaches(run: Run, log: seq<Sent>, view: State, sent: seq<Sent>) {
    run.Legal() && view == run.At(|run.events|) && sent == log + Log(run, |run.events|)
  }

  lemma ReachesNext(run: Run, log: seq<Sent>, view: State, sent: seq<Sent>, e: Event)
    requires Reaches(run, log, view, sent) && MayFollow(run, e)
    ensures Reaches(run.(events := run.events + [e]), log, Step(run.cfg, view, e), sent + SentBy(view, e))
  {
    hide Run.Legal, Step, SentBy, Run.At, Log, MayFollow;
    LegalGoesOn(run, e);
    OneMoreEvent(run, e);
    var l, m := Log(run, |run.events|), SentBy(view, e);
    assert (log + l) + m == log + (l + m);
  }

  /** Every prefix of a legal run is legal, and what comes next may follow it. */
  lemma LegalSoFar(run: Run, i: nat)
    requires run.Legal() && i < |run.events|
    ensures var part := run.(events := run.events[..i]);
            MayFollow(part, run.events[i]) && part.At(i) == run.At(i) && part.(events := part.events + [run.events[i]])
            == run.(events := run.events[..i + 1])
  {
    hide Step, Log;
    var part := run.(events := run.events[..i]);
    assert part.events + run.events[i..] == run.events;
    RunGoesOn(part, run.events[i..], i);
    assert run.PossibleAt(i);
    assert run.events[..i] + [run.events[i]] == run.events[..i + 1];
  }
}
