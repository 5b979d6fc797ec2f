/** PROCESS_ALARMS: the CPU loop's drain of the alarm queue, with callbacks as arbitrary programs
    over the alarm interface. */
module AlarmDispatch {
  import opened Clocks
  import opened AlarmQueue

  /** What a callback may do to the queue: alarm_set or alarm_unset. */
  datatype Command = Arm(alarm: Alarm, clk: Clock) | Disarm(alarm: Alarm)

  /** One dispatched callback: the alarm, its deadline, and the offset it was handed. */
  datatype Firing = Firing(alarm: Alarm, deadline: Clock, offset: Clock)

  /** What the n-th dispatched callback does when `alarm` fires. */
  type Callbacks = (nat, Alarm) -> seq<Command>

  /** A callback unsets its alarm or re-arms it after `cpuClk`, and arms nothing at or before it. */
  ghost predicate WellBehaved(commands: seq<Command>, fired: Alarm, cpuClk: Clock) {
    && (forall i :: 0 <= i < |commands| && commands[i].Arm? ==> cpuClk < commands[i].clk)
    && Mentions(commands, fired)
  }

  ghost predicate Mentions(commands: seq<Command>, alarm: Alarm) {
    exists i :: 0 <= i < |commands| && commands[i].alarm == alarm
  }

  ghost predicate Within(commands: seq<Command>, alarms: set<Alarm>) {
    forall i :: 0 <= i < |commands| ==> commands[i].alarm in alarms
  }

  ghost function Due(queue: map<Alarm, Clock>, cpuClk: Clock): set<Alarm> {
    set a | a in queue && queue[a] <= cpuClk
  }

  /** Deadlines fire in nondecreasing order. */
  ghost predicate EarliestFirst(fired: seq<Firing>) {
    forall i, j :: 0 <= i < j < |fired| ==> fired[i].deadline <= fired[j].deadline
  }

  /** One command, as an operation on the map. */
  ghost function Applied(queue: map<Alarm, Clock>, c: Command): map<Alarm, Clock> {
    match c
    case Arm(alarm, clk) =>
      if alarm !in queue && |queue| == MAX_PENDING then queue else queue[alarm := clk]
    case Disarm(alarm) => queue - {alarm}
  }

  ghost function AppliedAll(queue: map<Alarm, Clock>, commands: seq<Command>): map<Alarm, Clock> {
    if commands == [] then queue
    else Applied(AppliedAll(queue, commands[..|commands| - 1]), commands[|commands| - 1])
  }

  /** A callback that arms nothing at or before `cpuClk` leaves as due exactly the alarms that
      were due and that it never mentions, with their deadlines unchanged. */
  lemma {:induction false} CommandsAndDue(queue: map<Alarm, Clock>, commands: seq<Command>, cpuClk: Clock)
    requires forall i :: 0 <= i < |commands| && commands[i].Arm? ==> cpuClk < commands[i].clk
    ensures var after := AppliedAll(queue, commands);
            && (forall a :: a in Due(after, cpuClk) <==> a in Due(queue, cpuClk) && !Mentions(commands, a))
            && (forall a :: a in Due(after, cpuClk) ==> after[a] == queue[a])
  {
    if commands != [] {
      var n := |commands| - 1;
      CommandsAndDue(queue, commands[..n], cpuClk);
      forall a
        ensures Mentions(commands, a) <==> Mentions(commands[..n], a) || commands[n].alarm == a
      {
        MentionsLast(commands, a);
      }
    }
  }

  lemma MentionsLast(commands: seq<Command>, alarm: Alarm)
    requires commands != []
    ensures Mentions(commands, alarm)
            <==> Mentions(commands[..|commands| - 1], alarm) || commands[|commands| - 1].alarm == alarm
  {
    var n := |commands| - 1;
    if Mentions(commands, alarm) && commands[n].alarm != alarm {
      var i :| 0 <= i < |commands| && commands[i].alarm == alarm;
      assert commands[..n][i].alarm == alarm;
    }
    if Mentions(commands[..n], alarm) {
      var i :| 0 <= i < n && commands[..n][i].alarm == alarm;
      assert commands[i].alarm == alarm;
    }
  }

  /** Commands leave every alarm they do not mention alone. */
  lemma {:induction false} CommandsElsewhere(queue: map<Alarm, Clock>, commands: seq<Command>, alarm: Alarm)
    requires forall i :: 0 <= i < |commands| ==> commands[i].alarm != alarm
    ensures var after := AppliedAll(queue, commands);
            (alarm in after <==> alarm in queue) && (alarm in queue ==> after[alarm] == queue[alarm])
  {
    if commands != [] {
      CommandsElsewhere(queue, commands[..|commands| - 1], alarm);
    }
  }

  method RunCommand(context: AlarmContext, command: Command)
    requires context.Valid() && command.alarm in context.owned
    modifies context`numPendingAlarms, context`nextPendingAlarmClk, context`nextPendingAlarmIdx, context`queue
    modifies context.pendingAlarms, context.owned`pendingIdx
    ensures context.Valid()
    ensures context.queue == Applied(old(context.queue), command)
  {
    match command {
      case Arm(alarm, clk) => context.Set(alarm, clk);
      case Disarm(alarm) => context.Unset(alarm);
    }
  }

  lemma OneMoreApplied(queue: map<Alarm, Clock>, commands: seq<Command>, i: nat)
    requires i < |commands|
    ensures AppliedAll(queue, commands[..i + 1]) == Applied(AppliedAll(queue, commands[..i]), commands[i])
  {
    assert commands[..i + 1][..i] == commands[..i];
  }

  /** Runs one callback's commands in order. */
  method RunCommands(context: AlarmContext, commands: seq<Command>)
    requires context.Valid()
    requires Within(commands, context.owned)
    modifies context`numPendingAlarms, context`nextPendingAlarmClk, context`nextPendingAlarmIdx, context`queue
    modifies context.pendingAlarms, context.owned`pendingIdx
    ensures context.Valid()
    ensures context.queue == AppliedAll(old(context.queue), commands)
  {
    var i := 0;
    while i < |commands|
      invariant 0 <= i <= |commands| && context.Valid()
      invariant context.queue == AppliedAll(old(context.queue), commands[..i])
    {
      OneMoreApplied(old(context.queue), commands, i);
      RunCommand(context, commands[i]);
      i := i + 1;
    }
    assert commands[..i] == commands;
  }

  /** The loop `while CLK >= next pending clock, dispatch`.  With well-behaved callbacks it ends,
      fires in deadline order with exact offsets, fires each due alarm at most once and at the
      deadline it had, drops a due alarm only when a callback that ran mentions it, leaves nothing
      due, and does nothing to the queue but the commands of those callbacks. */
  method ProcessAlarms(context: AlarmContext, cpuClk: Clock, callbacks: Callbacks)
    returns (fired: seq<Firing>, ghost ran: seq<seq<Command>>)
    requires context.Valid() && cpuClk < NEVER
    requires forall n: nat, a :: a in context.owned ==> WellBehaved(callbacks(n, a), a, cpuClk)
    requires forall n: nat, a :: a in context.owned ==> Within(callbacks(n, a), context.owned)
    modifies context`numPendingAlarms, context`nextPendingAlarmClk, context`nextPendingAlarmIdx, context`queue
    modifies context.pendingAlarms, context.owned`pendingIdx
    ensures context.Valid() && Emptied(old(context.queue), context.queue, fired, ran, cpuClk)
    ensures ByCallbacks(fired, ran, callbacks)
  {
    fired, ran := [], [];
    NothingFired(context.queue, cpuClk);
    while cpuClk >= context.nextPendingAlarmClk
      invariant context.Valid() && ByCallbacks(fired, ran, callbacks)
      invariant Drained(old(context.queue), context.queue, fired, ran, cpuClk)
      decreases Due(context.queue, cpuClk)
    {
      var f := FireNext(context, cpuClk, |fired|, callbacks, old(context.queue), fired, ran);
      ByCallbacksNext(fired, ran, callbacks, f);
      fired, ran := fired + [f], ran + [callbacks(|fired|, f.alarm)];
    }
    context.CachedDeadline();
    NothingDue(old(context.queue), context.queue, fired, ran, cpuClk);
  }

  ghost predicate ByCallbacks(fired: seq<Firing>, ran: seq<seq<Command>>, callbacks: Callbacks) {
    |ran| == |fired| && forall i :: 0 <= i < |fired| ==> ran[i] == callbacks(i, fired[i].alarm)
  }

  lemma ByCallbacksNext(fired: seq<Firing>, ran: seq<seq<Command>>, callbacks: Callbacks, f: Firing)
    requires ByCallbacks(fired, ran, callbacks)
    ensures ByCallbacks(fired + [f], ran + [callbacks(|fired|, f.alarm)], callbacks)
  {
  }

  lemma NothingFired(queue: map<Alarm, Clock>, cpuClk: Clock)
    ensures Drained(queue, queue, [], [], cpuClk)
  {
  }

  /** `start` and what has fired since are only there to carry `Drained` over this turn. */
  method FireNext(context: AlarmContext, cpuClk: Clock, n: nat, callbacks: Callbacks,
                  ghost start: map<Alarm, Clock>, ghost fired: seq<Firing>, ghost ran: seq<seq<Command>>)
    returns (f: Firing)
    requires context.Valid() && context.nextPendingAlarmClk <= cpuClk < NEVER
    requires forall a :: a in context.owned ==> WellBehaved(callbacks(n, a), a, cpuClk)
    requires forall a :: a in context.owned ==> Within(callbacks(n, a), context.owned)
    requires Drained(start, context.queue, fired, ran, cpuClk)
    modifies context`numPendingAlarms, context`nextPendingAlarmClk, context`nextPendingAlarmIdx, context`queue
    modifies context.pendingAlarms, context.owned`pendingIdx
    ensures context.Valid()
    ensures Due(context.queue, cpuClk) < Due(old(context.queue), cpuClk)
    ensures Drained(start, context.queue, fired + [f], ran + [callbacks(n, f.alarm)], cpuClk)
  {
    var alarm, offset := context.Dispatch(cpuClk);
    f := Firing(alarm, context.nextPendingAlarmClk, offset);
    ghost var before := context.queue;
    var commands := callbacks(n, alarm);
    RunCommands(context, commands);
    OneFired(start, before, context.queue, fired, f, ran, commands, cpuClk);
  }

  /** After firing `fired` from `start`, `queue` is what the commands `ran` make of it, and its due alarms
      are the ones no callback that ran has mentioned, none of them earlier than anything fired. */
  ghost predicate Drained(start: map<Alarm, Clock>, queue: map<Alarm, Clock>, fired: seq<Firing>,
                          ran: seq<seq<Command>>, cpuClk: Clock) {
    && queue == RanAll(start, ran)
    && DueLeft(start, queue, fired, ran, cpuClk)
    && FiredWell(start, fired, cpuClk)
  }

  /** The queue after the commands of each callback in turn. */
  ghost function RanAll(queue: map<Alarm, Clock>, ran: seq<seq<Command>>): map<Alarm, Clock> {
    if ran == [] then queue
    else AppliedAll(RanAll(queue, ran[..|ran| - 1]), ran[|ran| - 1])
  }

  lemma OneMoreRan(queue: map<Alarm, Clock>, ran: seq<seq<Command>>, commands: seq<Command>)
    ensures RanAll(queue, ran + [commands]) == AppliedAll(RanAll(queue, ran), commands)
  {
    assert (ran + [commands])[..|ran|] == ran;
  }

  ghost predicate DueLeft(start: map<Alarm, Clock>, queue: map<Alarm, Clock>, fired: seq<Firing>,
                          ran: seq<seq<Command>>, cpuClk: Clock) {
    && (forall a :: a in Due(start, cpuClk) ==> (a in Due(queue, cpuClk) <==> !MentionedBy(ran, a)))
    && (forall a :: a in Due(queue, cpuClk) ==> a in Due(start, cpuClk) && queue[a] == start[a])
    && (forall i :: 0 <= i < |fired| ==>
          && fired[i].alarm !in Due(queue, cpuClk)
          && forall a :: a in Due(queue, cpuClk) ==> fired[i].deadline <= queue[a])
  }

  ghost predicate FiredWell(start: map<Alarm, Clock>, fired: seq<Firing>, cpuClk: Clock) {
    && EarliestFirst(fired)
    && (forall i :: 0 <= i < |fired| ==> Accurate(fired[i], start, cpuClk))
    && (forall i, j :: 0 <= i < j < |fired| ==> fired[i].alarm != fired[j].alarm)
  }

  /** What the loop promises at its end: earliest first with exact offsets, each alarm at most once,
      nothing left due, every due alarm fired or mentioned by a callback, and the queue exactly what
      the callbacks' commands make of it. */
  ghost predicate Emptied(start: map<Alarm, Clock>, queue: map<Alarm, Clock>, fired: seq<Firing>,
                          ran: seq<seq<Command>>, cpuClk: Clock) {
    && FiredWell(start, fired, cpuClk)
    && queue == RanAll(start, ran)
    && Due(queue, cpuClk) == {}
    && forall a :: a in Due(start, cpuClk) ==> MentionedBy(ran, a)
  }

  lemma NothingDue(start: map<Alarm, Clock>, queue: map<Alarm, Clock>, fired: seq<Firing>,
                   ran: seq<seq<Command>>, cpuClk: Clock)
    requires Drained(start, queue, fired, ran, cpuClk) && forall a :: a in queue ==> cpuClk < queue[a]
    ensures Emptied(start, queue, fired, ran, cpuClk)
  {
    assert Due(queue, cpuClk) == {};
  }

  /** Firing the earliest due alarm, whose callback is well behaved, keeps all that. */
  lemma OneFired(start: map<Alarm, Clock>, before: map<Alarm, Clock>, after: map<Alarm, Clock>, fired: seq<Firing>,
                 f: Firing, ran: seq<seq<Command>>, commands: seq<Command>, cpuClk: Clock)
    requires Drained(start, before, fired, ran, cpuClk)
    requires Accurate(f, before, cpuClk) && forall a :: a in before ==> f.deadline <= before[a]
    requires WellBehaved(commands, f.alarm, cpuClk) && after == AppliedAll(before, commands)
    ensures Drained(start, after, fired + [f], ran + [commands], cpuClk)
    ensures Due(after, cpuClk) < Due(before, cpuClk)
  {
    CommandsAndDue(before, commands, cpuClk);
    MentionedByNext(ran, commands);
    OneMoreRan(start, ran, commands);
    assert f.alarm in Due(before, cpuClk) && f.alarm !in Due(after, cpuClk);
    assert DueLeft(start, after, fired + [f], ran + [commands], cpuClk);
  }

  ghost predicate Accurate(f: Firing, queue: map<Alarm, Clock>, cpuClk: Clock) {
    f.alarm in queue && f.deadline == queue[f.alarm] && f.deadline <= cpuClk && f.offset == cpuClk - f.deadline
  }

  /** Some callback that ran mentions the alarm. */
  ghost predicate MentionedBy(ran: seq<seq<Command>>, a: Alarm) {
    exists i :: 0 <= i < |ran| && Mentions(ran[i], a)
  }

  lemma MentionedByNext(ran: seq<seq<Command>>, commands: seq<Command>)
    ensures forall a :: MentionedBy(ran + [commands], a) <==> MentionedBy(ran, a) || Mentions(commands, a)
  {
    var more := ran + [commands];
    forall a
      ensures MentionedBy(more, a) <==> MentionedBy(ran, a) || Mentions(commands, a)
    {
      if MentionedBy(ran, a) {
        var i :| 0 <= i < |ran| && Mentions(ran[i], a);
        assert more[i] == ran[i];
      }
      if Mentions(commands, a) {
        assert more[|ran|] == commands;
      }
    }
  }

  /** Rebasing is invisible: when every deadline, the cached clock and the CPU clock wrap alike,
      the same alarms are due after the shift as before it, and every offset is the same. */
  lemma RebaseInvisible(queue: map<Alarm, Clock>, next: Clock, cpuClk: Clock, shift: int)
    requires WrapAlike(queue, next, shift)
    requires (cpuClk + shift) / MODULUS == (next + shift) / MODULUS
    ensures cpuClk >= next <==> Wrap(cpuClk + shift) >= Wrap(next + shift)
    ensures Wrap(Wrap(cpuClk + shift) - Wrap(next + shift)) == Wrap(cpuClk - next)
    ensures Due(Shifted(queue, shift), Wrap(cpuClk + shift)) == Due(queue, cpuClk)
  {
    WrapDifference(cpuClk, next, shift);
    SameWrapOrder(next, cpuClk, shift);
    forall a | a in queue
      ensures Shifted(queue, shift)[a] <= Wrap(cpuClk + shift) <==> queue[a] <= cpuClk
    {
      SameWrapOrder(queue[a], cpuClk, shift);
    }
  }

  method TwoAlarms() returns (context: AlarmContext, a: Alarm, b: Alarm)
    ensures fresh(context) && fresh(context.pendingAlarms) && context.Valid()
    ensures a != b && context.queue == map[a := 1, b := 3]
  {
    context := new AlarmContext();
    a := context.NewAlarm();
    b := context.NewAlarm();
    hide AlarmContext.Indexed, AlarmContext.Cached, AlarmContext.Linked;
    context.Set(a, 1);
    context.Set(b, 3);
  }

  /** Deadlines 1 and 3, shifted back by 2: only the first one wraps, and the cached clock with it. */
  method WarpOfTwo() returns (context: AlarmContext, missed: Alarm)
    ensures missed in context.queue && context.queue[missed] == 1 && context.nextPendingAlarmClk == NEVER
    ensures !context.Valid()
  {
    var first;
    context, first, missed := TwoAlarms();
    context.CachedIsLeast(first);
    assert Shift(2, -1) == -2 && Wrap(1 - 2) == NEVER;
    assert !WrapAlike(context.queue, 1, -2) by {
      assert (context.queue[missed] - 2) / MODULUS != (1 - 2) / MODULUS;
    }
    hide AlarmContext.Indexed, AlarmContext.Cached, WrapAlike;
    context.TimeWarp(2, -1);
  }

  /** An empty queue, shifted back by 1: the sentinel moves, and every later deadline would be missed. */
  method WarpOfNone() returns (context: AlarmContext)
    ensures context.Indexed() && !context.Cached() && context.queue == map[]
  {
    context := new AlarmContext();
    context.TimeWarp(1, -1);
  }

  /** Dispatching, shifting everything, and dispatching again: the same alarm with the same offset. */
  method DispatchAcrossWarp(context: AlarmContext, cpuClk: Clock, warpAmount: Clock, warpDirection: int)
    returns (alarm: Alarm, offset: Clock, later: Alarm, laterOffset: Clock)
    requires context.Valid() && context.nextPendingAlarmClk <= cpuClk < NEVER
    requires var shift := Shift(warpAmount, warpDirection);
             && WrapAlike(context.queue, context.nextPendingAlarmClk, shift)
             && (cpuClk + shift) / MODULUS == (context.nextPendingAlarmClk + shift) / MODULUS
             && Wrap(cpuClk + shift) < NEVER
    modifies context`nextPendingAlarmClk, context`queue, context.pendingAlarms
    ensures context.Valid() && later == alarm && laterOffset == offset
  {
    hide AlarmContext.Indexed, AlarmContext.Cached, Due, WrapAlike, Shifted;
    alarm, offset := context.Dispatch(cpuClk);
    ghost var shift := Shift(warpAmount, warpDirection);
    RebaseInvisible(context.queue, context.nextPendingAlarmClk, cpuClk, shift);
    context.TimeWarp(warpAmount, warpDirection);
    later, laterOffset := context.Dispatch(Wrap(cpuClk + Shift(warpAmount, warpDirection)));
  }
}
