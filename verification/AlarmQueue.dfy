/** The alarm queue: a fixed array of pending alarms with swap-with-last removal, a back-pointer
    in each alarm, a cached earliest deadline, and a doubly linked list of every alarm.

    `queue` is the finite map the array speeds up; `members` is the linked list in order. */
module AlarmQueue {
  import opened Clocks
  import opened Options

  const MAX_PENDING := 0x100

  datatype Pending = Pending(alarm: Alarm?, clk: Clock)

  class Alarm {
    const context: AlarmContext
    var pendingIdx: int
    var next: Alarm?
    var prev: Alarm?

    constructor (context: AlarmContext)
      ensures this.context == context && pendingIdx == -1
    {
      this.context := context;
      pendingIdx := -1;
      next, prev := null, null;
    }
  }

  class AlarmContext {
    var alarms: Alarm?
    const pendingAlarms: array<Pending>
    var numPendingAlarms: nat
    var nextPendingAlarmClk: Clock
    var nextPendingAlarmIdx: int

    ghost var members: seq<Alarm>
    ghost var owned: set<Alarm>
    ghost var queue: map<Alarm, Clock>

    /** The doubly linked list holds exactly `members`, in order, without repetition. */
    ghost predicate Linked()
      reads this`alarms, this`members, this`owned, members`next, members`prev
    {
      Chained() && owned == Elements(members) && (forall a :: a in owned ==> a.context == this)
    }

    static ghost function Elements(s: seq<Alarm>): set<Alarm> {
      set a | a in s
    }

    ghost predicate Chained()
      reads this`alarms, this`members, members`next, members`prev
    {
      && (forall i, j :: 0 <= i < j < |members| ==> members[i] != members[j])
      && alarms == (if members == [] then null else members[0])
      && (forall i {:trigger members[i].next} :: 0 <= i < |members| ==>
            members[i].next == if i + 1 < |members| then members[i + 1] else null)
      && (forall i {:trigger members[i].prev} :: 0 <= i < |members| ==>
            members[i].prev == if i > 0 then members[i - 1] else null)
    }

    /** The array and the back-pointers are exact inverses, and together they are `queue`. */
    ghost predicate Indexed()
      reads this`numPendingAlarms, this`queue, this`owned, pendingAlarms, owned`pendingIdx
    {
      && pendingAlarms.Length == MAX_PENDING
      && |queue| == numPendingAlarms <= MAX_PENDING
      && queue.Keys <= owned
      && (forall i :: 0 <= i < numPendingAlarms ==>
            var a := pendingAlarms[i].alarm;
            a != null && a in queue && a.pendingIdx == i)
      && (forall a {:trigger a.pendingIdx} :: a in owned ==>
            if a in queue then
              0 <= a.pendingIdx < numPendingAlarms && pendingAlarms[a.pendingIdx] == Pending(a, queue[a])
            else
              a.pendingIdx == -1)
    }

    /** The cached clock is the least deadline (all-ones when nothing is due before that), and
        the cached index names an alarm that has it. */
    ghost predicate Cached()
      reads this`numPendingAlarms, this`nextPendingAlarmClk, this`nextPendingAlarmIdx, pendingAlarms
    {
      && numPendingAlarms <= pendingAlarms.Length
      && (forall i :: 0 <= i < numPendingAlarms ==> nextPendingAlarmClk <= pendingAlarms[i].clk)
      && (nextPendingAlarmClk < NEVER ==>
            0 <= nextPendingAlarmIdx < numPendingAlarms
            && pendingAlarms[nextPendingAlarmIdx].clk == nextPendingAlarmClk)
    }

    ghost predicate Valid()
      reads this, pendingAlarms, owned
    {
      Indexed() && Cached()
    }

    /** The map the queue stands for, when its representation is sound. */
    ghost function Abstract(): Option<map<Alarm, Clock>>
      reads this, pendingAlarms, owned
    {
      if Valid() then Some(queue) else None
    }

    /** alarm_context_init: note that the cached index is left unset. */
    constructor ()
      ensures Valid() && Linked() && fresh(pendingAlarms)
      ensures queue == map[] && members == [] && owned == {}
    {
      alarms := null;
      pendingAlarms := new Pending[MAX_PENDING](_ => Pending(null, 0));
      numPendingAlarms := 0;
      nextPendingAlarmClk := NEVER;
      nextPendingAlarmIdx := *;
      members, owned, queue := [], {}, map[];
    }

    /** The whole-array rescan; among equal deadlines the last one wins. */
    method UpdateNextPending()
      requires numPendingAlarms <= pendingAlarms.Length
      modifies this`nextPendingAlarmClk, this`nextPendingAlarmIdx
      ensures Cached()
      ensures forall i :: 0 <= i < numPendingAlarms && pendingAlarms[i].clk == nextPendingAlarmClk
                ==> i <= nextPendingAlarmIdx
    {
      var nextClk := NEVER;
      var nextIdx := nextPendingAlarmIdx;
      var i := 0;
      while i < numPendingAlarms
        invariant 0 <= i <= numPendingAlarms
        invariant forall j :: 0 <= j < i ==> nextClk <= pendingAlarms[j].clk
        invariant i == 0 ==> nextClk == NEVER
        invariant i > 0 ==> 0 <= nextIdx < i && pendingAlarms[nextIdx].clk == nextClk
        invariant forall j :: 0 <= j < i && pendingAlarms[j].clk == nextClk ==> j <= nextIdx
      {
        var pendingClk := pendingAlarms[i].clk;
        if pendingClk <= nextClk {
          nextClk := pendingClk;
          nextIdx := i;
        }
        i := i + 1;
      }
      nextPendingAlarmClk := nextClk;
      nextPendingAlarmIdx := nextIdx;
    }

    /** alarm_set is map update, except that a new alarm is refused when all 256 slots are taken. */
    method Set(alarm: Alarm, cpuClk: Clock)
      requires Valid() && alarm in owned
      modifies this`numPendingAlarms, this`nextPendingAlarmClk, this`nextPendingAlarmIdx, this`queue
      modifies pendingAlarms, alarm`pendingIdx
      ensures Valid()
      ensures queue == if alarm !in old(queue) && |old(queue)| == 256
                       then old(queue) else old(queue)[alarm := cpuClk]
    {
      var idx := alarm.pendingIdx;
      if idx < 0 {
        var newIdx := numPendingAlarms;
        if newIdx >= MAX_PENDING {
          return;
        }
        Append(alarm, cpuClk);
        if cpuClk < nextPendingAlarmClk {
          nextPendingAlarmClk := cpuClk;
          nextPendingAlarmIdx := newIdx;
        }
      } else {
        Modify(idx, cpuClk);
        if nextPendingAlarmClk > cpuClk || idx == nextPendingAlarmIdx {
          UpdateNextPending();
        }
      }
    }

    method Append(alarm: Alarm, cpuClk: Clock)
      requires Indexed() && alarm in owned && alarm !in queue
      requires numPendingAlarms < MAX_PENDING
      modifies this`numPendingAlarms, this`queue, pendingAlarms, alarm`pendingIdx
      ensures Indexed()
      ensures queue == old(queue)[alarm := cpuClk]
      ensures numPendingAlarms == old(numPendingAlarms) + 1
      ensures forall i :: 0 <= i < old(numPendingAlarms) ==> pendingAlarms[i] == old(pendingAlarms[i])
      ensures pendingAlarms[old(numPendingAlarms)] == Pending(alarm, cpuClk)
    {
      var newIdx := numPendingAlarms;
      pendingAlarms[newIdx] := Pending(alarm, cpuClk);
      numPendingAlarms := newIdx + 1;
      alarm.pendingIdx := newIdx;
      queue := queue[alarm := cpuClk];
    }

    method Modify(idx: nat, cpuClk: Clock)
      requires Indexed() && idx < numPendingAlarms
      modifies this`queue, pendingAlarms
      ensures Indexed()
      ensures queue == old(queue[pendingAlarms[idx].alarm := cpuClk])
      ensures forall i :: 0 <= i < numPendingAlarms ==>
                pendingAlarms[i] == if i == idx then old(pendingAlarms[i]).(clk := cpuClk) else old(pendingAlarms[i])
    {
      queue := queue[pendingAlarms[idx].alarm := cpuClk];
      pendingAlarms[idx] := pendingAlarms[idx].(clk := cpuClk);
    }

    /** alarm_unset is map removal. */
    method Unset(alarm: Alarm)
      requires Valid() && alarm in owned
      modifies this`numPendingAlarms, this`nextPendingAlarmClk, this`nextPendingAlarmIdx, this`queue
      modifies pendingAlarms, owned`pendingIdx
      ensures Valid()
      ensures queue == old(queue) - {alarm}
    {
      var idx := alarm.pendingIdx;
      if idx < 0 {
        assert queue == queue - {alarm};
        return;
      }
      var last := numPendingAlarms - 1;
      RemoveSlot(alarm, idx);
      if numPendingAlarms > 0 {
        if nextPendingAlarmIdx == idx {
          UpdateNextPending();
        } else if nextPendingAlarmIdx == last {
          nextPendingAlarmIdx := idx;
        }
      } else {
        nextPendingAlarmClk := NEVER;
        nextPendingAlarmIdx := -1;
      }
    }

    static lemma OneFewer(queue: map<Alarm, Clock>, alarm: Alarm)
      requires alarm in queue
      ensures |queue - {alarm}| == |queue| - 1
    {
      assert (queue - {alarm}).Keys == queue.Keys - {alarm};
      assert |queue.Keys - {alarm}| == |queue.Keys| - 1;
    }

    /** Swap with last: the last pending alarm takes the freed slot. */
    method RemoveSlot(alarm: Alarm, idx: nat)
      requires Indexed() && alarm in queue && alarm in owned && alarm.pendingIdx == idx
      modifies this`numPendingAlarms, this`queue, pendingAlarms, owned`pendingIdx
      ensures Indexed()
      ensures queue == old(queue) - {alarm}
      ensures numPendingAlarms == old(numPendingAlarms) - 1
      ensures forall i :: 0 <= i < numPendingAlarms ==>
                pendingAlarms[i] == old(pendingAlarms[if i == idx then numPendingAlarms - 1 else i])
    {
      OneFewer(queue, alarm);
      numPendingAlarms := numPendingAlarms - 1;
      var last := numPendingAlarms;
      queue := queue - {alarm};
      if last != idx {
        pendingAlarms[idx] := pendingAlarms[last];
        pendingAlarms[idx].alarm.pendingIdx := idx;
      }
      alarm.pendingIdx := -1;
    }

    /** alarm_new: the alarm starts idle, at the head of the list. */
    method NewAlarm() returns (alarm: Alarm)
      requires Valid() && Linked()
      modifies this`alarms, this`members, this`owned, members`prev
      ensures Valid() && Linked()
      ensures fresh(alarm) && alarm.context == this && owned == old(owned) + {alarm}
      ensures members == [alarm] + old(members) && queue == old(queue)
    {
      alarm := new Alarm(this);
      Link(alarm);
      owned := owned + {alarm};
    }

    method Link(alarm: Alarm)
      requires Chained() && alarm !in members
      modifies this`alarms, this`members, alarm`next, alarm`prev, members`prev
      ensures Chained()
      ensures members == [alarm] + old(members)
    {
      if alarms == null {
        alarms := alarm;
        alarm.next := null;
      } else {
        alarm.next := alarms;
        alarms.prev := alarm;
        alarms := alarm;
      }
      alarm.prev := null;
      members := [alarm] + members;
    }

    /** alarm_destroy: unset, then unlink. */
    method Destroy(alarm: Alarm, ghost k: nat)
      requires Valid() && Linked()
      requires k < |members| && members[k] == alarm
      modifies this, pendingAlarms, owned
      ensures Valid() && Linked()
      ensures members == old(members[..k] + members[k + 1..])
      ensures queue == old(queue) - {alarm} && owned == old(owned) - {alarm}
    {
      assert alarm in Elements(members);
      hide Linked, Valid;
      Unset(alarm);
      Forget(alarm, k);
    }

    /** The half of alarm_destroy that takes an idle alarm out of the list. */
    method Forget(alarm: Alarm, ghost k: nat)
      requires Valid() && Linked() && alarm !in queue
      requires k < |members| && members[k] == alarm
      modifies this`alarms, this`members, this`owned, members`next, members`prev
      ensures Valid() && Linked()
      ensures members == old(members[..k] + members[k + 1..])
      ensures queue == old(queue) && owned == old(owned) - {alarm}
    {
      RemovedElements(members, k);
      hide Indexed, Cached, Chained, Elements;
      Unlink(alarm, k);
      Disown(alarm);
    }

    ghost method Disown(alarm: Alarm)
      requires Indexed() && alarm !in queue
      modifies this`owned
      ensures Indexed() && owned == old(owned) - {alarm}
    {
      owned := owned - {alarm};
    }

    /** Dropping position k of a repetition-free list drops exactly that element. */
    static lemma RemovedElements(s: seq<Alarm>, k: nat)
      requires k < |s| && forall i, j :: 0 <= i < j < |s| ==> s[i] != s[j]
      ensures Elements(s[..k] + s[k + 1..]) == Elements(s) - {s[k]}
    {
      var rest := s[..k] + s[k + 1..];
      forall a | a in s && a != s[k]
        ensures a in rest
      {
        var j :| 0 <= j < |s| && s[j] == a;
        assert rest[if j < k then j else j - 1] == a;
      }
    }

    method Unlink(alarm: Alarm, ghost k: nat)
      requires Chained() && k < |members| && members[k] == alarm
      modifies this`alarms, this`members, members`next, members`prev
      ensures Chained()
      ensures members == old(members[..k] + members[k + 1..])
    {
      if alarm == alarms {
        alarms := alarm.next;
      }
      if alarm.next != null {
        alarm.next.prev := alarm.prev;
      }
      if alarm.prev != null {
        alarm.prev.next := alarm.next;
      }
      members := members[..k] + members[k + 1..];
    }

    /** alarm_context_destroy: walks the list head to tail, destroying each alarm once. */
    method DestroyAll() returns (ghost visited: seq<Alarm>)
      requires Valid() && Linked()
      modifies this, pendingAlarms, owned
      ensures Valid() && Linked() && visited == old(members)
      ensures members == [] && owned == {} && queue == map[]
    {
      visited := [];
      var ap := alarms;
      while ap != null
        invariant Valid() && Linked()
        invariant visited + members == old(members) && owned <= old(owned)
        invariant ap == alarms
        decreases |members|
      {
        var apNext := ap.next;
        ghost var head: Alarm := ap;
        DestroyHead(ap);
        ConcatAssociative(visited, [head], members);
        visited := visited + [head];
        ap := apNext;
      }
      assert queue.Keys == {};
    }

    static lemma ConcatAssociative(a: seq<Alarm>, b: seq<Alarm>, c: seq<Alarm>)
      ensures a + (b + c) == (a + b) + c
    {
    }

    method DestroyHead(ap: Alarm)
      requires Valid() && Linked() && ap == alarms
      modifies this, pendingAlarms, owned
      ensures Valid() && Linked()
      ensures old(members) == [ap] + members && owned <= old(owned)
      ensures alarms == old(ap.next)
    {
      assert members[..0] + members[1..] == members[1..];
      Destroy(ap, 0);
    }

    /** The alarm that alarm_context_dispatch calls, and the offset it passes on. */
    method Dispatch(cpuClk: Clock) returns (alarm: Alarm, offset: Clock)
      requires Valid() && nextPendingAlarmClk <= cpuClk < NEVER
      ensures alarm in queue && queue[alarm] == nextPendingAlarmClk
      ensures forall a :: a in queue ==> queue[alarm] <= queue[a]
      ensures offset == cpuClk - queue[alarm]
      ensures 0 <= nextPendingAlarmIdx < numPendingAlarms && alarm == pendingAlarms[nextPendingAlarmIdx].alarm
    {
      offset := Wrap(cpuClk - nextPendingAlarmClk);
      var idx := nextPendingAlarmIdx;
      alarm := pendingAlarms[idx].alarm;
      forall a | a in queue
        ensures queue[alarm] <= queue[a]
      {
        assert a.pendingIdx < numPendingAlarms;
      }
    }

    /** alarm_context_time_warp adds one wrapped amount to every deadline and to the cached clock.
        The cache survives exactly when all deadlines wrap alike; an empty queue's sentinel moves. */
    method TimeWarp(warpAmount: Clock, warpDirection: int)
      requires Valid()
      modifies this`nextPendingAlarmClk, this`queue, pendingAlarms
      ensures Indexed()
      ensures queue == Shifted(old(queue), Shift(warpAmount, warpDirection))
      ensures nextPendingAlarmClk == Wrap(old(nextPendingAlarmClk) + Shift(warpAmount, warpDirection))
      ensures forall j :: 0 <= j < numPendingAlarms ==> pendingAlarms[j].alarm == old(pendingAlarms[j].alarm)
      ensures old(nextPendingAlarmClk) < NEVER ==>
                (Valid() <==> WrapAlike(old(queue), old(nextPendingAlarmClk), Shift(warpAmount, warpDirection)))
      ensures old(queue) == map[] ==> (Valid() <==> Shift(warpAmount, warpDirection) == 0)
    {
      hide Cached, Shifted, WrapAlike, Wrap;
      ghost var shift := Shift(warpAmount, warpDirection);
      ghost var before, c := queue, nextPendingAlarmClk;
      CachedDeadline();
      ShiftAll(warpAmount, warpDirection);
      ShiftCache(warpAmount, warpDirection);
      WarpedCache(before, c, shift);
    }

    method ShiftCache(warpAmount: Clock, warpDirection: int)
      modifies this`nextPendingAlarmClk
      ensures nextPendingAlarmClk == Wrap(old(nextPendingAlarmClk) + Shift(warpAmount, warpDirection))
    {
      if warpDirection > 0 {
        nextPendingAlarmClk := Wrap(nextPendingAlarmClk + warpAmount);
      } else if warpDirection < 0 {
        nextPendingAlarmClk := Wrap(nextPendingAlarmClk - warpAmount);
      }
    }

    lemma WarpedCache(before: map<Alarm, Clock>, c: Clock, shift: int)
      requires Indexed()
      requires queue == Shifted(before, shift) && nextPendingAlarmClk == Wrap(c + shift)
      requires forall a :: a in before ==> c <= before[a]
      requires c < NEVER ==>
                 0 <= nextPendingAlarmIdx < numPendingAlarms
                 && pendingAlarms[nextPendingAlarmIdx].clk == Wrap(c + shift)
      ensures c < NEVER ==> (Cached() <==> WrapAlike(before, c, shift))
      ensures c == NEVER && before == map[] && -MODULUS < shift < MODULUS ==> (Cached() <==> shift == 0)
    {
      CachedDeadline();
      if c < NEVER {
        WarpedMinimum(before, c, shift);
      } else if before == map[] {
        assert queue.Keys == {};
      }
    }

    method ShiftAll(warpAmount: Clock, warpDirection: int)
      requires Indexed()
      modifies this`queue, pendingAlarms
      ensures Indexed()
      ensures queue == Shifted(old(queue), Shift(warpAmount, warpDirection))
      ensures forall j :: 0 <= j < numPendingAlarms ==>
                pendingAlarms[j] == ShiftedSlot(old(pendingAlarms[j]), Shift(warpAmount, warpDirection))
    {
      hide Shift, Wrap;
      ShiftSlots(warpAmount, warpDirection);
      queue := Shifted(queue, Shift(warpAmount, warpDirection));
      assert |queue| == |queue.Keys| && |old(queue)| == |old(queue).Keys|;
    }

    method ShiftSlots(warpAmount: Clock, warpDirection: int)
      requires numPendingAlarms <= pendingAlarms.Length
      modifies pendingAlarms
      ensures forall j :: 0 <= j < numPendingAlarms ==>
                pendingAlarms[j] == ShiftedSlot(old(pendingAlarms[j]), Shift(warpAmount, warpDirection))
    {
      if warpDirection == 0 {
        return;
      }
      ghost var start := pendingAlarms[..];
      var i := 0;
      while i < numPendingAlarms
        invariant 0 <= i <= numPendingAlarms
        invariant forall j :: 0 <= j < numPendingAlarms ==>
                    pendingAlarms[j] == if j < i then ShiftedSlot(start[j], Shift(warpAmount, warpDirection))
                                        else start[j]
      {
        if warpDirection > 0 {
          pendingAlarms[i] := pendingAlarms[i].(clk := Wrap(pendingAlarms[i].clk + warpAmount));
        } else {
          pendingAlarms[i] := pendingAlarms[i].(clk := Wrap(pendingAlarms[i].clk - warpAmount));
        }
        i := i + 1;
      }
    }

    /** The cached clock below the sentinel is some alarm's deadline, and the least. */
    lemma CachedIsPending() returns (a: Alarm)
      requires Valid() && nextPendingAlarmClk < NEVER
      ensures a in queue && queue[a] == nextPendingAlarmClk
    {
      a := pendingAlarms[nextPendingAlarmIdx].alarm;
    }

    /** A deadline that no other one is below is the cached clock. */
    lemma CachedIsLeast(a: Alarm)
      requires Valid() && a in queue && queue[a] < NEVER && forall b :: b in queue ==> queue[a] <= queue[b]
      ensures nextPendingAlarmClk == queue[a]
    {
      CachedDeadline();
      var b := CachedIsPending();
    }

    /** The cache invariant, read through the map. */
    lemma CachedDeadline()
      requires Indexed()
      ensures Cached() <==>
                && (forall a :: a in queue ==> nextPendingAlarmClk <= queue[a])
                && (nextPendingAlarmClk < NEVER ==>
                      0 <= nextPendingAlarmIdx < numPendingAlarms
                      && pendingAlarms[nextPendingAlarmIdx].clk == nextPendingAlarmClk)
    {
      forall a | a in queue
        ensures 0 <= a.pendingIdx < numPendingAlarms && pendingAlarms[a.pendingIdx].clk == queue[a]
      {
      }
    }
  }

  /** Shifting keeps a minimum a minimum exactly when all deadlines wrap like it. */
  lemma WarpedMinimum(queue: map<Alarm, Clock>, c: Clock, shift: int)
    requires forall a :: a in queue ==> c <= queue[a]
    ensures (forall a :: a in queue ==> Wrap(c + shift) <= Shifted(queue, shift)[a])
            <==> WrapAlike(queue, c, shift)
  {
    forall a | a in queue
      ensures Wrap(c + shift) <= Shifted(queue, shift)[a]
              <==> (queue[a] + shift) / MODULUS == (c + shift) / MODULUS
    {
      WrapOrder(c, queue[a], shift);
    }
  }

  function Shift(warpAmount: Clock, warpDirection: int): int {
    if warpDirection > 0 then warpAmount as int else if warpDirection < 0 then -(warpAmount as int) else 0
  }

  ghost function ShiftedSlot(p: Pending, shift: int): Pending {
    p.(clk := Wrap(p.clk + shift))
  }

  ghost function Shifted(queue: map<Alarm, Clock>, shift: int): (r: map<Alarm, Clock>)
    ensures r.Keys == queue.Keys
    ensures forall a :: a in queue ==> r[a] == Wrap(queue[a] + shift)
  {
    map a | a in queue.Keys :: Wrap(queue[a] + shift)
  }

  /** Every deadline crosses the 32-bit boundary together with the clock `c`, or none does. */
  ghost predicate WrapAlike(queue: map<Alarm, Clock>, c: Clock, shift: int) {
    forall a :: a in queue ==> (queue[a] + shift) / MODULUS == (c + shift) / MODULUS
  }
}
