/** The scheduler's operations, what every one of them keeps, and what holds of every run. */
module Scheduler {
  import opened Ticks
  import opened Lists
  import opened Delays
  import opened SchedState

  // ---------------------------------------------------------------- creating and deleting tasks

  function Create(s: Sched, t: nat, p: Priority): Sched {
    AddReady(NewTask(s, t, p), t)
  }

  function RescanDelay(s: Sched): Sched {
    s.(delay := Rescan(s.delay))
  }

  /** A task that deletes itself stays, on the termination list, until the idle task cleans up. */
  function Delete(s: Sched, t: nat): Sched
  {
    var s1 := Unlink(ClearEvent(s, t), t);
    if t == s.current then AddTerminating(s1, t) else RescanDelay(DropTask(s1, t))
  }

  /** The idle task frees everything on the termination list. */
  function CleanUp(s: Sched): Sched
    decreases |s.terminating|
  {
    if s.terminating == [] then s
    else
      var t := s.terminating[0];
      var s1 := s.(terminating := s.terminating[1..]);
      CleanUp(DropTask(s1, t))
  }

  // ---------------------------------------------------------------- suspending and resuming a task

  function SuspendTask(s: Sched, t: nat): Sched {
    RescanDelay(AddSuspended(Unlink(ClearEvent(s, t), t), t))
  }

  /** On the suspended list because it was suspended, not because it blocks without a timeout, and
      not yet resumed by an interrupt. */
  predicate IsSuspended(s: Sched, t: nat) {
    t in s.suspended && t !in s.pending && t !in s.events
  }

  function ResumeTask(s: Sched, t: nat): Sched {
    if t != s.current && IsSuspended(s, t) then AddReady(Unlink(s, t), t) else s
  }

  function ResumeFromISR(s: Sched, t: nat): Sched {
    if !IsSuspended(s, t) then s
    else if s.depth == 0 then
      var y := PriorityOf(s, t) >= PriorityOf(s, s.current);
      AddReady(Unlink(YieldIf(s, y), t), t)
    else s.(pending := s.pending + [t])
  }

  // ---------------------------------------------------------------- blocking and waking

  /** The running task blocks for `n` ticks, or for ever, perhaps waiting for an event. */
  function Block(s: Sched, n: Tick, indefinitely: bool, onEvent: bool): Sched {
    var t := s.current;
    var s1 := Unlink(s, t);
    var s2 := if n == MAX_DELAY && indefinitely then AddSuspended(s1, t) else AddDelayed(s1, t, n);
    if onEvent then s2.(events := s2.events + {t}) else s2
  }

  /** The event a task waits for has happened.  While the scheduler is suspended the ready lists may
      not be touched, so the task is parked on the pending-ready list. */
  function Wake(s: Sched, t: nat): Sched {
    var s1 := ClearEvent(s, t);
    if s.depth == 0 then AddReady(Unlink(s1, t), t) else s1.(pending := s1.pending + [t])
  }

  function YieldIf(s: Sched, y: bool): Sched {
    s.(yieldPending := s.yieldPending || y)
  }

  predicate Outranks(s: Sched, t: nat) {
    PriorityOf(s, t) > PriorityOf(s, s.current)
  }

  function RemoveFromEventList(s: Sched, t: nat): Sched {
    YieldIf(Wake(s, t), Outranks(s, t))
  }

  /** The event-group form, made by a task that has suspended the scheduler itself. */
  function RemoveFromUnorderedEventList(s: Sched, t: nat): Sched {
    YieldIf(MakeReady(s, t), Outranks(s, t))
  }

  // ---------------------------------------------------------------- ticks

  /** Make the tasks in `ts`, which are on no state list, ready in that order. */
  function ReadyAll(s: Sched, ts: seq<nat>): Sched
    decreases |ts|
  {
    if ts == [] then s else ReadyAll(AddReady(ClearEvent(s, ts[0]), ts[0]), ts[1..])
  }

  predicate AnyAsUrgent(s: Sched, ts: seq<nat>)
    decreases |ts|
  {
    ts != [] && (PriorityOf(s, ts[0]) >= PriorityOf(s, s.current) || AnyAsUrgent(s, ts[1..]))
  }

  /** A tick while the scheduler runs: the new state, and whether to switch tasks. */
  function RunningTick(s: Sched): (Sched, bool) {
    var (d, woken) := IncrementTick(s.delay);
    var s' := ReadyAll(s.(delay := d), woken);
    (s', AnyAsUrgent(s, woken) || |s'.ready[PriorityOf(s', s'.current)].items| > 1 || s.yieldPending)
  }

  function TickInterrupt(s: Sched): (Sched, bool) {
    if s.depth == 0 then RunningTick(s) else (s.(pended := s.pended + 1), false)
  }

  // ---------------------------------------------------------------- suspending the scheduler

  function SuspendAll(s: Sched): Sched {
    s.(depth := s.depth + 1)
  }

  /** Move every pending-ready task to its ready list, first come first served. */
  function Drain(s: Sched): Sched
    decreases |s.pending|
  {
    if s.pending == [] then s
    else
      var t := s.pending[0];
      WithoutHeadShorter(s.pending);
      var y := PriorityOf(s, t) >= PriorityOf(s, s.current);
      Drain(MakeReady(YieldIf(s, y), t))
  }

  lemma WithoutHeadShorter(q: seq<nat>)
    requires q != []
    ensures |Without(q, q[0])| < |q|
  {
    WithoutNoLonger(q[1..], q[0]);
  }

  lemma {:induction false} WithoutNoLonger(q: seq<nat>, t: nat)
    ensures |Without(q, t)| <= |q|
  {
    if q != [] {
      WithoutNoLonger(q[1..], t);
    }
  }

  /** Process one tick that was held back, noting a switch that it calls for. */
  function CatchUpOne(s: Sched): Sched {
    var (s', switch) := RunningTick(s);
    YieldIf(s', switch)
  }

  /** Process `n` ticks one after the other. */
  function CatchUp(s: Sched, n: nat): Sched
    decreases n
  {
    if n == 0 then s else CatchUpOne(CatchUp(s, n - 1))
  }

  /** The scheduler as the outermost resume leaves it before it looks at the ticks held back. */
  function Reopened(s: Sched): Sched {
    var s1 := s.(depth := 0);
    if s1.pending == [] then s1 else RescanDelay(Drain(s1))
  }

  function ResumeAll(s: Sched): Sched {
    if s.depth > 1 then s.(depth := s.depth - 1)
    else CatchUp(Reopened(s), s.pended).(pended := 0)
  }

  // ---------------------------------------------------------------- choosing the task to run

  /** The highest list in use at or below `p`; the search relies on there being one. */
  function HighestInUse(rs: ReadyLists, p: Priority): Priority {
    if p == 0 || rs[p].items != [] then p else HighestInUse(rs, p - 1)
  }

  function SwitchContext(s: Sched): Sched {
    if s.depth > 0 then s.(yieldPending := true)
    else
      var p := HighestInUse(s.ready, s.top);
      if s.ready[p].items == [] then s
      else
        var l: ReadyList := s.ready[p].Advance();
        s.(yieldPending := false, ready := s.ready[p := l], top := p, current := l.items[l.index - 1])
  }

  // ---------------------------------------------------------------- priority inheritance

  /** Change a task's priority, and its ready list with it if it is ready. */
  function Reprioritise(s: Sched, t: nat, p: Priority): Sched
    requires t in s.tasks
  {
    if InReady(s, t) then AddReady(SetPriority(Unlink(s, t), t, p), t) else SetPriority(s, t, p)
  }

  function HeldBy(s: Sched, t: nat): nat {
    if t in s.tasks then s.tasks[t].mutexesHeld else 0
  }

  function BaseOf(s: Sched, t: nat): Priority {
    if t in s.tasks then s.tasks[t].base else 0
  }

  function SetHeld(s: Sched, t: nat, n: nat): Sched
    requires t in s.tasks
  {
    s.(tasks := s.tasks[t := s.tasks[t].(mutexesHeld := n)])
  }

  /** The running task has obtained a mutex. */
  function CountMutex(s: Sched): Sched
    requires s.current in s.tasks
  {
    SetHeld(s, s.current, HeldBy(s, s.current) + 1)
  }

  /** The running task is about to wait for a mutex of `holder`. */
  function Inherit(s: Sched, holder: nat): Sched
    requires holder in s.tasks
  {
    if PriorityOf(s, holder) < PriorityOf(s, s.current)
    then Reprioritise(s, holder, PriorityOf(s, s.current)) else s
  }

  /** The running task gives a mutex back; only with the last one does it lose what it inherited. */
  function Disinherit(s: Sched): Sched
    requires s.current in s.tasks && HeldBy(s, s.current) > 0
  {
    var t := s.current;
    var s1 := SetHeld(s, t, HeldBy(s, t) - 1);
    if PriorityOf(s, t) != BaseOf(s, t) && HeldBy(s1, t) == 0
    then Reprioritise(s1, t, BaseOf(s, t)) else s1
  }

  /** The running task gave up waiting; `highest` is the most urgent of those who still wait. */
  function DisinheritAfterTimeout(s: Sched, holder: nat, highest: Priority): Sched
    requires holder in s.tasks
  {
    var p := if BaseOf(s, holder) < highest then highest else BaseOf(s, holder);
    if PriorityOf(s, holder) != p && HeldBy(s, holder) == 1 then Reprioritise(s, holder, p) else s
  }

  // ---------------------------------------------------------------- every operation keeps the invariant

  lemma YieldIfKeeps(s: Sched, y: bool)
    requires Core(s, {})
    ensures Core(YieldIf(s, y), {})
  {
    CoreKept(s, YieldIf(s, y), {});
  }

  lemma CreateKeeps(s: Sched, t: nat, p: Priority)
    requires Core(s, {}) && t !in s.tasks
    ensures Core(Create(s, t, p), {})
  {
    NewTaskKeeps(s, t, p);
    AddReadyKeeps(NewTask(s, t, p), {t}, t);
    assert {t} - {t} == {};
  }

  lemma UnlinkedAndCleared(s: Sched, t: nat)
    requires Core(s, {}) && t in s.tasks
    ensures var s1 := Unlink(ClearEvent(s, t), t);
            Core(s1, {t}) && t !in s1.events && t !in s1.pending
    ensures Delays.Inv(s.delay) ==> Delays.Inv(Unlink(ClearEvent(s, t), t).delay)
  {
    ClearEventKeeps(s, t, {});
    UnlinkKeeps(ClearEvent(s, t), t);
  }

  lemma RescanKeeps(s: Sched, loose: set<nat>)
    requires Core(s, loose)
    ensures Core(RescanDelay(s), loose)
    ensures Delays.Inv(s.delay) ==> Delays.Inv(RescanDelay(s).delay)
  {
    CoreKept(s, RescanDelay(s), loose);
  }

  lemma DeleteKeeps(s: Sched, t: nat)
    requires Core(s, {}) && Delays.Inv(s.delay) && t in s.tasks
    ensures Core(Delete(s, t), {}) && Delays.Inv(Delete(s, t).delay)
  {
    UnlinkedAndCleared(s, t);
    var s1 := Unlink(ClearEvent(s, t), t);
    assert {t} - {t} == {};
    if t == s.current {
      AddTerminatingKeeps(s1, {t}, t);
    } else {
      DropTaskKeeps(s1, t);
      RescanKeeps(DropTask(s1, t), {});
    }
  }

  lemma TerminatingIsLive(s: Sched)
    requires Core(s, {}) && s.terminating != []
    ensures s.terminating[0] in s.tasks
    ensures s.terminating[0] !in s.events && s.terminating[0] !in s.pending
  {
    assert OtherHomes(s, s.terminating[0]) > 0;
  }

  lemma PopTerminatingHomes(s: Sched, x: nat)
    requires s.terminating != []
    ensures var s1 := s.(terminating := s.terminating[1..]);
            var less := if x == s.terminating[0] then 1 else 0;
            Homes(s1, x) == Homes(s, x) - less && OtherHomes(s1, x) == OtherHomes(s, x) - less
  {
    assert s.terminating == [s.terminating[0]] + s.terminating[1..];
  }

  lemma PopTerminatingPartition(s: Sched)
    requires Partition(s, {}) && s.terminating != []
    ensures Partition(s.(terminating := s.terminating[1..]), {s.terminating[0]})
  {
    var s1, t := s.(terminating := s.terminating[1..]), s.terminating[0];
    forall x ensures Homes(s, x) == Occurrences([t], x) + Homes(s1, x) { PopTerminatingHomes(s, x); }
    forall x ensures OtherHomes(s, x) == Occurrences([t], x) + OtherHomes(s1, x) { PopTerminatingHomes(s, x); }
    LoosenedPartition(s, s1, [t]);
    assert ToSet([t]) == {t};
  }

  lemma PopTerminatingKeeps(s: Sched)
    requires Core(s, {}) && s.terminating != []
    ensures Core(s.(terminating := s.terminating[1..]), {s.terminating[0]})
  {
    TerminatingIsLive(s);
    PopTerminatingPartition(s);
    ReadySideKept(s, s.(terminating := s.terminating[1..]));
  }

  lemma {:induction false} CleanUpKeeps(s: Sched)
    requires Core(s, {}) && s.current !in s.terminating
    ensures Core(CleanUp(s), {}) && CleanUp(s).terminating == []
    ensures CleanUp(s) == s.(tasks := CleanUp(s).tasks, count := CleanUp(s).count, terminating := [])
    decreases |s.terminating|
  {
    if s.terminating != [] {
      var t := s.terminating[0];
      TerminatingIsLive(s);
      PopTerminatingKeeps(s);
      var s1 := s.(terminating := s.terminating[1..]);
      DropTaskKeeps(s1, t);
      CleanUpKeeps(DropTask(s1, t));
    }
  }

  lemma SuspendTaskKeeps(s: Sched, t: nat)
    requires Core(s, {}) && Delays.Inv(s.delay) && t in s.tasks
    ensures Core(SuspendTask(s, t), {}) && Delays.Inv(SuspendTask(s, t).delay)
  {
    UnlinkedAndCleared(s, t);
    AddSuspendedKeeps(Unlink(ClearEvent(s, t), t), {t}, t);
    assert {t} - {t} == {};
    RescanKeeps(AddSuspended(Unlink(ClearEvent(s, t), t), t), {});
  }

  lemma UnlinkKeepsEvents(s: Sched, t: nat)
    ensures Unlink(s, t).events == s.events && Unlink(s, t).pending == s.pending
    ensures Unlink(s, t).tasks == s.tasks && Unlink(s, t).depth == s.depth
  {
  }

  /** Moving a task that waits for nothing to its ready list. */
  lemma RelinkKeeps(s: Sched, t: nat)
    requires Core(s, {}) && t in s.tasks && t !in s.events && t !in s.pending
    ensures Core(AddReady(Unlink(s, t), t), {})
    ensures Delays.Inv(s.delay) ==> Delays.Inv(AddReady(Unlink(s, t), t).delay)
  {
    UnlinkKeeps(s, t);
    UnlinkKeepsEvents(s, t);
    AddReadyKeeps(Unlink(s, t), {t}, t);
    assert {t} - {t} == {};
  }

  lemma SuspendedIsLive(s: Sched, t: nat)
    requires Core(s, {}) && t in s.suspended
    ensures t in s.tasks && Blocked(s, t)
  {
    assert OtherHomes(s, t) > 0;
    assert Homes(s, t) == 1;
  }

  lemma ResumeTaskKeeps(s: Sched, t: nat)
    requires Core(s, {}) && Delays.Inv(s.delay)
    ensures Core(ResumeTask(s, t), {}) && Delays.Inv(ResumeTask(s, t).delay)
  {
    if t != s.current && IsSuspended(s, t) {
      SuspendedIsLive(s, t);
      RelinkKeeps(s, t);
    }
  }

  lemma ResumeFromISRKeeps(s: Sched, t: nat)
    requires Core(s, {}) && Delays.Inv(s.delay)
    ensures Core(ResumeFromISR(s, t), {}) && Delays.Inv(ResumeFromISR(s, t).delay)
  {
    if IsSuspended(s, t) {
      SuspendedIsLive(s, t);
      if s.depth == 0 {
        var y := PriorityOf(s, t) >= PriorityOf(s, s.current);
        YieldIfKeeps(s, y);
        RelinkKeeps(YieldIf(s, y), t);
      } else {
        AddPendingKeeps(s, t, {});
      }
    }
  }

  lemma ReadyWaitsForNothing(s: Sched, t: nat)
    requires EventsMatch(s) && InReady(s, t)
    ensures t !in s.events && t !in s.pending
  {
    assert !Blocked(s, t);
  }

  lemma BlockedCore(s: Sched, n: Tick, indefinitely: bool)
    requires Core(s, {}) && Delays.Inv(s.delay) && InReady(s, s.current) && n > 0
    ensures var s2 := Block(s, n, indefinitely, false);
            Core(s2, {}) && Delays.Inv(s2.delay) && s2.pending == s.pending && s2.tasks == s.tasks
  {
    var t := s.current;
    UnlinkKeeps(s, t);
    UnlinkKeepsEvents(s, t);
    var s1 := Unlink(s, t);
    assert {t} - {t} == {};
    AddSuspendedKeeps(s1, {t}, t);
    AddDelayedKeeps(s1, {t}, t, n);
    SleepKeepsInv(s1.delay, t, n);
  }

  lemma UnlinkedNotReady(s: Sched, t: nat)
    requires Core(s, {}) && InReady(s, t) && t in s.tasks
    ensures !InReady(Unlink(s, t), t) && t !in Unlink(s, t).terminating
  {
    UnlinkPartition(s, t);
    LooseIsNowhere(Unlink(s, t), {t}, t);
  }

  lemma BlockKeeps(s: Sched, n: Tick, indefinitely: bool, onEvent: bool)
    requires Core(s, {}) && Delays.Inv(s.delay) && InReady(s, s.current) && n > 0
    ensures var s' := Block(s, n, indefinitely, onEvent);
            Core(s', {}) && Delays.Inv(s'.delay)
  {
    var t := s.current;
    BlockedCore(s, n, indefinitely);
    ReadyWaitsForNothing(s, t);
    UnlinkedNotReady(s, t);
    var s2 := Block(s, n, indefinitely, false);
    if onEvent {
      assert Blocked(s2, t);
      AddEventKeeps(s2, t, {});
    }
  }

  lemma EventWaiterIsLive(s: Sched, t: nat)
    requires EventsMatch(s) && (t in s.events || t in s.pending)
    ensures t in s.tasks && Blocked(s, t)
  {
    assert Blocked(s, t);
  }

  lemma WakeKeeps(s: Sched, t: nat)
    requires Core(s, {}) && Delays.Inv(s.delay) && t in s.events
    ensures Core(Wake(s, t), {}) && Delays.Inv(Wake(s, t).delay)
  {
    EventWaiterIsLive(s, t);
    ClearEventKeeps(s, t, {});
    var s1 := ClearEvent(s, t);
    assert Blocked(s1, t);
    if s.depth == 0 {
      RelinkKeeps(s1, t);
    } else {
      AddPendingKeeps(s1, t, {});
    }
  }

  lemma RemoveFromEventListKeeps(s: Sched, t: nat)
    requires Core(s, {}) && Delays.Inv(s.delay) && t in s.events
    ensures var s' := RemoveFromEventList(s, t); Core(s', {}) && Delays.Inv(s'.delay)
  {
    WakeKeeps(s, t);
    YieldIfKeeps(Wake(s, t), Outranks(s, t));
  }

  lemma RemoveFromUnorderedKeeps(s: Sched, t: nat)
    requires Core(s, {}) && Delays.Inv(s.delay) && t in s.events
    ensures var s' := RemoveFromUnorderedEventList(s, t); Core(s', {}) && Delays.Inv(s'.delay)
  {
    EventWaiterIsLive(s, t);
    MakeReadyKeeps(s, t);
    YieldIfKeeps(MakeReady(s, t), Outranks(s, t));
  }

  // ---------------------------------------------------------------- ticks keep the invariant

  /** The tasks a tick releases are on no list until they are made ready. */
  lemma {:induction false} LeadingOccurrences(q: seq<Entry>, v: Tick, x: nat)
    ensures Occurrences(Owners(q), x)
         == Occurrences(Owners(Leading(q, v)), x) + Occurrences(Owners(Trailing(q, v)), x)
  {
    LeadingThenTrailing(q, v);
    OwnersConcat(Leading(q, v), Trailing(q, v));
  }

  /** How often `x` is asleep. */
  function Asleep(d: Delay, x: nat): nat {
    Occurrences(Owners(d.cur), x) + Occurrences(Owners(d.ovf), x)
  }

  lemma ReleaseOccurrences(d: Delay, x: nat)
    ensures Asleep(d, x) == Occurrences(ReleaseDue(d).1, x) + Asleep(ReleaseDue(d).0, x)
  {
    LeadingOccurrences(d.cur, d.tick, x);
  }

  lemma TickOccurrences(d: Delay, x: nat)
    ensures Asleep(d, x) == Occurrences(IncrementTick(d).1, x) + Asleep(IncrementTick(d).0, x)
  {
    var t := Add(d.tick, 1);
    var d1 := if t == 0 then SwitchLists(d.(tick := t)) else d.(tick := t);
    assert Asleep(d1, x) == Asleep(d, x);
    ReleaseOccurrences(d1, x);
  }

  function ToSet(ts: seq<nat>): set<nat> {
    set t | t in ts
  }

  lemma TickHomes(s: Sched, x: nat)
    ensures var (d, woken) := IncrementTick(s.delay);
            && Homes(s, x) == Occurrences(woken, x) + Homes(s.(delay := d), x)
            && OtherHomes(s, x) == Occurrences(woken, x) + OtherHomes(s.(delay := d), x)
  {
    TickOccurrences(s.delay, x);
  }

  lemma LoosenedPartition(s: Sched, s1: Sched, woken: seq<nat>)
    requires Partition(s, {}) && s1.tasks == s.tasks
    requires forall x :: Homes(s, x) == Occurrences(woken, x) + Homes(s1, x)
    requires forall x :: OtherHomes(s, x) == Occurrences(woken, x) + OtherHomes(s1, x)
    ensures Partition(s1, ToSet(woken))
    ensures forall x :: Occurrences(woken, x) <= 1
    ensures forall x :: x in woken ==> x in s.tasks
  {
    forall x ensures Occurrences(woken, x) <= 1 && (x in woken ==> x in s.tasks) {
      assert OtherHomes(s, x) > 0 ==> x in s.tasks && Homes(s, x) == 1;
    }
    forall x | x in s1.tasks ensures Homes(s1, x) == if x in ToSet(woken) then 0 else 1 {
      assert Homes(s, x) == 1;
    }
  }

  /** Each is released once, was on no other list, and its task is live. */
  lemma TickLoosens(s: Sched)
    requires Core(s, {})
    ensures var (d, woken) := IncrementTick(s.delay);
            && Core(s.(delay := d), ToSet(woken))
            && (forall x :: Occurrences(woken, x) <= 1)
            && (forall x :: x in woken ==> x in s.tasks)
  {
    var (d, woken) := IncrementTick(s.delay);
    forall x { TickHomes(s, x); }
    LoosenedPartition(s, s.(delay := d), woken);
    ReadySideKept(s, s.(delay := d));
  }

  lemma ReadyOneKeeps(s: Sched, loose: set<nat>, t: nat)
    requires Core(s, loose) && t in loose && t in s.tasks
    ensures Core(AddReady(ClearEvent(s, t), t), loose - {t})
  {
    ClearEventKeeps(s, t, loose);
    AddReadyKeeps(ClearEvent(s, t), loose, t);
  }

  lemma OnceOnlyTail(ts: seq<nat>)
    requires ts != [] && forall x :: Occurrences(ts, x) <= 1
    ensures ToSet(ts[1..]) == ToSet(ts) - {ts[0]}
    ensures forall x :: Occurrences(ts[1..], x) <= 1
  {
    var t := ts[0];
    assert ts == [t] + ts[1..];
    forall x ensures Occurrences(ts[1..], x) == Occurrences(ts, x) - if x == t then 1 else 0 {}
    assert Occurrences(ts[1..], t) == 0;
  }

  lemma {:induction false} ReadyAllKeeps(s: Sched, ts: seq<nat>)
    requires Core(s, ToSet(ts))
    requires forall x :: Occurrences(ts, x) <= 1
    requires forall x :: x in ts ==> x in s.tasks
    ensures var s' := ReadyAll(s, ts);
            Core(s', {}) && s'.delay == s.delay && s'.tasks == s.tasks && s'.depth == s.depth
            && s'.pended == s.pended && s'.current == s.current
    decreases |ts|
  {
    if ts == [] {
      assert ToSet(ts) == {};
    } else {
      var t := ts[0];
      OnceOnlyTail(ts);
      ReadyOneKeeps(s, ToSet(ts), t);
      ReadyAllKeeps(AddReady(ClearEvent(s, t), t), ts[1..]);
    }
  }

  /** A tick of the running scheduler moves the tasks that are due, and only those. */
  lemma RunningTickKeeps(s: Sched)
    requires Core(s, {}) && Delays.Inv(s.delay)
    ensures var (s', _) := RunningTick(s);
            && Core(s', {}) && Delays.Inv(s'.delay)
            && s'.delay == IncrementTick(s.delay).0 && s'.depth == s.depth && s'.pended == s.pended
  {
    TickRefines(s.delay);
    TickLoosens(s);
    var (d, woken) := IncrementTick(s.delay);
    ReadyAllKeeps(s.(delay := d), woken);
  }

  // ---------------------------------------------------------------- resuming keeps the invariant

  lemma MakeReadyOthers(s: Sched, t: nat)
    ensures var s' := MakeReady(s, t);
            && s'.tasks == s.tasks && s'.depth == s.depth && s'.pended == s.pended
            && s'.current == s.current && Now(s'.delay) == Now(s.delay)
            && s'.pending == Without(s.pending, t)
  {
    UnlinkKeepsEvents(ClearEvent(s, t), t);
  }

  lemma {:induction false} DrainKeeps(s: Sched)
    requires Core(s, {}) && Delays.Inv(s.delay)
    ensures var s' := Drain(s);
            && Core(s', {}) && Delays.Inv(s'.delay) && s'.pending == []
            && s'.depth == s.depth && s'.pended == s.pended && Now(s'.delay) == Now(s.delay)
    decreases |s.pending|
  {
    if s.pending != [] {
      var t := s.pending[0];
      var s1 := YieldIf(s, PriorityOf(s, t) >= PriorityOf(s, s.current));
      EventWaiterIsLive(s, t);
      YieldIfKeeps(s, PriorityOf(s, t) >= PriorityOf(s, s.current));
      MakeReadyKeeps(s1, t);
      MakeReadyOthers(s1, t);
      WithoutHeadShorter(s.pending);
      DrainKeeps(MakeReady(s1, t));
    }
  }

  lemma ReadyAllPending(s: Sched, ts: seq<nat>)
    requires s.pending == []
    ensures ReadyAll(s, ts).pending == []
    decreases |ts|
  {
  }

  lemma CatchUpOneKeeps(s: Sched)
    requires Core(s, {}) && Delays.Inv(s.delay)
    ensures var s' := CatchUpOne(s);
            && Core(s', {}) && Delays.Inv(s'.delay) && Now(s'.delay) == Now(s.delay) + 1
            && s'.depth == s.depth && s'.pended == s.pended
            && (s.pending == [] ==> s'.pending == [])
  {
    var (s1, switch) := RunningTick(s);
    TickRefines(s.delay);
    RunningTickKeeps(s);
    if s.pending == [] {
      ReadyAllPending(s.(delay := IncrementTick(s.delay).0), IncrementTick(s.delay).1);
    }
    YieldIfKeeps(s1, switch);
  }

  lemma {:induction false} CatchUpKeeps(s: Sched, n: nat)
    requires Core(s, {}) && Delays.Inv(s.delay) && s.pending == []
    ensures var s' := CatchUp(s, n);
            && Core(s', {}) && Delays.Inv(s'.delay) && s'.pending == []
            && s'.depth == s.depth && s'.pended == s.pended && Now(s'.delay) == Now(s.delay) + n
    decreases n
  {
    hide CatchUpOne, Core, Delays.Inv;
    if n > 0 {
      CatchUpKeeps(s, n - 1);
      CatchUpOneKeeps(CatchUp(s, n - 1));
    }
  }

  lemma ReopenedKeeps(s: Sched)
    requires SchedState.Inv(s)
    ensures var s' := Reopened(s);
            && Core(s', {}) && Delays.Inv(s'.delay) && s'.pending == []
            && s'.depth == 0 && s'.pended == s.pended && Now(s'.delay) == Now(s.delay)
  {
    var s1 := s.(depth := 0);
    CoreKept(s, s1, {});
    DrainKeeps(s1);
    RescanKeeps(Drain(s1), {});
  }

  /** Resuming processes every tick that was held back. */
  lemma ResumeAllKeeps(s: Sched)
    requires SchedState.Inv(s) && s.depth > 0
    ensures var s' := ResumeAll(s);
            && SchedState.Inv(s')
            && Now(s'.delay) + s'.pended == Now(s.delay) + s.pended
            && (s.depth == 1 ==> s'.pended == 0)
  {
    if s.depth > 1 {
      CoreKept(s, s.(depth := s.depth - 1), {});
    } else {
      hide Reopened;
      ReopenedKeeps(s);
      var s3 := CatchUp(Reopened(s), s.pended);
      CatchUpKeeps(Reopened(s), s.pended);
      CoreKept(s3, s3.(pended := 0), {});
    }
  }

  // ---------------------------------------------------------------- the choice of the next task

  /** Some task is ready; the idle task always is. */
  ghost predicate SomeoneReady(s: Sched) {
    exists t :: InReady(s, t)
  }

  lemma {:induction false} HighestInUseIsHighest(rs: ReadyLists, p: Priority, q: Priority)
    requires q <= p && rs[q].items != []
    ensures var h := HighestInUse(rs, p);
            q <= h && rs[h].items != [] && (forall r :: h < r <= p ==> rs[r].items == [])
  {
    if p > 0 && rs[p].items == [] {
      HighestInUseIsHighest(rs, p - 1, q);
    }
  }

  lemma ReadyBelowTop(s: Sched, t: nat)
    requires ByPriority(s) && InReady(s, t)
    ensures PriorityOf(s, t) <= s.top && s.ready[PriorityOf(s, t)].items != []
  {
  }

  /** A context switch picks, among all ready tasks, one of the highest priority, and among those of
      that priority the one whose turn it is. */
  lemma SwitchPicksHighest(s: Sched)
    requires ByPriority(s) && s.depth == 0 && SomeoneReady(s)
    ensures var s' := SwitchContext(s);
            var p := PriorityOf(s, s'.current);
            && InReady(s, s'.current)
            && (forall t :: InReady(s, t) ==> PriorityOf(s, t) <= p)
            && s'.current == s.ready[p].Upcoming()[0]
            && s'.ready == s.ready[p := s.ready[p].Advance()] && s'.top == p
  {
    var t :| InReady(s, t);
    ReadyBelowTop(s, t);
    HighestInUseIsHighest(s.ready, s.top, PriorityOf(s, t));
    var p := HighestInUse(s.ready, s.top);
    AdvanceRotates(s.ready[p]);
    var c := SwitchContext(s).current;
    assert c == s.ready[p].Advance().items[s.ready[p].Advance().index - 1];
    assert c in s.ready[p].items;
    forall x | InReady(s, x) ensures PriorityOf(s, x) <= p {
      ReadyBelowTop(s, x);
    }
  }

  lemma AdvancedHomes(s: Sched, s': Sched, p: Priority, x: nat)
    requires s.ready[p].items != []
    requires s' == s.(yieldPending := false, ready := s.ready[p := s.ready[p].Advance()], top := p,
                      current := s'.current)
    ensures Homes(s', x) == Homes(s, x) && OtherHomes(s', x) == OtherHomes(s, x)
    ensures InReady(s', x) <==> InReady(s, x)
  {
  }

  lemma AdvanceKeepsPartition(s: Sched)
    requires Partition(s, {}) && ByPriority(s) && s.depth == 0 && SomeoneReady(s)
    ensures Partition(SwitchContext(s), {})
  {
    var s' := SwitchContext(s);
    SwitchPicksHighest(s);
    forall x { AdvancedHomes(s, s', s'.top, x); }
  }

  lemma AdvanceKeepsEvents(s: Sched)
    requires EventsMatch(s) && ByPriority(s) && s.depth == 0 && SomeoneReady(s)
    ensures EventsMatch(SwitchContext(s))
  {
    var s' := SwitchContext(s);
    SwitchPicksHighest(s);
    forall x | x in s.events || x in s.pending ensures Blocked(s', x) {
      assert Blocked(s, x);
      AdvancedHomes(s, s', s'.top, x);
    }
  }

  lemma SwitchKeepsOthers(s: Sched)
    ensures var s' := SwitchContext(s);
            s' == s.(yieldPending := s'.yieldPending, ready := s'.ready, top := s'.top, current := s'.current)
  {
  }

  lemma SwitchKeeps(s: Sched)
    requires Core(s, {}) && SomeoneReady(s)
    ensures Core(SwitchContext(s), {}) && SwitchContext(s).delay == s.delay
  {
    SwitchKeepsOthers(s);
    if s.depth > 0 {
      YieldIfKeeps(s, true);
    } else {
      hide Partition, EventsMatch, SomeoneReady, HighestInUse;
      AdvanceKeepsPartition(s);
      AdvanceKeepsEvents(s);
      SwitchKeepsOrder(s);
      SwitchPicksReady(s);
      hide SwitchContext;
    }
  }

  lemma SwitchPicksReady(s: Sched)
    requires ByPriority(s) && s.depth == 0 && SomeoneReady(s)
    ensures SwitchContext(s).current in s.tasks
  {
    SwitchPicksHighest(s);
  }

  lemma SwitchKeepsOrder(s: Sched)
    requires ByPriority(s) && s.depth == 0 && SomeoneReady(s)
    ensures ByPriority(SwitchContext(s))
  {
    var t :| InReady(s, t);
    ReadyBelowTop(s, t);
    HighestInUseIsHighest(s.ready, s.top, PriorityOf(s, t));
  }

  // ---------------------------------------------------------------- inheritance keeps the invariant

  lemma ReprioritiseKeeps(s: Sched, t: nat, p: Priority)
    requires Core(s, {}) && t in s.tasks
    ensures Core(Reprioritise(s, t, p), {})
    ensures Reprioritise(s, t, p).delay == s.delay
  {
    if InReady(s, t) {
      ReadyWaitsForNothing(s, t);
      UnlinkKeeps(s, t);
      var s1 := Unlink(s, t);
      UnlinkedNotReady(s, t);
      SetPriorityKeeps(s1, {t}, t, p);
      AddReadyKeeps(SetPriority(s1, t, p), {t}, t);
      assert {t} - {t} == {};
    } else {
      SetPriorityKeeps(s, {}, t, p);
    }
  }

  lemma SetHeldPartition(s: Sched, t: nat, n: nat)
    requires Partition(s, {}) && t in s.tasks
    ensures Partition(SetHeld(s, t, n), {})
  {
    var s' := SetHeld(s, t, n);
    forall x ensures Homes(s', x) == Homes(s, x) && OtherHomes(s', x) == OtherHomes(s, x) {
      assert PriorityOf(s', x) == PriorityOf(s, x);
    }
  }

  lemma SetHeldSides(s: Sched, t: nat, n: nat)
    requires EventsMatch(s) && ByPriority(s) && t in s.tasks
    ensures EventsMatch(SetHeld(s, t, n)) && ByPriority(SetHeld(s, t, n))
  {
    var s' := SetHeld(s, t, n);
    forall x | x in s.events || x in s.pending ensures Blocked(s', x) {
      assert Blocked(s, x) && PriorityOf(s', x) == PriorityOf(s, x);
    }
  }

  lemma SetHeldKeeps(s: Sched, t: nat, n: nat)
    requires Core(s, {}) && t in s.tasks
    ensures Core(SetHeld(s, t, n), {})
  {
    SetHeldPartition(s, t, n);
    SetHeldSides(s, t, n);
    SameKeysSameCount(s.tasks, SetHeld(s, t, n).tasks);
    hide Partition, EventsMatch, ByPriority;
    assert SetHeld(s, t, n).tasks.Keys == s.tasks.Keys;
  }

  lemma InheritKeeps(s: Sched, t: nat, p: Priority)
    requires Core(s, {}) && t in s.tasks
    ensures Core(Inherit(s, t), {}) && Core(DisinheritAfterTimeout(s, t, p), {})
    ensures Inherit(s, t).delay == s.delay && DisinheritAfterTimeout(s, t, p).delay == s.delay
  {
    hide Core, Reprioritise;
    ReprioritiseKeeps(s, t, PriorityOf(s, s.current));
    ReprioritiseKeeps(s, t, if BaseOf(s, t) < p then p else BaseOf(s, t));
  }

  lemma DisinheritKeeps(s: Sched)
    requires Core(s, {}) && HeldBy(s, s.current) > 0
    ensures Core(Disinherit(s), {}) && Disinherit(s).delay == s.delay
  {
    hide Core, Reprioritise;
    var s1 := SetHeld(s, s.current, HeldBy(s, s.current) - 1);
    SetHeldKeeps(s, s.current, HeldBy(s, s.current) - 1);
    ReprioritiseKeeps(s1, s.current, BaseOf(s, s.current));
  }
}
