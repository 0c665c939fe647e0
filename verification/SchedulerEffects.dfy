/** What each operation of the scheduler does: where it leaves the task it is about, and that it leaves
    every other task where it was. */
module SchedulerEffects {
  import opened Ticks
  import opened Lists
  import opened Delays
  import opened SchedState
  import opened Scheduler
  import opened SchedulerRuns
  import SleepRuns
  import RoundRobin
  import Kernel

  /** `x` is on the same lists, sleeps until the same time and waits for the same things. */
  ghost predicate Same(s: Sched, s': Sched, x: nat) {
    && (InReady(s', x) <==> InReady(s, x))
    && (forall w: Timed :: w.owner == x ==> (w in Waiting(s'.delay) <==> w in Waiting(s.delay)))
    && (x in s'.suspended <==> x in s.suspended) && (x in s'.terminating <==> x in s.terminating)
    && (x in s'.events <==> x in s.events) && (x in s'.pending <==> x in s.pending)
    && (x in s'.tasks <==> x in s.tasks) && (x in s.tasks && x in s'.tasks ==> s'.tasks[x] == s.tasks[x])
  }

  lemma SameTransitive(s: Sched, s1: Sched, s2: Sched, x: nat)
    requires Same(s, s1, x) && Same(s1, s2, x)
    ensures Same(s, s2, x)
  {
    hide InReady, Waiting;
  }

  // ---------------------------------------------------------------- the moves they are made of

  lemma ClearEventSame(s: Sched, t: nat, x: nat)
    requires x != t
    ensures Same(s, ClearEvent(s, t), x)
  {
    hide Waiting, Without;
    WithoutMembersOnly(s.pending, t);
  }

  lemma ClearedEvent(s: Sched, t: nat)
    ensures var s' := ClearEvent(s, t);
            && t !in s'.events && t !in s'.pending
            && s' == s.(events := s.events - {t}, pending := s'.pending) && s'.pending == Without(s.pending, t)
  {
    hide Without;
    WithoutMembersOnly(s.pending, t);
  }

  lemma UnlinkSame(s: Sched, t: nat, x: nat)
    requires x != t && Delays.Inv(s.delay)
    ensures Same(s, Unlink(s, t), x)
  {
    SleepRuns.UnlinkAlike(s, t, x);
    UnlinkLists(s, t, x);
    UnlinkKeepsEvents(s, t);
    hide InReady, Waiting, Unlink;
  }

  lemma UnlinkLists(s: Sched, t: nat, x: nat)
    requires x != t
    ensures x in Unlink(s, t).suspended <==> x in s.suspended
    ensures x in Unlink(s, t).terminating <==> x in s.terminating
  {
    hide Without, Cancel, RemoveReady;
    WithoutMembersOnly(s.suspended, t);
    WithoutMembersOnly(s.terminating, t);
    assert RemoveReady(s, t).suspended == s.suspended && RemoveReady(s, t).terminating == s.terminating by {
      RemoveReadyOthers(s, t);
    }
  }

  lemma RemoveReadyOthers(s: Sched, t: nat)
    ensures RemoveReady(s, t) == s.(ready := RemoveReady(s, t).ready)
  {
  }

  /** Taken off its list, the task is on none: not ready, not suspended, not terminating, awake. */
  lemma Unlinked(s: Sched, t: nat)
    requires Core(s, {}) && Delays.Inv(s.delay) && t in s.tasks
    ensures var s' := Unlink(s, t);
            && Core(s', {t}) && Delays.Inv(s'.delay) && s' == s.(ready := s'.ready, delay := s'.delay,
                                       suspended := s'.suspended, terminating := s'.terminating)
            && !InReady(s', t) && t !in s'.suspended && t !in s'.terminating && Awake(s'.delay, t)
  {
    UnlinkKeeps(s, t);
    UnlinkKeepsEvents(s, t);
    UnlinkTouches(s, t);
    var s' := Unlink(s, t);
    hide Unlink, ByPriority, EventsMatch, Delays.Inv, Awake;
    LooseIsNowhere(s', {t}, t);
    LooseIsAwake(s', t);
  }

  lemma UnlinkTouches(s: Sched, t: nat)
    ensures var s' := Unlink(s, t);
            s' == s.(ready := s'.ready, delay := s'.delay, suspended := s'.suspended, terminating := s'.terminating)
  {
  }

  lemma LooseIsAwake(s: Sched, t: nat)
    requires Partition(s, {t}) && t in s.tasks
    ensures Awake(s.delay, t)
  {
    LooseIsUndated(s, t);
    hide Dated, Owners, Partition;
    forall x | x in Waiting(s.delay) ensures x.owner != t {
      if x in Dated(s.delay.cur, s.delay.epoch) {
        SleepRuns.DatedMember(s.delay.cur, s.delay.epoch, x);
      } else {
        SleepRuns.DatedMember(s.delay.ovf, s.delay.epoch + 1, x);
      }
    }
  }

  lemma LooseIsUndated(s: Sched, t: nat)
    requires Partition(s, {t}) && t in s.tasks
    ensures t !in Owners(s.delay.cur) && t !in Owners(s.delay.ovf)
  {
    hide Owners;
    assert Homes(s, t) == 0;
  }

  lemma AddReadySame(s: Sched, t: nat, x: nat)
    requires x != t
    ensures Same(s, AddReady(s, t), x)
  {
    hide Waiting, Ring.InsertEnd;
    AddReadyReady(s, t, x);
    SleepRuns.AddReadyOthers(s, t);
    hide AddReady;
  }

  lemma AddedReady(s: Sched, t: nat)
    ensures var s' := AddReady(s, t);
            InReady(s', t) && s' == s.(ready := s'.ready, top := s'.top)
  {
    AddReadyReady(s, t, t);
    SleepRuns.AddReadyOthers(s, t);
    hide AddReady;
  }

  lemma UnlinkRescanSame(s: Sched, x: nat)
    ensures Same(s, RescanDelay(s), x)
  {
    hide Dated;
  }

  lemma YieldSame(s: Sched, y: bool, x: nat)
    ensures Same(s, YieldIf(s, y), x)
  {
    hide Waiting;
  }

  lemma RelinkSame(s: Sched, t: nat, x: nat)
    requires x != t && Delays.Inv(s.delay)
    ensures Same(s, AddReady(Unlink(s, t), t), x)
  {
    hide Same, Unlink, AddReady;
    UnlinkSame(s, t, x);
    AddReadySame(Unlink(s, t), t, x);
    SameTransitive(s, Unlink(s, t), AddReady(Unlink(s, t), t), x);
  }

  /** The task moved to its ready list is ready and nothing else. */
  lemma Relinked(s: Sched, t: nat)
    requires Core(s, {}) && Delays.Inv(s.delay) && t in s.tasks
    ensures var s' := AddReady(Unlink(s, t), t);
            && InReady(s', t) && t !in s'.suspended && t !in s'.terminating && Awake(s'.delay, t)
            && s'.events == s.events && s'.pending == s.pending && s'.yieldPending == s.yieldPending
            && s'.tasks == s.tasks
  {
    hide Core, Delays.Inv, Unlink, AddReady, InReady, Awake;
    Unlinked(s, t);
    AddedReady(Unlink(s, t), t);
  }

  // ---------------------------------------------------------------- waking

  /** The event a task waits for has happened: it waits for it no more, and is ready at once or, while the
      scheduler is suspended, parked behind those parked before. */
  lemma WakeMeans(s: Sched, t: nat)
    requires Core(s, {}) && Delays.Inv(s.delay) && t in s.events
    ensures var s' := RemoveFromEventList(s, t);
            && t !in s'.events
            && (s.depth == 0 ==> InReady(s', t) && Awake(s'.delay, t) && t !in s'.suspended && t !in s'.pending)
            && (s.depth > 0 ==> s'.pending == s.pending + [t] && s'.ready == s.ready && s'.delay == s.delay)
            && (s'.yieldPending <==> s.yieldPending || PriorityOf(s, t) > PriorityOf(s, s.current))
  {
    hide AddReady, Unlink, Without, Partition, ByPriority, InReady, Awake, Delays.Inv;
    var s1 := ClearEvent(s, t);
    EventWaiterIsLive(s, t);
    ClearedEvent(s, t);
    ClearEventKeeps(s, t, {});
    NotThereAnyway(s.pending, t);
    if s.depth == 0 {
      Relinked(s1, t);
    }
    hide ClearEvent;
    AlsoAfterYield(Wake(s, t), Outranks(s, t), t);
  }

  lemma NotThereAnyway(q: seq<nat>, t: nat)
    ensures t !in q ==> Without(q, t) == q
  {
  }

  lemma AlsoAfterYield(s: Sched, y: bool, t: nat)
    ensures InReady(YieldIf(s, y), t) == InReady(s, t)
  {
  }

  /** Nobody else is moved. */
  lemma WakeSpares(s: Sched, t: nat, x: nat)
    requires Core(s, {}) && Delays.Inv(s.delay) && t in s.events && x != t
    ensures Same(s, RemoveFromEventList(s, t), x)
  {
    hide Same, AddReady, Unlink, ClearEvent, Core, Delays.Inv;
    var s1 := ClearEvent(s, t);
    SleepRuns.ClearKeepsDelay(s, t);
    ClearEventSame(s, t, x);
    RelinkSame(s1, t, x);
    ParkSame(s1, t, x);
    SameTransitive(s, s1, Wake(s, t), x);
    YieldSame(Wake(s, t), Outranks(s, t), x);
    SameTransitive(s, Wake(s, t), RemoveFromEventList(s, t), x);
  }

  lemma ParkSame(s: Sched, t: nat, x: nat)
    requires x != t
    ensures Same(s, s.(pending := s.pending + [t]), x)
  {
    hide Waiting;
  }

  /** The form used by event groups: the task is ready at once. */
  lemma WakeUnorderedMeans(s: Sched, t: nat)
    requires Core(s, {}) && Delays.Inv(s.delay) && t in s.events
    ensures var s' := RemoveFromUnorderedEventList(s, t);
            && t !in s'.events && t !in s'.pending && InReady(s', t) && Awake(s'.delay, t) && t !in s'.suspended
            && (s'.yieldPending <==> s.yieldPending || PriorityOf(s, t) > PriorityOf(s, s.current))
  {
    hide AddReady, Unlink, Without, Partition, ByPriority, InReady, Awake, Delays.Inv;
    EventWaiterIsLive(s, t);
    ClearedEvent(s, t);
    ClearEventKeeps(s, t, {});
    Relinked(ClearEvent(s, t), t);
    hide ClearEvent;
    AlsoAfterYield(MakeReady(s, t), Outranks(s, t), t);
  }

  lemma WakeUnorderedSpares(s: Sched, t: nat, x: nat)
    requires Delays.Inv(s.delay) && x != t
    ensures Same(s, RemoveFromUnorderedEventList(s, t), x)
  {
    hide Same, AddReady, Unlink, ClearEvent, Delays.Inv;
    var s1 := ClearEvent(s, t);
    SleepRuns.ClearKeepsDelay(s, t);
    ClearEventSame(s, t, x);
    RelinkSame(s1, t, x);
    SameTransitive(s, s1, MakeReady(s, t), x);
    YieldSame(MakeReady(s, t), Outranks(s, t), x);
    SameTransitive(s, MakeReady(s, t), RemoveFromUnorderedEventList(s, t), x);
  }

  /** Whoever is parked is ready once the scheduler is resumed, and nobody is parked then. */
  lemma ParkedIsReadied(s: Sched, t: nat)
    requires SchedState.Inv(s) && s.depth == 1 && t in s.pending
    ensures InReady(ResumeAll(s), t) && ResumeAll(s).pending == [] && ResumeAll(s).depth == 0
  {
    hide CatchUp, InReady, Drain, RescanDelay, Partition, ByPriority, EventsMatch, Delays.Inv;
    var s1 := s.(depth := 0);
    CoreKept(s, s1, {});
    DrainReadies(s1, t);
    hide Core;
    ReadyAfterRescan(Drain(s1), t);
    ReopenedPended(s);
    CatchUpStill(Reopened(s), s.pended, t);
    ReopenedKeeps(s);
    CatchUpKeeps(Reopened(s), s.pended);
    ReadyAnyway(CatchUp(Reopened(s), s.pended), t);
  }

  lemma ReadyAfterRescan(s: Sched, t: nat)
    ensures InReady(RescanDelay(s), t) == InReady(s, t)
  {
  }

  lemma ReadyAnyway(s: Sched, t: nat)
    ensures InReady(s.(pended := 0), t) == InReady(s, t)
  {
  }

  lemma {:induction false} DrainReadies(s: Sched, t: nat)
    requires t in s.pending || InReady(s, t)
    ensures InReady(Drain(s), t)
    decreases |s.pending|
  {
    hide Drain, InReady;
    if s.pending == [] {
      Kernel.DrainEnd(s);
    } else {
      Kernel.DrainStep(s);
      HeadDrainedReadies(s, t);
      hide Kernel.HeadDrained;
      DrainReadies(Kernel.HeadDrained(s), t);
    }
  }

  lemma HeadDrainedReadies(s: Sched, t: nat)
    requires s.pending != [] && (t in s.pending || InReady(s, t))
    ensures var s1 := Kernel.HeadDrained(s);
            (t in s1.pending || InReady(s1, t)) && |s1.pending| < |s.pending|
  {
    var u := s.pending[0];
    var s1 := YieldIf(s, PriorityOf(s, u) >= PriorityOf(s, s.current));
    hide MakeReady, Without;
    WithoutHeadShorter(s.pending);
    WithoutMembersOnly(s.pending, u);
    MakeReadyOthers(s1, u);
    MadeReady(s1, u);
    AlsoAfterYield(s, PriorityOf(s, u) >= PriorityOf(s, s.current), t);
    if InReady(s, t) {
      MakeReadyStill(s1, u, t);
    }
  }

  lemma MadeReady(s: Sched, t: nat)
    ensures InReady(MakeReady(s, t), t)
  {
    AddedReady(Unlink(ClearEvent(s, t), t), t);
    hide AddReady, Unlink, ClearEvent;
  }

  // ---------------------------------------------------------------- suspending and resuming a task

  /** A task that is suspended is on the suspended list alone, whatever it was doing, and waits for
      nothing; a resume would find it suspended. */
  lemma SuspendMeans(s: Sched, t: nat)
    requires Core(s, {}) && Delays.Inv(s.delay) && t in s.tasks
    ensures var s' := SuspendTask(s, t);
            && t in s'.suspended && !InReady(s', t) && Awake(s'.delay, t)
            && t !in s'.events && t !in s'.pending && t !in s'.terminating && IsSuspended(s', t)
  {
    hide Unlink, Core, Delays.Inv, ClearEvent, InReady, RescanDelay, Awake;
    var s1 := ClearEvent(s, t);
    ClearedEvent(s, t);
    ClearedCore(s, t);
    Unlinked(s1, t);
    SuspendedThen(Unlink(s1, t), t);
  }

  lemma ClearedCore(s: Sched, t: nat)
    requires Core(s, {}) && Delays.Inv(s.delay)
    ensures Core(ClearEvent(s, t), {}) && Delays.Inv(ClearEvent(s, t).delay)
  {
    SleepRuns.ClearKeepsDelay(s, t);
    ClearEventKeeps(s, t, {});
    hide Core, Delays.Inv, ClearEvent;
  }

  lemma SuspendedThen(s: Sched, t: nat)
    ensures var s' := RescanDelay(AddSuspended(s, t));
            && t in s'.suspended && InReady(s', t) == InReady(s, t) && Awake(s'.delay, t) == Awake(s.delay, t)
            && s'.events == s.events && s'.pending == s.pending && s'.terminating == s.terminating
  {
    hide Dated;
  }

  lemma SuspendSpares(s: Sched, t: nat, x: nat)
    requires Core(s, {}) && Delays.Inv(s.delay) && x != t
    ensures Same(s, SuspendTask(s, t), x)
  {
    hide Same, Unlink, ClearEvent, Delays.Inv, RescanDelay, AddSuspended;
    var s1 := ClearEvent(s, t);
    var s2 := Unlink(s1, t);
    var s3 := AddSuspended(s2, t);
    SleepRuns.ClearKeepsDelay(s, t);
    ClearEventSame(s, t, x);
    UnlinkSame(s1, t, x);
    AppendSame(s2, t, x);
    UnlinkRescanSame(s3, x);
    SameTransitive(s, s1, s2, x);
    SameTransitive(s, s2, s3, x);
    SameTransitive(s, s3, SuspendTask(s, t), x);
  }

  lemma AppendSame(s: Sched, t: nat, x: nat)
    requires x != t
    ensures Same(s, AddSuspended(s, t), x) && Same(s, AddTerminating(s, t), x)
  {
    hide Waiting;
  }

  /** A task on the suspended list that waits for nothing and has not been resumed already is ready after a
      resume; a resume of any other task, or of the running one, does nothing. */
  lemma ResumeMeans(s: Sched, t: nat)
    requires Core(s, {}) && Delays.Inv(s.delay)
    ensures var s' := ResumeTask(s, t);
            if t != s.current && t in s.suspended && t !in s.events && t !in s.pending
            then InReady(s', t) && t !in s'.suspended && Awake(s'.delay, t)
            else s' == s
  {
    hide AddReady, Unlink, Partition, ByPriority, InReady, Awake, Delays.Inv;
    if t != s.current && IsSuspended(s, t) {
      SuspendedIsLive(s, t);
      Relinked(s, t);
    }
  }

  lemma ResumeSpares(s: Sched, t: nat, x: nat)
    requires Delays.Inv(s.delay) && x != t
    ensures Same(s, ResumeTask(s, t), x) && Same(s, ResumeFromISR(s, t), x)
  {
    hide Same, AddReady, Unlink, Delays.Inv;
    var y := PriorityOf(s, t) >= PriorityOf(s, s.current);
    YieldSame(s, false, x);
    YieldSame(s, y, x);
    RelinkSame(s, t, x);
    RelinkSame(YieldIf(s, y), t, x);
    ParkSame(s, t, x);
    SameTransitive(s, YieldIf(s, y), AddReady(Unlink(YieldIf(s, y), t), t), x);
  }

  /** The same from an interrupt; while the scheduler is suspended the task is parked, and the request to
      switch is noted when it is at least as urgent as the running one. */
  lemma ResumeFromISRMeans(s: Sched, t: nat)
    requires Core(s, {}) && Delays.Inv(s.delay)
    ensures var s' := ResumeFromISR(s, t);
            if t in s.suspended && t !in s.events && t !in s.pending then
              && (s.depth == 0 ==>
                    && InReady(s', t) && t !in s'.suspended && Awake(s'.delay, t)
                    && (s'.yieldPending <==> s.yieldPending || PriorityOf(s, t) >= PriorityOf(s, s.current)))
              && (s.depth > 0 ==> s'.pending == s.pending + [t] && s'.ready == s.ready)
            else s' == s
  {
    hide AddReady, Unlink, Partition, ByPriority, InReady, Awake, Delays.Inv;
    if IsSuspended(s, t) && s.depth == 0 {
      var y := PriorityOf(s, t) >= PriorityOf(s, s.current);
      SuspendedIsLive(s, t);
      YieldIfKeeps(s, y);
      Relinked(YieldIf(s, y), t);
    }
  }

  // ---------------------------------------------------------------- creating and deleting

  /** A new task has the priority asked for, holds nothing, and is ready. */
  lemma CreateMeans(s: Sched, t: nat, p: Priority)
    requires t !in s.tasks
    ensures var s' := Create(s, t, p);
            && t in s'.tasks && s'.tasks[t].priority == p && s'.tasks[t].base == p && s'.tasks[t].mutexesHeld == 0
            && InReady(s', t) && s'.count == s.count + 1
  {
    AddedReady(NewTask(s, t, p), t);
    hide AddReady;
  }

  lemma CreateSpares(s: Sched, t: nat, p: Priority, x: nat)
    requires x != t
    ensures Same(s, Create(s, t, p), x)
  {
    hide Same, AddReady;
    NewTaskSame(s, t, p, x);
    AddReadySame(NewTask(s, t, p), t, x);
    SameTransitive(s, NewTask(s, t, p), Create(s, t, p), x);
  }

  lemma NewTaskSame(s: Sched, t: nat, p: Priority, x: nat)
    requires x != t
    ensures Same(s, NewTask(s, t, p), x)
  {
    hide Waiting;
  }

  /** A task deleted by another is gone, from every list; one that deletes itself is on the termination
      list alone, and still counted. */
  lemma DeleteMeans(s: Sched, t: nat)
    requires Core(s, {}) && Delays.Inv(s.delay) && t in s.tasks
    ensures var s' := Delete(s, t);
            && !InReady(s', t) && t !in s'.suspended && Awake(s'.delay, t) && t !in s'.events && t !in s'.pending
            && (if t == s.current then t in s'.terminating && t in s'.tasks && s'.count == s.count
                else t !in s'.terminating && t !in s'.tasks && s'.count == s.count - 1)
  {
    hide Unlink, Core, Delays.Inv, ClearEvent, InReady, RescanDelay, Awake;
    var s1 := ClearEvent(s, t);
    ClearedEvent(s, t);
    ClearedCore(s, t);
    Unlinked(s1, t);
    DroppedThen(Unlink(s1, t), t);
    TerminatedThen(Unlink(s1, t), t);
    LooseIsOff(Unlink(s1, t), t);
  }

  lemma DroppedThen(s: Sched, t: nat)
    ensures var s' := RescanDelay(DropTask(s, t));
            && t !in s'.tasks && s'.suspended == s.suspended && s'.terminating == s.terminating
            && s'.events == s.events && s'.pending == s.pending && s'.ready == s.ready
            && Awake(s'.delay, t) == Awake(s.delay, t) && (s.count > 0 ==> s'.count == s.count - 1)
            && (InReady(s', t) <==> t in s.ready[0].items)
  {
    hide Dated;
  }

  lemma TerminatedThen(s: Sched, t: nat)
    ensures var s' := AddTerminating(s, t);
            && t in s'.terminating && s' == s.(terminating := s'.terminating) && InReady(s', t) == InReady(s, t)
  {
  }

  lemma LooseIsOff(s: Sched, t: nat)
    requires Core(s, {t}) && t in s.tasks && !InReady(s, t)
    ensures s.count > 0 && t !in s.ready[0].items
  {
    hide Partition, EventsMatch;
    OneFewer(s.tasks, t);
  }

  lemma DeleteSpares(s: Sched, t: nat, x: nat)
    requires Core(s, {}) && Delays.Inv(s.delay) && x != t
    ensures Same(s, Delete(s, t), x)
  {
    hide Same, Unlink, ClearEvent, Core, Delays.Inv, RescanDelay, AddTerminating, DropTask;
    var s1 := ClearEvent(s, t);
    var s2 := Unlink(s1, t);
    SleepRuns.ClearKeepsDelay(s, t);
    ClearEventSame(s, t, x);
    UnlinkSame(s1, t, x);
    SameTransitive(s, s1, s2, x);
    if t == s.current {
      AppendSame(s2, t, x);
      SameTransitive(s, s2, AddTerminating(s2, t), x);
    } else {
      DropSame(s2, t, x);
      UnlinkRescanSame(DropTask(s2, t), x);
      SameTransitive(s, s2, DropTask(s2, t), x);
      SameTransitive(s, DropTask(s2, t), RescanDelay(DropTask(s2, t)), x);
    }
  }

  lemma DropSame(s: Sched, t: nat, x: nat)
    requires x != t
    ensures Same(s, DropTask(s, t), x)
  {
    hide Waiting;
  }

  /** The idle task frees exactly the tasks that have deleted themselves. */
  lemma {:induction false} CleanUpMeans(s: Sched, x: nat)
    ensures x in CleanUp(s).tasks <==> x in s.tasks && x !in s.terminating
    ensures x in CleanUp(s).tasks ==> CleanUp(s).tasks[x] == s.tasks[x]
    decreases |s.terminating|
  {
    if s.terminating != [] {
      var s1 := DropTask(s.(terminating := s.terminating[1..]), s.terminating[0]);
      assert s.terminating == [s.terminating[0]] + s.terminating[1..];
      CleanUpMeans(s1, x);
    }
  }

  // ---------------------------------------------------------------- blocking

  /** The running task that blocks for ever is on the suspended list alone; it waits for an event exactly
      if it asked to, and if it did a resume would not find it suspended. */
  lemma BlockForEverMeans(s: Sched, onEvent: bool)
    requires Good(s) && InReady(s, s.current)
    ensures var s', t := Block(s, MAX_DELAY, true, onEvent), s.current;
            && t in s'.suspended && !InReady(s', t) && Awake(s'.delay, t) && t !in s'.terminating
            && (t in s'.events <==> onEvent) && (IsSuspended(s', t) <==> !onEvent)
  {
    hide Unlink, Core, Delays.Inv, InReady, Awake, EventsMatch;
    var t := s.current;
    SleepRuns.GoodIsCore(s);
    CurrentIsLive(s);
    ReadyWaitsForNothing(s, t);
    Unlinked(s, t);
    BlockedForEver(s, onEvent);
  }

  lemma BlockedForEver(s: Sched, onEvent: bool)
    ensures var s', s1, t := Block(s, MAX_DELAY, true, onEvent), Unlink(s, s.current), s.current;
            && s'.suspended == s1.suspended + [t] && InReady(s', t) == InReady(s1, t) && s'.delay == s1.delay
            && s'.terminating == s1.terminating && s'.pending == s1.pending
            && s'.events == (if onEvent then s1.events + {t} else s1.events)
  {
    hide Unlink;
  }

  lemma BlockSpares(s: Sched, n: Tick, indefinitely: bool, onEvent: bool, x: nat)
    requires Delays.Inv(s.delay) && x != s.current
    ensures Same(s, Block(s, n, indefinitely, onEvent), x)
  {
    hide Same, Unlink, AddSuspended, AddDelayed, Delays.Inv;
    var t := s.current;
    var s1 := Unlink(s, t);
    var s2 := if n == MAX_DELAY && indefinitely then AddSuspended(s1, t) else AddDelayed(s1, t, n);
    UnlinkSame(s, t, x);
    AppendSame(s1, t, x);
    AddDelayedSame(s1, t, n, x);
    WaitSame(s2, t, x);
    SameTransitive(s, s1, s2, x);
    SameTransitive(s, s2, s2.(events := s2.events + {t}), x);
  }

  lemma AddDelayedSame(s: Sched, t: nat, n: Tick, x: nat)
    requires x != t
    ensures Same(s, AddDelayed(s, t, n), x)
  {
    hide Sleep, Waiting;
    SleepRuns.AddDelayedAlike(s, t, x, n);
  }

  lemma WaitSame(s: Sched, t: nat, x: nat)
    requires x != t
    ensures Same(s, s.(events := s.events + {t}), x)
  {
    hide Waiting;
  }

  // ---------------------------------------------------------------- switching

  /** While the scheduler is suspended a switch is only noted; a switch that is made settles what was. */
  lemma SwitchMeans(s: Sched)
    requires Good(s)
    ensures var s' := SwitchContext(s);
            if s.depth > 0 then s'.yieldPending && s' == s.(yieldPending := true) else !s'.yieldPending
  {
    RoundRobin.GoodIsCore(s);
    assert InReady(s, IDLE);
    hide Good, Partition, EventsMatch, HighestInUse;
    if s.depth == 0 {
      HighestIsUsed(s);
    }
  }

  lemma HighestIsUsed(s: Sched)
    requires ByPriority(s) && InReady(s, IDLE)
    ensures s.ready[HighestInUse(s.ready, s.top)].items != []
  {
    ReadyBelowTop(s, IDLE);
    HighestInUseIsHighest(s.ready, s.top, PriorityOf(s, IDLE));
  }

  // ---------------------------------------------------------------- priorities

  /** A task that is given another priority has it, and is ready exactly if it was. */
  lemma ReprioritiseMeans(s: Sched, t: nat, p: Priority)
    requires t in s.tasks
    ensures var s' := Reprioritise(s, t, p);
            && s'.tasks == s.tasks[t := s.tasks[t].(priority := p)]
            && (InReady(s, t) ==> InReady(s', t))
  {
    UnlinkKeepsEvents(s, t);
    AddedReady(SetPriority(Unlink(s, t), t, p), t);
    hide Unlink, AddReady;
  }

  /** The holder comes to be exactly as urgent as the more urgent of itself and the running task. */
  lemma InheritMeans(s: Sched, h: nat)
    requires h in s.tasks
    ensures var s', p, q := Inherit(s, h), PriorityOf(s, h), PriorityOf(s, s.current);
            && PriorityOf(s', h) == (if p < q then q else p)
            && BaseOf(s', h) == BaseOf(s, h) && HeldBy(s', h) == HeldBy(s, h)
            && (InReady(s, h) ==> InReady(s', h))
  {
    hide Reprioritise, InReady;
    ReprioritiseMeans(s, h, PriorityOf(s, s.current));
  }

  /** With the last mutex goes what was inherited, and not before. */
  lemma DisinheritMeans(s: Sched)
    requires s.current in s.tasks && HeldBy(s, s.current) > 0
    ensures var s', t := Disinherit(s), s.current;
            && HeldBy(s', t) == HeldBy(s, t) - 1 && BaseOf(s', t) == BaseOf(s, t)
            && PriorityOf(s', t) == (if HeldBy(s, t) == 1 then BaseOf(s, t) else PriorityOf(s, t))
            && (InReady(s, t) ==> InReady(s', t))
  {
    hide Reprioritise;
    var t := s.current;
    ReprioritiseMeans(SetHeld(s, t, HeldBy(s, t) - 1), t, BaseOf(s, t));
  }

  /** After a waiter's timeout the holder of one mutex is left exactly the more urgent of its own priority
      and that of the most urgent who still waits; the holder of several keeps what it has. */
  lemma DisinheritAfterTimeoutMeans(s: Sched, h: nat, highest: Priority)
    requires h in s.tasks
    ensures var s', p := DisinheritAfterTimeout(s, h, highest), BaseOf(s, h);
            && BaseOf(s', h) == p && HeldBy(s', h) == HeldBy(s, h)
            && (if HeldBy(s, h) == 1
                then p <= PriorityOf(s', h) && highest <= PriorityOf(s', h) && PriorityOf(s', h) in {p, highest}
                else PriorityOf(s', h) == PriorityOf(s, h))
            && (InReady(s, h) ==> InReady(s', h))
  {
    hide Reprioritise, InReady;
    ReprioritiseMeans(s, h, if BaseOf(s, h) < highest then highest else BaseOf(s, h));
  }

  lemma CountMutexMeans(s: Sched)
    requires s.current in s.tasks
    ensures var s', t := CountMutex(s), s.current;
            && HeldBy(s', t) == HeldBy(s, t) + 1 && PriorityOf(s', t) == PriorityOf(s, t)
            && BaseOf(s', t) == BaseOf(s, t)
            && forall x :: x != t ==> HeldBy(s', x) == HeldBy(s, x) && PriorityOf(s', x) == PriorityOf(s, x)
  {
  }

  // ---------------------------------------------------------------- ticks and nesting

  /** A tick asks for a switch if and only if it makes someone ready who is at least as urgent as the
      running task, or another task is ready at the running one's priority, or one was asked for. */
  lemma TickAsksForSwitch(s: Sched)
    ensures var (s', switch) := RunningTick(s);
            var woken := IncrementTick(s.delay).1;
            switch <==>
              || (exists i :: 0 <= i < |woken| && PriorityOf(s, woken[i]) >= PriorityOf(s, s.current))
              || |s'.ready[PriorityOf(s', s'.current)].items| > 1
              || s.yieldPending
  {
    AnyMeans(s, IncrementTick(s.delay).1);
    hide AnyAsUrgent, ReadyAll, IncrementTick;
  }

  lemma {:induction false} AnyMeans(s: Sched, ts: seq<nat>)
    ensures AnyAsUrgent(s, ts) <==> exists i :: 0 <= i < |ts| && PriorityOf(s, ts[i]) >= PriorityOf(s, s.current)
    decreases |ts|
  {
    if ts != [] {
      AnyMeans(s, ts[1..]);
      assert forall i :: 0 <= i < |ts| - 1 ==> ts[1..][i] == ts[i + 1];
      assert forall i :: 0 < i < |ts| ==> ts[i] == ts[1..][i - 1];
    }
  }

  /** A tick while the scheduler is suspended is held back, and nothing else. */
  lemma HeldBack(s: Sched)
    ensures s.depth > 0 ==> TickInterrupt(s) == (s.(pended := s.pended + 1), false)
  {
  }

  /** A resume undoes a suspension in which nothing happened. */
  lemma ResumeUndoesSuspend(s: Sched)
    requires s.depth == 0 ==> s.pending == [] && s.pended == 0
    ensures SuspendAll(s).depth == s.depth + 1 && ResumeAll(SuspendAll(s)) == s
  {
  }

  // ---------------------------------------------------------------- the cached times and the top

  /** The value of the first deadline of this epoch; the largest word if there is none. */
  function FirstDeadline(d: Delay): Tick {
    if d.cur == [] then MAX_DELAY else d.cur[0].value
  }

  /** After a tick that has looked at the list, because of the cached time or of a wrap, and after a
      suspension, a deletion of another task, or a resume that moved parked tasks, the cached unblock time is
      exactly the first deadline; other operations may leave it too early, never too late. */
  lemma CachedTimeMeans(s: Sched, t: nat)
    ensures var d := s.delay;
            d.tick == MAX_DELAY || d.next <= d.tick + 1 ==>
              IncrementTick(d).0.next == FirstDeadline(IncrementTick(d).0)
    ensures SuspendTask(s, t).delay.next == FirstDeadline(SuspendTask(s, t).delay)
    ensures t != s.current ==> Delete(s, t).delay.next == FirstDeadline(Delete(s, t).delay)
    ensures s.pending != [] ==> Reopened(s).delay.next == FirstDeadline(Reopened(s).delay)
  {
    hide Unlink, ClearEvent, Drain, Trailing, Leading, Owners;
  }

  /** Making a task ready raises the top priority to its own if that is higher, and to nothing else; a
      switch lowers it to the priority selected. */
  lemma TopMeans(s: Sched, t: nat)
    ensures var s', p := AddReady(s, t), PriorityOf(s, t);
            p <= s'.top && s.top <= s'.top && s'.top in {p, s.top}
    ensures Good(s) && s.depth == 0 ==> SwitchContext(s).top == PriorityOf(s, SwitchContext(s).current)
  {
    hide Ring.InsertEnd, Partition, EventsMatch, Delays.Inv, SwitchContext;
    if Good(s) && s.depth == 0 {
      SwitchPicksHighest(s);
    }
  }

  // ---------------------------------------------------------------- switches that a resume asks for

  ghost predicate SomeParkedAsUrgent(s: Sched) {
    exists t :: t in s.pending && PriorityOf(s, t) >= PriorityOf(s, s.current)
  }

  /** Moving the parked tasks asks for a switch if and only if one of them is at least as urgent as the
      running task, or one was asked for. */
  lemma {:induction false} DrainAsksForSwitch(s: Sched)
    ensures Drain(s).yieldPending <==> s.yieldPending || SomeParkedAsUrgent(s)
    decreases |s.pending|
  {
    hide Drain;
    if s.pending == [] {
      Kernel.DrainEnd(s);
    } else {
      var s1, t := Kernel.HeadDrained(s), s.pending[0];
      Kernel.DrainStep(s);
      HeadDrainedAsks(s);
      WithoutHeadShorter(s.pending);
      WithoutMembersOnly(s.pending, t);
      hide Kernel.HeadDrained, PriorityOf, Without;
      DrainAsksForSwitch(s1);
      assert t in s.pending;
    }
  }

  lemma HeadDrainedAsks(s: Sched)
    requires s.pending != []
    ensures var s1, t := Kernel.HeadDrained(s), s.pending[0];
            && s1.pending == Without(s.pending, t) && s1.current == s.current
            && (s1.yieldPending <==> s.yieldPending || PriorityOf(s, t) >= PriorityOf(s, s.current))
            && forall x :: PriorityOf(s1, x) == PriorityOf(s, x)
  {
    Kernel.HeadDrainedInSteps(s);
    var t := s.pending[0];
    UnlinkTouches(ClearEvent(s, t), t);
    SleepRuns.AddReadyOthers(Unlink(ClearEvent(s, t), t), t);
    hide Kernel.HeadDrained, Unlink, AddReady, Without;
  }

  /** A held-back tick asks for what the tick itself would have asked for. */
  lemma CatchUpAsksForSwitch(s: Sched)
    ensures CatchUpOne(s).yieldPending <==> RunningTick(s).0.yieldPending || RunningTick(s).1
    ensures CatchUpOne(s) == RunningTick(s).0.(yieldPending := CatchUpOne(s).yieldPending)
  {
    hide RunningTick;
  }
}
