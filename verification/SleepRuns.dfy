/** A sleeping task in the whole scheduler: whatever other tasks and interrupts do, suspended scheduler
    included, it becomes ready when, and only when, the count reaches its deadline. */
module SleepRuns {
  import opened Ticks
  import opened Lists
  import opened Delays
  import opened SchedState
  import opened Scheduler
  import opened SchedulerRuns
  import Kernel

  /** `t` sleeps, perhaps waiting for an event as well, and is not ready. */
  ghost predicate AsleepUntil(s: Sched, t: nat, due: nat) {
    SleepsUntil(s.delay, t, due) && !InReady(s, t) && t !in s.pending && t in s.tasks
  }

  /** What it comes to: still asleep before the deadline, ready from then on. */
  ghost predicate AwakeOnTime(s: Sched, t: nat, due: nat) {
    if Now(s.delay) < due then AsleepUntil(s, t, due) else InReady(s, t)
  }

  /** And once ready it no longer waits for its event: the wait has timed out. */
  ghost predicate OnTime(s: Sched, t: nat, due: nat) {
    AwakeOnTime(s, t, due) && (Now(s.delay) >= due ==> t !in s.events)
  }

  // ---------------------------------------------------------------- moves of other tasks

  /** Nothing that matters to `t` differs. */
  ghost predicate Alike(s: Sched, s': Sched, t: nat) {
    && Now(s'.delay) == Now(s.delay)
    && (forall x: Timed :: x.owner == t ==> (x in Waiting(s'.delay) <==> x in Waiting(s.delay)))
    && (InReady(s', t) <==> InReady(s, t))
    && (t in s'.events ==> t in s.events) && (t in s'.pending ==> t in s.pending)
    && (t in s.tasks ==> t in s'.tasks)
  }

  lemma AlikeKeeps(s: Sched, s': Sched, t: nat, due: nat)
    requires Alike(s, s', t) && AsleepUntil(s, t, due)
    ensures AsleepUntil(s', t, due)
  {
    hide InReady, Waiting, Now;
    assert Timed(t, due).owner == t;
  }

  lemma AlikeTransitive(s: Sched, s1: Sched, s2: Sched, t: nat)
    requires Alike(s, s1, t) && Alike(s1, s2, t)
    ensures Alike(s, s2, t)
  {
    hide InReady, Waiting, Now;
  }

  /** The moves that do not concern time or the ready lists. */
  lemma QuietMovesAlike(s: Sched, u: nat, t: nat)
    requires u != t
    ensures Alike(s, ClearEvent(s, u), t)
    ensures Alike(s, DropTask(s, u), t)
  {
    hide Waiting, Now, Without;
    WithoutMembersOnly(s.pending, u);
  }

  lemma ListMovesAlike(s: Sched, u: nat, t: nat)
    ensures Alike(s, AddSuspended(s, u), t) && Alike(s, AddTerminating(s, u), t)
  {
    hide Waiting, Now;
  }

  lemma RescanAlike(s: Sched, t: nat)
    ensures Alike(s, RescanDelay(s), t)
  {
    hide Dated;
  }

  lemma YieldAlike(s: Sched, y: bool, t: nat)
    ensures Alike(s, YieldIf(s, y), t)
  {
    hide Waiting, Now;
  }

  lemma DepthAlike(s: Sched, n: nat, t: nat)
    ensures Alike(s, s.(depth := n), t)
  {
    hide Waiting, Now;
  }

  lemma UnlinkOthers(s: Sched, u: nat, t: nat)
    requires u != t
    ensures InReady(Unlink(s, u), t) <==> InReady(s, t)
  {
    var l := s.ready[PriorityOf(s, u)];
    RingRemoveMembers(l, u);
    if InReady(s, t) { UnlinkOthersReady(s, u, t); }
  }

  lemma UnlinkAlike(s: Sched, u: nat, t: nat)
    requires u != t && Delays.Inv(s.delay)
    ensures Alike(s, Unlink(s, u), t)
  {
    UnlinkOthers(s, u, t);
    CancelRefines(s.delay, u);
    WithoutMembers(Waiting(s.delay), u);
    UnlinkDelay(s, u);
    hide InReady, Waiting, Unlink, Cancel;
  }

  lemma UnlinkDelay(s: Sched, u: nat)
    ensures Unlink(s, u).delay == s.delay || Unlink(s, u).delay == Cancel(s.delay, u)
    ensures Unlink(s, u).events == s.events && Unlink(s, u).pending == s.pending && Unlink(s, u).tasks == s.tasks
  {
  }

  lemma AddReadyAlike(s: Sched, u: nat, t: nat)
    requires u != t
    ensures Alike(s, AddReady(s, u), t)
  {
    AddReadyReady(s, u, t);
  }

  lemma AddDelayedAlike(s: Sched, u: nat, t: nat, n: Tick)
    requires u != t
    ensures Alike(s, AddDelayed(s, u, n), t)
  {
    SleepRefines(s.delay, u, n);
    InsertDueMembers(Waiting(s.delay), Timed(u, Now(s.delay) + n));
    hide Sleep, InsertDue;
  }

  lemma SetPriorityAlike(s: Sched, u: nat, p: Priority, t: nat)
    requires u in s.tasks && (u == t ==> !InReady(s, t)) && ByPriority(s)
    ensures Alike(s, SetPriority(s, u, p), t)
  {
  }

  lemma AddReadyOthers(s: Sched, u: nat)
    ensures var s' := AddReady(s, u);
            s' == s.(ready := s'.ready, top := s'.top)
  {
  }

  lemma {:induction false} ReadyAllExactly(s: Sched, ts: seq<nat>, t: nat)
    ensures InReady(ReadyAll(s, ts), t) <==> InReady(s, t) || t in ts
    ensures ReadyAll(s, ts).tasks == s.tasks && ReadyAll(s, ts).delay == s.delay
    ensures t in ReadyAll(s, ts).events ==> t in s.events
    ensures t in ReadyAll(s, ts).pending ==> t in s.pending
    decreases |ts|
  {
    if ts != [] {
      hide Without;
      var s1 := AddReady(ClearEvent(s, ts[0]), ts[0]);
      AddReadyReady(ClearEvent(s, ts[0]), ts[0], t);
      AddReadyOthers(ClearEvent(s, ts[0]), ts[0]);
      hide AddReady;
      WithoutMembersOnly(s.pending, ts[0]);
      ReadyAllExactly(s1, ts[1..], t);
      assert ts == [ts[0]] + ts[1..];
    }
  }

  // ---------------------------------------------------------------- ticks

  /** A tick makes exactly the tasks ready whose deadline it reaches. */
  lemma TickReadies(s: Sched, t: nat)
    ensures InReady(RunningTick(s).0, t) <==> InReady(s, t) || t in IncrementTick(s.delay).1
    ensures InReady(CatchUpOne(s), t) <==> InReady(RunningTick(s).0, t)
  {
    var (d, woken) := IncrementTick(s.delay);
    ReadyAllExactly(s.(delay := d), woken, t);
    hide ReadyAll, IncrementTick;
  }

  lemma TickOnTime(s: Sched, t: nat, due: nat)
    requires Delays.Inv(s.delay) && AsleepUntil(s, t, due)
    ensures AwakeOnTime(RunningTick(s).0, t, due) && AwakeOnTime(CatchUpOne(s), t, due)
  {
    TickReadies(s, t);
    TickAndSleeper(s.delay, t, due);
    TickRefines(s.delay);
    var (d, woken) := IncrementTick(s.delay);
    ReadyAllExactly(s.(delay := d), woken, t);
    hide ReadyAll, IncrementTick, Waiting, SleepsUntil, InReady, Awake;
  }

  lemma {:induction false} CatchUpOnTime(s: Sched, n: nat, t: nat, due: nat)
    requires Core(s, {}) && Delays.Inv(s.delay) && s.pending == [] && AsleepUntil(s, t, due)
    ensures AwakeOnTime(CatchUp(s, n), t, due)
    decreases n
  {
    hide CatchUpOne, Core, Delays.Inv, InReady, SleepsUntil, Now;
    if n == 0 {
      StillAhead(s, t, due);
    } else {
      var s1 := CatchUp(s, n - 1);
      CatchUpOnTime(s, n - 1, t, due);
      CatchUpKeeps(s, n - 1);
      CatchUpOneKeeps(s1);
      if Now(s1.delay) < due {
        TickOnTime(s1, t, due);
      } else {
        RunningTickStill(s1, t);
        assert Now(CatchUpOne(s1).delay) == Now(s1.delay) + 1;
      }
    }
  }

  lemma StillAhead(s: Sched, t: nat, due: nat)
    requires Delays.Inv(s.delay) && AsleepUntil(s, t, due)
    ensures Now(s.delay) < due && AwakeOnTime(s, t, due)
  {
    TickAndSleeper(s.delay, t, due);
    hide InReady, SleepsUntil, IncrementTick;
  }

  // ---------------------------------------------------------------- resuming the scheduler

  lemma MakeReadyAlike(s: Sched, u: nat, t: nat)
    requires u != t && Delays.Inv(s.delay)
    ensures Alike(s, MakeReady(s, u), t)
  {
    var s1 := ClearEvent(s, u);
    var s2 := Unlink(s1, u);
    QuietMovesAlike(s, u, t);
    UnlinkAlike(s1, u, t);
    AddReadyAlike(s2, u, t);
    hide Alike, Unlink, AddReady, ClearEvent;
    AlikeTransitive(s, s1, s2, t);
    AlikeTransitive(s, s2, MakeReady(s, u), t);
  }

  lemma {:induction false} DrainAlike(s: Sched, t: nat)
    requires Core(s, {}) && Delays.Inv(s.delay) && t !in s.pending
    ensures Alike(s, Drain(s), t)
    decreases |s.pending|
  {
    hide Drain, Alike, Core, Delays.Inv;
    if s.pending != [] {
      var s2 := Kernel.HeadDrained(s);
      Kernel.DrainStep(s);
      HeadDrainedKeeps(s);
      HeadDrainedAlike(s, t);
      hide Kernel.HeadDrained;
      WithoutHeadShorter(s.pending);
      WithoutMembersOnly(s.pending, s.pending[0]);
      DrainAlike(s2, t);
      AlikeTransitive(s, s2, Drain(s2), t);
    } else {
      Kernel.DrainEnd(s);
      AlikeSelf(s, t);
    }
  }

  lemma HeadDrainedKeeps(s: Sched)
    requires Core(s, {}) && Delays.Inv(s.delay) && s.pending != []
    ensures var s' := Kernel.HeadDrained(s);
            Core(s', {}) && Delays.Inv(s'.delay) && s'.pending == Without(s.pending, s.pending[0])
  {
    var u := s.pending[0];
    var y := PriorityOf(s, u) >= PriorityOf(s, s.current);
    EventWaiterIsLive(s, u);
    YieldIfKeeps(s, y);
    hide MakeReady, Partition, ByPriority, EventsMatch, Delays.Inv;
    MakeReadyKeeps(YieldIf(s, y), u);
    MakeReadyOthers(YieldIf(s, y), u);
  }

  lemma HeadDrainedAlike(s: Sched, t: nat)
    requires Delays.Inv(s.delay) && s.pending != [] && t !in s.pending
    ensures Alike(s, Kernel.HeadDrained(s), t)
  {
    var u := s.pending[0];
    var y := PriorityOf(s, u) >= PriorityOf(s, s.current);
    YieldAlike(s, y, t);
    MakeReadyAlike(YieldIf(s, y), u, t);
    hide MakeReady, Alike;
    AlikeTransitive(s, YieldIf(s, y), MakeReady(YieldIf(s, y), u), t);
  }

  lemma AlikeSelf(s: Sched, t: nat)
    ensures Alike(s, s, t)
  {
  }

  lemma ReopenedAlike(s: Sched, t: nat)
    requires SchedState.Inv(s) && t !in s.pending
    ensures Alike(s, Reopened(s), t)
  {
    hide Alike, Drain, RescanDelay, Partition, ByPriority, EventsMatch, Delays.Inv;
    var s1 := s.(depth := 0);
    CoreKept(s, s1, {});
    DepthAlike(s, 0, t);
    DrainAlike(s1, t);
    RescanAlike(Drain(s1), t);
    AlikeTransitive(s, s1, Drain(s1), t);
    AlikeTransitive(s, Drain(s1), RescanDelay(Drain(s1)), t);
  }

  lemma ResumeAllOnTime(s: Sched, t: nat, due: nat)
    requires SchedState.Inv(s) && s.depth > 0 && AsleepUntil(s, t, due)
    ensures AwakeOnTime(ResumeAll(s), t, due)
  {
    if s.depth > 1 {
      StillAhead(s, t, due);
    } else {
      hide InReady, SleepsUntil, Core, Delays.Inv, CatchUp;
      ReopenedAlike(s, t);
      ReopenedKeeps(s);
      AlikeKeeps(s, Reopened(s), t, due);
      CatchUpOnTime(Reopened(s), s.pended, t, due);
      var s3 := CatchUp(Reopened(s), s.pended);
      hide Reopened, Alike;
      PendedDoesNotMatter(s3, t, due);
    }
  }

  lemma PendedDoesNotMatter(s: Sched, t: nat, due: nat)
    requires AwakeOnTime(s, t, due)
    ensures AwakeOnTime(s.(pended := 0), t, due)
  {
  }

  // ---------------------------------------------------------------- every other event

  /** The events that act on `t` itself, the one it waits for included. */
  predicate Touches(e: Event, t: nat) {
    (e.Deletes? || e.Suspends? || e.WakesWaiter? || e.WakesUnordered?) && e.t == t
  }

  lemma CreateAlike(s: Sched, u: nat, p: Priority, t: nat)
    requires u != t
    ensures Alike(s, Create(s, u, p), t)
  {
    AddReadyAlike(NewTask(s, u, p), u, t);
    NewTaskAlike(s, u, p, t);
    hide Alike, AddReady, NewTask;
    AlikeTransitive(s, NewTask(s, u, p), Create(s, u, p), t);
  }

  lemma NewTaskAlike(s: Sched, u: nat, p: Priority, t: nat)
    requires u != t
    ensures Alike(s, NewTask(s, u, p), t)
  {
    hide Waiting, Now;
  }

  lemma UnlinkedAlike(s: Sched, u: nat, t: nat)
    requires u != t && Delays.Inv(s.delay)
    ensures Alike(s, Unlink(ClearEvent(s, u), u), t)
  {
    QuietMovesAlike(s, u, t);
    UnlinkAlike(ClearEvent(s, u), u, t);
    hide Alike, Unlink, ClearEvent;
    AlikeTransitive(s, ClearEvent(s, u), Unlink(ClearEvent(s, u), u), t);
  }

  lemma DeleteAlike(s: Sched, u: nat, t: nat)
    requires u != t && Delays.Inv(s.delay)
    ensures Alike(s, Delete(s, u), t) && Alike(s, SuspendTask(s, u), t)
  {
    hide Alike, Unlink, ClearEvent, RescanDelay, DropTask, AddSuspended, AddTerminating;
    var s1 := Unlink(ClearEvent(s, u), u);
    UnlinkedAlike(s, u, t);
    ListMovesAlike(s1, u, t);
    QuietMovesAlike(s1, u, t);
    RescanAlike(DropTask(s1, u), t);
    RescanAlike(AddSuspended(s1, u), t);
    AlikeTransitive(s, s1, AddTerminating(s1, u), t);
    AlikeTransitive(s, s1, DropTask(s1, u), t);
    AlikeTransitive(s, DropTask(s1, u), RescanDelay(DropTask(s1, u)), t);
    AlikeTransitive(s, s1, AddSuspended(s1, u), t);
    AlikeTransitive(s, AddSuspended(s1, u), RescanDelay(AddSuspended(s1, u)), t);
  }

  lemma {:induction false} CleanUpAlike(s: Sched, t: nat)
    requires t !in s.terminating
    ensures Alike(s, CleanUp(s), t)
    decreases |s.terminating|
  {
    if s.terminating == [] {
      AlikeSelf(s, t);
    } else {
      var s2 := Kernel.FirstFreed(s);
      Kernel.CleanUpStep(s);
      FirstFreedAlike(s, t);
      hide CleanUp, Alike, DropTask;
      CleanUpAlike(s2, t);
      AlikeTransitive(s, s2, CleanUp(s2), t);
    }
  }

  lemma FirstFreedAlike(s: Sched, t: nat)
    requires s.terminating != [] && t !in s.terminating
    ensures Alike(s, Kernel.FirstFreed(s), t) && t !in Kernel.FirstFreed(s).terminating
    ensures |Kernel.FirstFreed(s).terminating| < |s.terminating|
  {
    hide Waiting, Now;
  }

  lemma ResumeAlike(s: Sched, u: nat, t: nat)
    requires u != t && Delays.Inv(s.delay)
    ensures Alike(s, ResumeTask(s, u), t) && Alike(s, ResumeFromISR(s, u), t)
  {
    hide Alike, Unlink, AddReady, Delays.Inv;
    var y := PriorityOf(s, u) >= PriorityOf(s, s.current);
    var s1 := YieldIf(s, y);
    YieldAlike(s, y, t);
    RelinkAlike(s, u, t);
    RelinkAlike(s1, u, t);
    AlikeSelf(s, t);
    ParkAlike(s, u, t);
    AlikeTransitive(s, s1, AddReady(Unlink(s1, u), u), t);
  }

  lemma ParkAlike(s: Sched, u: nat, t: nat)
    requires u != t
    ensures Alike(s, s.(pending := s.pending + [u]), t)
  {
    hide Waiting, Now;
  }

  lemma RelinkAlike(s: Sched, u: nat, t: nat)
    requires u != t && Delays.Inv(s.delay)
    ensures Alike(s, AddReady(Unlink(s, u), u), t)
  {
    UnlinkAlike(s, u, t);
    AddReadyAlike(Unlink(s, u), u, t);
    hide Alike, Unlink, AddReady;
    AlikeTransitive(s, Unlink(s, u), AddReady(Unlink(s, u), u), t);
  }

  lemma BlockAlike(s: Sched, n: Tick, indefinitely: bool, onEvent: bool, t: nat)
    requires s.current != t && Delays.Inv(s.delay)
    ensures Alike(s, Block(s, n, indefinitely, onEvent), t)
  {
    hide Alike, Unlink, AddSuspended, AddDelayed;
    var u := s.current;
    var s1 := Unlink(s, u);
    var s2 := if n == MAX_DELAY && indefinitely then AddSuspended(s1, u) else AddDelayed(s1, u, n);
    UnlinkAlike(s, u, t);
    ListMovesAlike(s1, u, t);
    AddDelayedAlike(s1, u, t, n);
    WaitAlike(s2, u, t);
    AlikeTransitive(s, s1, s2, t);
    AlikeTransitive(s, s2, s2.(events := s2.events + {u}), t);
  }

  lemma WaitAlike(s: Sched, u: nat, t: nat)
    requires u != t
    ensures Alike(s, s.(events := s.events + {u}), t)
  {
    hide Waiting, Now;
  }

  lemma WakeAlike(s: Sched, u: nat, t: nat)
    requires u != t && Delays.Inv(s.delay)
    ensures Alike(s, RemoveFromEventList(s, u), t) && Alike(s, RemoveFromUnorderedEventList(s, u), t)
  {
    hide Alike, Unlink, AddReady, ClearEvent, MakeReady;
    var s1 := ClearEvent(s, u);
    QuietMovesAlike(s, u, t);
    ClearKeepsDelay(s, u);
    RelinkAlike(s1, u, t);
    ParkAlike(s1, u, t);
    MakeReadyAlike(s, u, t);
    AlikeTransitive(s, s1, AddReady(Unlink(s1, u), u), t);
    AlikeTransitive(s, s1, s1.(pending := s1.pending + [u]), t);
    YieldAlike(Wake(s, u), Outranks(s, u), t);
    YieldAlike(MakeReady(s, u), Outranks(s, u), t);
    AlikeTransitive(s, Wake(s, u), RemoveFromEventList(s, u), t);
    AlikeTransitive(s, MakeReady(s, u), RemoveFromUnorderedEventList(s, u), t);
  }

  lemma ClearKeepsDelay(s: Sched, u: nat)
    ensures ClearEvent(s, u).delay == s.delay
  {
  }

  lemma SwitchAlike(s: Sched, t: nat)
    ensures Alike(s, SwitchContext(s), t)
  {
    hide HighestInUse, Waiting, Now;
  }

  lemma ReprioritiseAlike(s: Sched, u: nat, p: Priority, t: nat)
    requires u in s.tasks && Core(s, {}) && Delays.Inv(s.delay) && !InReady(s, t)
    ensures Alike(s, Reprioritise(s, u, p), t)
  {
    if InReady(s, u) {
      UnlinkKeeps(s, u);
      UnlinkedNotReady(s, u);
      hide Alike, Unlink, AddReady, SetPriority;
      var s1 := Unlink(s, u);
      var s2 := SetPriority(s1, u, p);
      UnlinkAlike(s, u, t);
      SetPriorityAlike(s1, u, p, t);
      AddReadyAlike(s2, u, t);
      AlikeTransitive(s, s1, s2, t);
      AlikeTransitive(s, s2, AddReady(s2, u), t);
    } else {
      SetPriorityAlike(s, u, p, t);
    }
  }

  lemma SetHeldAlike(s: Sched, u: nat, n: nat, t: nat)
    requires u in s.tasks
    ensures Alike(s, SetHeld(s, u, n), t)
  {
    hide Waiting, Now;
  }

  lemma InheritAlike(s: Sched, u: nat, p: Priority, t: nat)
    requires u in s.tasks && Core(s, {}) && Delays.Inv(s.delay) && !InReady(s, t)
    ensures Alike(s, Inherit(s, u), t) && Alike(s, DisinheritAfterTimeout(s, u, p), t)
  {
    hide Alike, Reprioritise, Core, Delays.Inv;
    AlikeSelf(s, t);
    ReprioritiseAlike(s, u, PriorityOf(s, s.current), t);
    ReprioritiseAlike(s, u, if BaseOf(s, u) < p then p else BaseOf(s, u), t);
  }

  lemma DisinheritAlike(s: Sched, t: nat)
    requires HeldBy(s, s.current) > 0 && Core(s, {}) && Delays.Inv(s.delay) && !InReady(s, t)
    ensures Alike(s, Disinherit(s), t)
  {
    hide Alike, Reprioritise, Core, Delays.Inv;
    var s1 := SetHeld(s, s.current, HeldBy(s, s.current) - 1);
    SetHeldKeeps(s, s.current, HeldBy(s, s.current) - 1);
    SetHeldAlike(s, s.current, HeldBy(s, s.current) - 1, t);
    assert !InReady(s1, t);
    ReprioritiseAlike(s1, s.current, BaseOf(s, s.current), t);
    AlikeTransitive(s, s1, Reprioritise(s1, s.current, BaseOf(s, s.current)), t);
  }

  lemma SleeperIsListed(s: Sched, t: nat, due: nat)
    requires SleepsUntil(s.delay, t, due)
    ensures Occurrences(Owners(s.delay.cur), t) + Occurrences(Owners(s.delay.ovf), t) >= 1
  {
    assert Timed(t, due) in Waiting(s.delay);
    if Timed(t, due) in Dated(s.delay.cur, s.delay.epoch) {
      DatedMember(s.delay.cur, s.delay.epoch, Timed(t, due));
    } else {
      DatedMember(s.delay.ovf, s.delay.epoch + 1, Timed(t, due));
    }
    hide Dated, Owners;
  }

  lemma SleeperIsNotTerminating(s: Sched, t: nat, due: nat)
    requires Core(s, {}) && AsleepUntil(s, t, due)
    ensures t !in s.terminating
  {
    hide SleepsUntil, ByPriority, EventsMatch, InReady, Owners;
    SleeperIsListed(s, t, due);
    assert Homes(s, t) == 1;
  }

  /** A resume of a task that sleeps is ignored: the task is not suspended. */
  lemma ResumeIgnored(s: Sched, t: nat, due: nat)
    requires Core(s, {}) && AsleepUntil(s, t, due)
    ensures t !in s.suspended && ResumeTask(s, t) == s && ResumeFromISR(s, t) == s
  {
    hide SleepsUntil, ByPriority, EventsMatch, InReady, Owners;
    SleeperIsListed(s, t, due);
    assert Homes(s, t) == 1;
  }

  lemma ResumeKeepsSleeper(s: Sched, u: nat, t: nat, due: nat)
    requires Core(s, {}) && Delays.Inv(s.delay) && AsleepUntil(s, t, due)
    ensures Alike(s, ResumeTask(s, u), t) && Alike(s, ResumeFromISR(s, u), t)
  {
    hide Core, Delays.Inv, AsleepUntil, Alike, ResumeTask, ResumeFromISR;
    if u == t {
      ResumeIgnored(s, t, due);
      AlikeSelf(s, t);
    } else {
      ResumeAlike(s, u, t);
    }
  }

  lemma {:induction false} DatedMember(q: seq<Entry>, epoch: nat, x: Timed)
    requires x in Dated(q, epoch)
    ensures x.owner in Owners(q)
  {
    assert Dated(q, epoch) == [Timed(q[0].owner, At(epoch, q[0].value))] + Dated(q[1..], epoch);
    if x != Timed(q[0].owner, At(epoch, q[0].value)) {
      DatedMember(q[1..], epoch, x);
    }
  }

  // ---------------------------------------------------------------- whole runs

  lemma OthersAlike(s: Sched, e: Event, t: nat, due: nat)
    requires Good(s) && SchedulerRuns.Possible(s, e) && !Touches(e, t) && AsleepUntil(s, t, due)
    requires !e.TickPasses? && !e.ResumesAll?
    ensures Alike(s, SchedulerRuns.Apply(s, e), t)
  {
    hide Alike, Core, Delays.Inv, SleepsUntil, Create, Delete, SuspendTask, CleanUp, SwitchContext, ResumeTask;
    hide ResumeFromISR, Block, RemoveFromEventList, RemoveFromUnorderedEventList, Inherit, Disinherit;
    hide DisinheritAfterTimeout, CountMutex;
    match e
    case Creates(u, p) => CreateAlike(s, u, p, t);
    case Deletes(u) => DeleteAlike(s, u, t);
    case CleansUp => SleeperIsNotTerminating(s, t, due); CleanUpAlike(s, t);
    case Suspends(u) => DeleteAlike(s, u, t);
    case Resumes(u) => ResumeKeepsSleeper(s, u, t, due);
    case ResumesFromISR(u) => ResumeKeepsSleeper(s, u, t, due);
    case Blocks(n, indefinitely, onEvent) => BlockAlike(s, n, indefinitely, onEvent, t);
    case WakesWaiter(u) => WakeAlike(s, u, t);
    case WakesUnordered(u) => WakeAlike(s, u, t);
    case SuspendsAll => DepthAlike(s, s.depth + 1, t);
    case Switches => SwitchAlike(s, t);
    case TakesMutex => SetHeldAlike(s, s.current, HeldBy(s, s.current) + 1, t); TakeKeepsDelay(s);
    case Inherits(u) => InheritAlike(s, u, 0, t);
    case GivesMutex => DisinheritAlike(s, t);
    case TimesOut(u, p) => InheritAlike(s, u, p, t);
  }

  lemma EventAwakeOnTime(s: Sched, e: Event, t: nat, due: nat)
    requires Good(s) && SchedulerRuns.Possible(s, e) && !Touches(e, t) && AsleepUntil(s, t, due)
    ensures AwakeOnTime(SchedulerRuns.Apply(s, e), t, due)
  {
    hide Alike, Core, Delays.Inv, SleepsUntil, InReady, ResumeAll, RunningTick;
    if e.TickPasses? {
      if s.depth == 0 {
        TickOnTime(s, t, due);
      } else {
        StillAhead(s, t, due);
        PendingMore(s, t, due);
      }
    } else if e.ResumesAll? {
      ResumeAllOnTime(s, t, due);
    } else {
      OthersAlike(s, e, t, due);
      EventKeepsCore(s, e);
      hide SchedulerRuns.Apply;
      AlikeKeeps(s, SchedulerRuns.Apply(s, e), t, due);
      StillAhead(SchedulerRuns.Apply(s, e), t, due);
    }
  }

  /** Whatever happens to others, a sleeper is asleep until the count reaches its deadline, and from
      then on ready and no longer waiting for an event. */
  lemma EventOnTime(s: Sched, e: Event, t: nat, due: nat)
    requires Good(s) && SchedulerRuns.Possible(s, e) && !Touches(e, t) && AsleepUntil(s, t, due)
    ensures OnTime(SchedulerRuns.Apply(s, e), t, due)
  {
    hide SchedulerRuns.Apply, SchedulerRuns.Possible, Good, AsleepUntil, Now, InReady, EventsMatch, Delays.Inv;
    EventAwakeOnTime(s, e, t, due);
    EventKeepsCore(s, e);
    var s' := SchedulerRuns.Apply(s, e);
    if Now(s'.delay) >= due {
      ReadyWaitsForNothing(s', t);
    }
  }

  lemma PendingMore(s: Sched, t: nat, due: nat)
    requires AwakeOnTime(s, t, due)
    ensures AwakeOnTime(s.(pended := s.pended + 1), t, due)
  {
  }

  predicate Untouched(es: seq<Event>, t: nat)
    decreases |es|
  {
    es == [] || (!Touches(es[0], t) && Untouched(es[1..], t))
  }

  /** After every event of the run, up to the first that takes the count to the deadline: asleep before
      it, ready at it. */
  ghost predicate RunOnTime(s: Sched, es: seq<Event>, t: nat, due: nat)
    requires SchedulerRuns.PossibleRun(s, es)
    decreases |es|
  {
    es == [] ||
    (var s1 := SchedulerRuns.Apply(s, es[0]);
     OnTime(s1, t, due) && (Now(s1.delay) < due ==> RunOnTime(s1, es[1..], t, due)))
  }

  /** A task asleep until `due`, waiting for an event or not, that nobody deletes or suspends and
      whose event does not happen, becomes ready with the tick that makes the count `due`, or with
      the resume that catches up with it, and not before: whatever else happens, and across any number
      of wraps. */
  lemma {:induction false} ReadyAtDeadline(s: Sched, es: seq<Event>, t: nat, due: nat)
    requires Good(s) && SchedulerRuns.PossibleRun(s, es) && Untouched(es, t) && AsleepUntil(s, t, due)
    ensures RunOnTime(s, es, t, due)
    decreases |es|
  {
    hide Good, SchedulerRuns.Possible, SchedulerRuns.Apply, AsleepUntil, InReady, Now;
    if es != [] {
      EventOnTime(s, es[0], t, due);
      EventKeeps(s, es[0]);
      var s1 := SchedulerRuns.Apply(s, es[0]);
      if Now(s1.delay) < due {
        ReadyAtDeadline(s1, es[1..], t, due);
      }
    }
  }

  /** The running task that blocks for `n` ticks, on an event or not, sleeps until now plus `n`. */
  lemma BlockSleeps(s: Sched, n: Tick, indefinitely: bool, onEvent: bool)
    requires Good(s) && InReady(s, s.current) && n > 0 && !(n == MAX_DELAY && indefinitely)
    ensures AsleepUntil(Block(s, n, indefinitely, onEvent), s.current, Now(s.delay) + n)
    ensures s.current in Block(s, n, indefinitely, onEvent).events <==> onEvent
  {
    hide Block, Sleep, InsertDue, Core, Delays.Inv, Unlink, Waiting, Now, Good, InReady, EventsMatch;
    var t := s.current;
    CurrentIsLive(s);
    GoodIsCore(s);
    ReadyIsAwake(s, t);
    SleepRefines(s.delay, t, n);
    InsertDueMembers(Waiting(s.delay), Timed(t, Now(s.delay) + n));
    UnlinkedNotReady(s, t);
    ReadyWaitsForNothing(s, t);
    BlockIs(s, n, indefinitely, onEvent);
  }

  /** So a block of `n` ticks, on an event that does not happen or on none, ends exactly `n` ticks on. */
  lemma BlockEndsOnTime(s: Sched, n: Tick, indefinitely: bool, onEvent: bool, es: seq<Event>)
    requires Good(s) && SchedulerRuns.Possible(s, Blocks(n, indefinitely, onEvent)) && s.current != IDLE
    requires !(n == MAX_DELAY && indefinitely)
    requires SchedulerRuns.PossibleRun(Block(s, n, indefinitely, onEvent), es) && Untouched(es, s.current)
    ensures RunOnTime(Block(s, n, indefinitely, onEvent), es, s.current, Now(s.delay) + n)
  {
    hide Good, InReady, Block, AsleepUntil, RunOnTime, SchedulerRuns.PossibleRun, Now;
    EventKeeps(s, Blocks(n, indefinitely, onEvent));
    BlockSleeps(s, n, indefinitely, onEvent);
    ReadyAtDeadline(Block(s, n, indefinitely, onEvent), es, s.current, Now(s.delay) + n);
  }

  lemma GoodIsCore(s: Sched)
    requires Good(s)
    ensures Core(s, {}) && Delays.Inv(s.delay) && EventsMatch(s)
  {
    hide Partition, ByPriority, EventsMatch, Delays.Inv;
  }

  lemma BlockIs(s: Sched, n: Tick, indefinitely: bool, onEvent: bool)
    requires InReady(s, s.current) && !(n == MAX_DELAY && indefinitely)
    ensures var s' := Block(s, n, indefinitely, onEvent);
            && s'.delay == Sleep(s.delay, s.current, n) && s'.tasks == s.tasks
            && s'.events == (if onEvent then s.events + {s.current} else s.events) && s'.pending == s.pending
            && (InReady(s', s.current) <==> InReady(Unlink(s, s.current), s.current))
  {
  }

  /** A ready task is on no delayed list. */
  lemma ReadyIsAwake(s: Sched, t: nat)
    requires Good(s) && InReady(s, t) && t in s.tasks
    ensures Awake(s.delay, t)
  {
    hide Good, InReady, Dated, Owners;
    ReadyIsUnlisted(s, t);
    forall x | x in Waiting(s.delay) ensures x.owner != t {
      if x in Dated(s.delay.cur, s.delay.epoch) {
        DatedMember(s.delay.cur, s.delay.epoch, x);
      } else {
        DatedMember(s.delay.ovf, s.delay.epoch + 1, x);
      }
    }
  }

  lemma ReadyIsUnlisted(s: Sched, t: nat)
    requires Good(s) && InReady(s, t) && t in s.tasks
    ensures t !in Owners(s.delay.cur) && t !in Owners(s.delay.ovf)
  {
    hide ByPriority, EventsMatch, Delays.Inv, Owners;
    GoodIsCore(s);
    hide Good;
    assert Homes(s, t) == 1;
  }
}
