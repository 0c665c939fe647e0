/** Fairness in the whole scheduler.  Between two consecutive selections of a task, every other task
    that stays on its ready list is selected exactly once, whatever tasks and interrupts do. */
module RoundRobin {
  import opened Ticks
  import opened Lists
  import opened Delays
  import opened SchedState
  import opened Scheduler
  import opened SchedulerRuns
  import Kernel

  // ---------------------------------------------------------------- operations that select nobody

  /** If `a` was due to be selected before `b`, it still is. */
  ghost predicate KeepsOrder(s: Sched, s': Sched, p: Priority, a: nat, b: nat) {
    Before(s.ready[p].Upcoming(), a, b) ==> Before(s'.ready[p].Upcoming(), a, b)
  }

  lemma AddReadyOrder(s: Sched, t: nat, p: Priority, a: nat, b: nat)
    ensures KeepsOrder(s, AddReady(s, t), p, a, b)
  {
    hide Before, Ring.InsertEnd, Ring.Upcoming;
    if PriorityOf(s, t) == p && Before(s.ready[p].Upcoming(), a, b) {
      ArriveKeepsOrder(s.ready[p], t, a, b);
    }
  }

  lemma UnlinkOrder(s: Sched, t: nat, p: Priority, a: nat, b: nat)
    requires t != a && t != b
    ensures KeepsOrder(s, Unlink(s, t), p, a, b)
  {
    hide Before, Ring.Remove, Ring.Upcoming, Cancel, Without;
    if InReady(s, t) && PriorityOf(s, t) == p && Before(s.ready[p].Upcoming(), a, b) {
      LeaveKeepsOrder(s.ready[p], t, a, b);
    }
  }

  lemma OrderTransitive(s: Sched, s1: Sched, s2: Sched, p: Priority, a: nat, b: nat)
    requires KeepsOrder(s, s1, p, a, b) && KeepsOrder(s1, s2, p, a, b)
    ensures KeepsOrder(s, s2, p, a, b)
  {
    hide Before, Ring.Upcoming;
  }

  lemma SameOrder(s: Sched, s': Sched, p: Priority, a: nat, b: nat)
    requires s'.ready == s.ready
    ensures KeepsOrder(s, s', p, a, b)
  {
    hide Before, Ring.Upcoming;
  }

  lemma RelinkOrder(s: Sched, t: nat, p: Priority, a: nat, b: nat)
    requires t != a && t != b
    ensures KeepsOrder(s, AddReady(Unlink(s, t), t), p, a, b)
  {
    hide Unlink, AddReady, KeepsOrder;
    UnlinkOrder(s, t, p, a, b);
    AddReadyOrder(Unlink(s, t), t, p, a, b);
    OrderTransitive(s, Unlink(s, t), AddReady(Unlink(s, t), t), p, a, b);
  }

  lemma MakeReadyOrder(s: Sched, t: nat, p: Priority, a: nat, b: nat)
    requires t != a && t != b
    ensures KeepsOrder(s, MakeReady(s, t), p, a, b)
  {
    hide Unlink, AddReady, KeepsOrder, Without;
    SameOrder(s, ClearEvent(s, t), p, a, b);
    RelinkOrder(ClearEvent(s, t), t, p, a, b);
    OrderTransitive(s, ClearEvent(s, t), MakeReady(s, t), p, a, b);
  }

  lemma {:induction false} ReadyAllOrder(s: Sched, ts: seq<nat>, p: Priority, a: nat, b: nat)
    ensures KeepsOrder(s, ReadyAll(s, ts), p, a, b)
    decreases |ts|
  {
    hide AddReady, KeepsOrder, Without;
    if ts == [] {
      SameOrder(s, s, p, a, b);
    } else {
      var s1 := ClearEvent(s, ts[0]);
      var s2 := AddReady(s1, ts[0]);
      SameOrder(s, s1, p, a, b);
      AddReadyOrder(s1, ts[0], p, a, b);
      OrderTransitive(s, s1, s2, p, a, b);
      ReadyAllOrder(s2, ts[1..], p, a, b);
      OrderTransitive(s, s2, ReadyAll(s2, ts[1..]), p, a, b);
    }
  }

  lemma TickOrder(s: Sched, p: Priority, a: nat, b: nat)
    ensures KeepsOrder(s, RunningTick(s).0, p, a, b) && KeepsOrder(s, CatchUpOne(s), p, a, b)
  {
    hide IncrementTick, ReadyAll, KeepsOrder;
    var (d, woken) := IncrementTick(s.delay);
    SameOrder(s, s.(delay := d), p, a, b);
    ReadyAllOrder(s.(delay := d), woken, p, a, b);
    OrderTransitive(s, s.(delay := d), RunningTick(s).0, p, a, b);
    SameOrder(RunningTick(s).0, CatchUpOne(s), p, a, b);
    OrderTransitive(s, RunningTick(s).0, CatchUpOne(s), p, a, b);
  }

  lemma {:induction false} CatchUpOrder(s: Sched, n: nat, p: Priority, a: nat, b: nat)
    ensures KeepsOrder(s, CatchUp(s, n), p, a, b)
  {
    hide CatchUpOne, KeepsOrder;
    if n == 0 {
      SameOrder(s, s, p, a, b);
    } else {
      CatchUpOrder(s, n - 1, p, a, b);
      TickOrder(CatchUp(s, n - 1), p, a, b);
      OrderTransitive(s, CatchUp(s, n - 1), CatchUp(s, n), p, a, b);
    }
  }

  lemma {:induction false} DrainOrder(s: Sched, p: Priority, a: nat, b: nat)
    requires a !in s.pending && b !in s.pending
    ensures KeepsOrder(s, Drain(s), p, a, b)
    decreases |s.pending|
  {
    hide Drain, KeepsOrder;
    if s.pending == [] {
      Kernel.DrainEnd(s);
      SameOrder(s, s, p, a, b);
    } else {
      var s1 := Kernel.HeadDrained(s);
      Kernel.DrainStep(s);
      HeadDrainedOrder(s, p, a, b);
      hide Kernel.HeadDrained;
      DrainOrder(s1, p, a, b);
      OrderTransitive(s, s1, Drain(s1), p, a, b);
    }
  }

  lemma HeadDrainedOrder(s: Sched, p: Priority, a: nat, b: nat)
    requires s.pending != [] && a !in s.pending && b !in s.pending
    ensures var s1 := Kernel.HeadDrained(s);
            KeepsOrder(s, s1, p, a, b) && a !in s1.pending && b !in s1.pending && |s1.pending| < |s.pending|
  {
    var t := s.pending[0];
    var s1 := YieldIf(s, PriorityOf(s, t) >= PriorityOf(s, s.current));
    hide MakeReady, KeepsOrder;
    WithoutHeadShorter(s.pending);
    WithoutMembersOnly(s.pending, t);
    MakeReadyOthers(s1, t);
    SameOrder(s, s1, p, a, b);
    MakeReadyOrder(s1, t, p, a, b);
    OrderTransitive(s, s1, MakeReady(s1, t), p, a, b);
  }

  lemma ResumeAllOrder(s: Sched, p: Priority, a: nat, b: nat)
    requires a !in s.pending && b !in s.pending
    ensures KeepsOrder(s, ResumeAll(s), p, a, b)
  {
    hide Drain, CatchUp, KeepsOrder, Rescan;
    var s1 := s.(depth := 0);
    var s2, s3 := Drain(s1), Reopened(s);
    SameOrder(s, s1, p, a, b);
    DrainOrder(s1, p, a, b);
    OrderTransitive(s, s1, s2, p, a, b);
    SameOrder(s2, RescanDelay(s2), p, a, b);
    OrderTransitive(s, s2, RescanDelay(s2), p, a, b);
    var s4 := CatchUp(s3, s.pended);
    CatchUpOrder(s3, s.pended, p, a, b);
    OrderTransitive(s, s3, s4, p, a, b);
    SameOrder(s4, s4.(pended := 0), p, a, b);
    OrderTransitive(s, s4, s4.(pended := 0), p, a, b);
    if s.depth > 1 {
      SameOrder(s, s.(depth := s.depth - 1), p, a, b);
    }
  }

  // ---------------------------------------------------------------- tasks that stay

  /** A task that is ready at priority `p`, in a state that is in order. */
  lemma OnList(s: Sched, p: Priority, t: nat)
    requires Core(s, {}) && t in s.ready[p].items
    ensures t in s.tasks && PriorityOf(s, t) == p && InReady(s, t)
    ensures t !in s.events && t !in s.pending && t !in s.suspended && t !in s.terminating
  {
    hide Occurrences, OtherHomes, Owners;
    assert t in s.tasks && InReady(s, t);
    hide ByPriority;
    ReadyWaitsForNothing(s, t);
    ReadyIsElsewhereNot(s, t);
  }

  lemma ReadyIsElsewhereNot(s: Sched, t: nat)
    requires Partition(s, {}) && t in s.tasks && InReady(s, t)
    ensures t !in s.suspended && t !in s.terminating
  {
    assert Homes(s, t) == 1;
  }

  /** Taken off its list, the task is on no ready list. */
  lemma UnlinkedIsOff(s: Sched, t: nat, p: Priority)
    requires Core(s, {}) && InReady(s, t) && t in s.tasks
    ensures t !in Unlink(s, t).ready[p].items
  {
    UnlinkedNotReady(s, t);
    UnlinkKeeps(s, t);
    UnlinkKeepsEvents(s, t);
    hide Unlink, Partition, EventsMatch;
  }

  lemma DeleteOrder(s: Sched, t: nat, p: Priority, a: nat, b: nat)
    requires Core(s, {}) && a in s.ready[p].items && b in s.ready[p].items
    ensures a in Delete(s, t).ready[p].items && b in Delete(s, t).ready[p].items ==>
              KeepsOrder(s, Delete(s, t), p, a, b)
    ensures a in SuspendTask(s, t).ready[p].items && b in SuspendTask(s, t).ready[p].items ==>
              KeepsOrder(s, SuspendTask(s, t), p, a, b)
  {
    OnList(s, p, a);
    OnList(s, p, b);
    var s1 := ClearEvent(s, t);
    var s2 := Unlink(s1, t);
    ClearedIsSame(s, t);
    hide Core, KeepsOrder, Unlink, Rescan, InReady, ClearEvent;
    assert Delete(s, t).ready == s2.ready && SuspendTask(s, t).ready == s2.ready;
    if t == a || t == b {
      UnlinkedIsOff(s1, t, p);
    } else {
      SameOrder(s, s1, p, a, b);
      UnlinkOrder(s1, t, p, a, b);
      OrderTransitive(s, s1, s2, p, a, b);
      SameOrder(s2, Delete(s, t), p, a, b);
      SameOrder(s2, SuspendTask(s, t), p, a, b);
      OrderTransitive(s, s2, Delete(s, t), p, a, b);
      OrderTransitive(s, s2, SuspendTask(s, t), p, a, b);
    }
  }

  lemma ClearedIsSame(s: Sched, t: nat)
    ensures var s1 := ClearEvent(s, t);
            s1.ready == s.ready && s1.tasks == s.tasks && (Core(s, {}) ==> Core(s1, {}))
    ensures InReady(ClearEvent(s, t), t) <==> InReady(s, t)
  {
    hide Core, Without;
    if Core(s, {}) {
      ClearEventKeeps(s, t, {});
    }
  }

  lemma BlockOrder(s: Sched, n: Tick, indefinitely: bool, onEvent: bool, p: Priority, a: nat, b: nat)
    requires Core(s, {}) && a in s.ready[p].items && b in s.ready[p].items
    requires var s' := Block(s, n, indefinitely, onEvent); a in s'.ready[p].items && b in s'.ready[p].items
    ensures KeepsOrder(s, Block(s, n, indefinitely, onEvent), p, a, b)
  {
    OnList(s, p, a);
    OnList(s, p, b);
    var s1 := Unlink(s, s.current);
    hide Core, KeepsOrder, Unlink, Sleep, InReady;
    assert Block(s, n, indefinitely, onEvent).ready == s1.ready;
    if s.current == a || s.current == b {
      UnlinkedIsOff(s, s.current, p);
    } else {
      UnlinkOrder(s, s.current, p, a, b);
      SameOrder(s1, Block(s, n, indefinitely, onEvent), p, a, b);
      OrderTransitive(s, s1, Block(s, n, indefinitely, onEvent), p, a, b);
    }
  }

  lemma ResumeOrder(s: Sched, t: nat, p: Priority, a: nat, b: nat)
    requires Core(s, {}) && a in s.ready[p].items && b in s.ready[p].items
    ensures KeepsOrder(s, ResumeTask(s, t), p, a, b) && KeepsOrder(s, ResumeFromISR(s, t), p, a, b)
  {
    OnList(s, p, a);
    OnList(s, p, b);
    hide Core, KeepsOrder, Unlink, AddReady, InReady;
    var s1 := YieldIf(s, PriorityOf(s, t) >= PriorityOf(s, s.current));
    SameOrder(s, s, p, a, b);
    SameOrder(s, s1, p, a, b);
    SameOrder(s, s.(pending := s.pending + [t]), p, a, b);
    if IsSuspended(s, t) {
      RelinkOrder(s, t, p, a, b);
      RelinkOrder(s1, t, p, a, b);
      OrderTransitive(s, s1, AddReady(Unlink(s1, t), t), p, a, b);
    }
  }

  lemma WakeOrder(s: Sched, t: nat, p: Priority, a: nat, b: nat)
    requires Core(s, {}) && a in s.ready[p].items && b in s.ready[p].items && t in s.events
    ensures KeepsOrder(s, RemoveFromEventList(s, t), p, a, b)
    ensures KeepsOrder(s, RemoveFromUnorderedEventList(s, t), p, a, b)
  {
    OnList(s, p, a);
    OnList(s, p, b);
    hide Core, KeepsOrder, Unlink, AddReady, InReady, Without;
    var s1 := ClearEvent(s, t);
    MakeReadyOrder(s, t, p, a, b);
    SameOrder(s, s1, p, a, b);
    SameOrder(s, s1.(pending := s1.pending + [t]), p, a, b);
    SameOrder(Wake(s, t), RemoveFromEventList(s, t), p, a, b);
    SameOrder(MakeReady(s, t), RemoveFromUnorderedEventList(s, t), p, a, b);
    OrderTransitive(s, Wake(s, t), RemoveFromEventList(s, t), p, a, b);
    OrderTransitive(s, MakeReady(s, t), RemoveFromUnorderedEventList(s, t), p, a, b);
  }

  /** A task given another priority leaves its list, or was on none. */
  lemma ReprioritiseOrder(s: Sched, t: nat, q: Priority, p: Priority, a: nat, b: nat)
    requires Core(s, {}) && a in s.ready[p].items && b in s.ready[p].items
    requires t in s.tasks && q != PriorityOf(s, t)
    requires var s' := Reprioritise(s, t, q); a in s'.ready[p].items && b in s'.ready[p].items
    ensures KeepsOrder(s, Reprioritise(s, t, q), p, a, b)
  {
    OnList(s, p, a);
    OnList(s, p, b);
    if InReady(s, t) {
      var s1 := Unlink(s, t);
      var s2 := SetPriority(s1, t, q);
      UnlinkKeepsEvents(s, t);
      hide Core, KeepsOrder, Unlink, InReady, Ring.InsertEnd;
      if t == a || t == b {
        UnlinkedIsOff(s, t, p);
      } else {
        UnlinkOrder(s, t, p, a, b);
        SameOrder(s1, s2, p, a, b);
        AddReadyOrder(s2, t, p, a, b);
        OrderTransitive(s, s1, s2, p, a, b);
        OrderTransitive(s, s2, AddReady(s2, t), p, a, b);
      }
    } else {
      SameOrder(s, SetPriority(s, t, q), p, a, b);
    }
  }

  lemma InheritOrder(s: Sched, t: nat, h: Priority, p: Priority, a: nat, b: nat)
    requires Core(s, {}) && a in s.ready[p].items && b in s.ready[p].items && t in s.tasks
    ensures a in Inherit(s, t).ready[p].items && b in Inherit(s, t).ready[p].items ==>
              KeepsOrder(s, Inherit(s, t), p, a, b)
    ensures var s' := DisinheritAfterTimeout(s, t, h);
            a in s'.ready[p].items && b in s'.ready[p].items ==> KeepsOrder(s, s', p, a, b)
  {
    hide Core, KeepsOrder, Reprioritise;
    SameOrder(s, s, p, a, b);
    var i, d := Inherit(s, t), DisinheritAfterTimeout(s, t, h);
    if i != s && a in i.ready[p].items && b in i.ready[p].items {
      ReprioritiseOrder(s, t, PriorityOf(s, s.current), p, a, b);
    }
    if d != s && a in d.ready[p].items && b in d.ready[p].items {
      ReprioritiseOrder(s, t, if BaseOf(s, t) < h then h else BaseOf(s, t), p, a, b);
    }
  }

  lemma DisinheritOrder(s: Sched, p: Priority, a: nat, b: nat)
    requires Core(s, {}) && a in s.ready[p].items && b in s.ready[p].items && HeldBy(s, s.current) > 0
    requires a in Disinherit(s).ready[p].items && b in Disinherit(s).ready[p].items
    ensures KeepsOrder(s, Disinherit(s), p, a, b)
  {
    hide Core, KeepsOrder, Reprioritise;
    var t := s.current;
    var s1 := SetHeld(s, t, HeldBy(s, t) - 1);
    SetHeldKeeps(s, t, HeldBy(s, t) - 1);
    SameOrder(s, s1, p, a, b);
    if Disinherit(s) != s1 {
      ReprioritiseOrder(s1, t, BaseOf(s, t), p, a, b);
      OrderTransitive(s, s1, Disinherit(s), p, a, b);
    }
  }

  lemma CreateOrder(s: Sched, t: nat, q: Priority, p: Priority, a: nat, b: nat)
    ensures KeepsOrder(s, Create(s, t, q), p, a, b)
  {
    hide AddReady, KeepsOrder;
    SameOrder(s, NewTask(s, t, q), p, a, b);
    AddReadyOrder(NewTask(s, t, q), t, p, a, b);
    OrderTransitive(s, NewTask(s, t, q), Create(s, t, q), p, a, b);
  }

  /** An event that selects nobody keeps the order of two tasks that stay on their list. */
  lemma EventOrder(s: Sched, e: Event, p: Priority, a: nat, b: nat)
    requires Good(s) && SchedulerRuns.Possible(s, e) && !e.Switches?
    requires a in s.ready[p].items && b in s.ready[p].items
    requires var s' := SchedulerRuns.Apply(s, e); a in s'.ready[p].items && b in s'.ready[p].items
    ensures KeepsOrder(s, SchedulerRuns.Apply(s, e), p, a, b)
  {
    hide Core, KeepsOrder, Create, Delete, SuspendTask, CleanUp, ResumeTask, ResumeFromISR, Block;
    hide RemoveFromEventList, RemoveFromUnorderedEventList, RunningTick, ResumeAll, Inherit, Disinherit;
    hide DisinheritAfterTimeout, Delays.Inv, InReady;
    OnList(s, p, a);
    OnList(s, p, b);
    match e
    case Creates(t, q) => CreateOrder(s, t, q, p, a, b);
    case Deletes(t) => DeleteOrder(s, t, p, a, b);
    case CleansUp => CleanUpKeeps(s); SameOrder(s, CleanUp(s), p, a, b);
    case Suspends(t) => DeleteOrder(s, t, p, a, b);
    case Resumes(t) => ResumeOrder(s, t, p, a, b);
    case ResumesFromISR(t) => ResumeOrder(s, t, p, a, b);
    case Blocks(n, indefinitely, onEvent) => BlockOrder(s, n, indefinitely, onEvent, p, a, b);
    case WakesWaiter(t) => WakeOrder(s, t, p, a, b);
    case WakesUnordered(t) => WakeOrder(s, t, p, a, b);
    case TickPasses => TickOrder(s, p, a, b); SameOrder(s, s.(pended := s.pended + 1), p, a, b);
    case SuspendsAll => SameOrder(s, SuspendAll(s), p, a, b);
    case ResumesAll => ResumeAllOrder(s, p, a, b);
    case TakesMutex => SameOrder(s, CountMutex(s), p, a, b);
    case Inherits(t) => InheritOrder(s, t, 0, p, a, b);
    case GivesMutex => DisinheritOrder(s, p, a, b);
    case TimesOut(t, h) => InheritOrder(s, t, h, p, a, b);
  }

  // ---------------------------------------------------------------- selections

  /** Whom a context switch selects: nobody while the scheduler is suspended. */
  function ChosenBy(s: Sched, e: Event): seq<nat>
    requires SchedulerRuns.Possible(s, e)
  {
    if e.Switches? && s.depth == 0 then [SwitchContext(s).current] else []
  }

  /** The tasks selected during a run, in order. */
  function Chosen(s: Sched, es: seq<Event>): seq<nat>
    requires SchedulerRuns.PossibleRun(s, es)
    decreases |es|
  {
    if es == [] then [] else ChosenBy(s, es[0]) + Chosen(SchedulerRuns.Apply(s, es[0]), es[1..])
  }

  /** `t` is on the ready list of priority `p` all along. */
  predicate StaysReady(s: Sched, es: seq<Event>, p: Priority, t: nat)
    requires SchedulerRuns.PossibleRun(s, es)
    decreases |es|
  {
    t in s.ready[p].items && (es == [] || StaysReady(SchedulerRuns.Apply(s, es[0]), es[1..], p, t))
  }

  lemma GoodIsDistinct(s: Sched, p: Priority)
    requires Good(s)
    ensures Distinct(s.ready[p].items)
  {
    GoodIsCore(s);
    hide Good, Delays.Inv, EventsMatch;
    var q := s.ready[p].items;
    forall i, j | 0 <= i < j < |q| ensures q[i] != q[j] {
      OnList(s, p, q[i]);
      hide ByPriority, InReady;
      assert Homes(s, q[i]) == 1;
      hide OtherHomes, Partition;
      if q[i] == q[j] {
        TwiceCounted(q, i, j);
      }
    }
  }

  lemma GoodIsCore(s: Sched)
    requires Good(s)
    ensures Core(s, {})
  {
    hide Core;
  }

  lemma TwiceCounted(q: seq<nat>, i: nat, j: nat)
    requires i < j < |q| && q[i] == q[j]
    ensures Occurrences(q, q[i]) >= 2
  {
    assert q == q[..i] + [q[i]] + q[i + 1..j] + [q[j]] + q[j + 1..];
  }

  /** A context switch selects from the list of `p` the one whose turn it is there, or selects from
      another list and leaves that of `p` as it is. */
  lemma SwitchRing(s: Sched, p: Priority)
    requires Good(s) && s.depth == 0 && s.ready[p].items != []
    ensures var s', c := SwitchContext(s), SwitchContext(s).current;
            var l := s.ready[p];
            if c in l.items then c == l.Advance().Selected() && s'.ready[p] == l.Advance()
            else s'.ready[p] == l
  {
    GoodIsCore(s);
    assert InReady(s, IDLE);
    hide Good, Partition, EventsMatch, SwitchContext, Ring.Advance, Ring.Upcoming;
    SwitchPicksHighest(s);
    var q := PriorityOf(s, SwitchContext(s).current);
    assert s.ready[q].items != [];
    AdvanceRotates(s.ready[q]);
  }

  /** One event: whoever is behind `a` is not selected before it, and stays behind it. */
  lemma StepBehind(s: Sched, e: Event, p: Priority, a: nat, b: nat)
    requires Good(s) && SchedulerRuns.Possible(s, e) && a != b
    requires a in s.ready[p].items && b in s.ready[p].items
    requires var s' := SchedulerRuns.Apply(s, e); a in s'.ready[p].items && b in s'.ready[p].items
    requires Before(s.ready[p].Upcoming(), a, b) && ChosenBy(s, e) != [a]
    ensures ChosenBy(s, e) != [b] && Before(SchedulerRuns.Apply(s, e).ready[p].Upcoming(), a, b)
  {
    if e.Switches? {
      hide Good, SwitchContext, Before, Distinct, Ring.Advance, Ring.Upcoming;
      SwitchWhileSuspended(s);
      if s.depth == 0 {
        SwitchRing(s, p);
        GoodIsDistinct(s, p);
        HeadIsFirst(s.ready[p], a, b);
        if SwitchContext(s).current in s.ready[p].items {
          SelectKeepsOrder(s.ready[p], a, b);
        }
      }
    } else {
      hide Good, SchedulerRuns.Apply, SchedulerRuns.Possible, Before, Ring.Upcoming;
      EventOrder(s, e, p, a, b);
    }
  }

  lemma SwitchWhileSuspended(s: Sched)
    ensures s.depth > 0 ==> SwitchContext(s).ready == s.ready
  {
  }

  /** Selecting `a` puts it behind `b`. */
  lemma StepChooses(s: Sched, e: Event, p: Priority, a: nat, b: nat)
    requires Good(s) && SchedulerRuns.Possible(s, e) && a != b
    requires a in s.ready[p].items && b in s.ready[p].items
    requires Before(s.ready[p].Upcoming(), a, b) && ChosenBy(s, e) == [a]
    ensures Before(SchedulerRuns.Apply(s, e).ready[p].Upcoming(), b, a)
  {
    hide Good, SwitchContext, Before, Distinct, Ring.Advance, Ring.Upcoming;
    SwitchRing(s, p);
    GoodIsDistinct(s, p);
    SelectMovesBehind(s.ready[p], a, b);
  }

  // ---------------------------------------------------------------- whole runs

  /** Nobody already behind `a` is selected before `a` is. */
  lemma {:induction false} NotChosenBefore(s: Sched, es: seq<Event>, p: Priority, a: nat, b: nat)
    requires Good(s) && SchedulerRuns.PossibleRun(s, es) && a != b
    requires StaysReady(s, es, p, a) && StaysReady(s, es, p, b)
    requires Before(s.ready[p].Upcoming(), a, b) && a !in Chosen(s, es)
    ensures b !in Chosen(s, es)
    ensures Before(SchedulerRuns.Run(s, es).ready[p].Upcoming(), a, b)
    decreases |es|
  {
    hide Good, SchedulerRuns.Apply, SchedulerRuns.Possible, Before, Ring.Upcoming, SparesIdle;
    if es != [] {
      var s1 := SchedulerRuns.Apply(s, es[0]);
      ChosenAtMostOne(s, es[0]);
      hide ChosenBy;
      EventKeeps(s, es[0]);
      StepBehind(s, es[0], p, a, b);
      NotChosenBefore(s1, es[1..], p, a, b);
    }
  }

  lemma ChosenAtMostOne(s: Sched, e: Event)
    requires SchedulerRuns.Possible(s, e)
    ensures ChosenBy(s, e) == [] || ChosenBy(s, e) == [ChosenBy(s, e)[0]]
  {
  }

  /** While `a` waits, each `b` ahead of it is selected once, which is when it falls behind. */
  lemma {:induction false} ChosenOncePerRound(s: Sched, es: seq<Event>, p: Priority, a: nat, b: nat)
    requires Good(s) && SchedulerRuns.PossibleRun(s, es) && a != b
    requires StaysReady(s, es, p, a) && StaysReady(s, es, p, b)
    requires Before(s.ready[p].Upcoming(), b, a) && a !in Chosen(s, es)
    ensures RoundStatus(Chosen(s, es), SchedulerRuns.Run(s, es).ready[p].Upcoming(), a, b)
    decreases |es|
  {
    hide Good, SchedulerRuns.Apply, SchedulerRuns.Possible, Before, Ring.Upcoming, SparesIdle;
    if es != [] {
      var s1 := SchedulerRuns.Apply(s, es[0]);
      ChosenAtMostOne(s, es[0]);
      hide ChosenBy;
      EventKeeps(s, es[0]);
      if ChosenBy(s, es[0]) == [b] {
        StepChooses(s, es[0], p, b, a);
        NotChosenBefore(s1, es[1..], p, a, b);
      } else {
        StepBehind(s, es[0], p, b, a);
        ChosenOncePerRound(s1, es[1..], p, a, b);
      }
    }
  }

  /** In every reachable state `a` is selected; then the run `es`, in which it is not; then it is
      selected again.  Every other task that was on its ready list all along has been selected exactly
      once in between. */
  lemma SelectedOnceBetween(tick: Tick, before: seq<Event>, es: seq<Event>, p: Priority, a: nat, b: nat)
    requires SchedulerRuns.PossibleRun(Started(tick), before)
    requires var s0 := SchedulerRuns.Run(Started(tick), before);
             var s := SwitchContext(s0);
             && s0.depth == 0 && s.current == a && SchedulerRuns.PossibleRun(s, es)
             && StaysReady(s, es, p, a) && StaysReady(s, es, p, b) && a != b && a !in Chosen(s, es)
             && SchedulerRuns.Run(s, es).depth == 0 && SwitchContext(SchedulerRuns.Run(s, es)).current == a
    ensures multiset(Chosen(SwitchContext(SchedulerRuns.Run(Started(tick), before)), es))[b] == 1
  {
    hide SchedulerRuns.Run, Started, SwitchContext, SchedulerRuns.PossibleRun, StaysReady, Chosen, Good;
    var s0 := SchedulerRuns.Run(Started(tick), before);
    StartedIsGood(tick);
    RunKeeps(Started(tick), before);
    OnceBetween(s0, es, p, a, b);
  }

  lemma OnceBetween(s0: Sched, es: seq<Event>, p: Priority, a: nat, b: nat)
    requires Good(s0) && s0.depth == 0 && SwitchContext(s0).current == a
    requires SchedulerRuns.PossibleRun(SwitchContext(s0), es) && a != b
    requires StaysReady(SwitchContext(s0), es, p, a) && StaysReady(SwitchContext(s0), es, p, b)
    requires a !in Chosen(SwitchContext(s0), es)
    requires var s' := SchedulerRuns.Run(SwitchContext(s0), es); s'.depth == 0 && SwitchContext(s').current == a
    ensures multiset(Chosen(SwitchContext(s0), es))[b] == 1
  {
    hide SwitchContext, SchedulerRuns.PossibleRun, Chosen, Good, Before, Ring.Upcoming, Ring.Advance;
    var s := SwitchContext(s0);
    SwitchGood(s0);
    var s' := SchedulerRuns.Run(s, es);
    RunKeeps(s, es);
    StaysToTheEnd(s, es, p, a);
    StaysToTheEnd(s, es, p, b);
    hide SchedulerRuns.Run, StaysReady, RoundStatus;
    JustSelected(s0, p, a, b);
    ChosenOncePerRound(s, es, p, a, b);
    NextIsHead(s', p, a, b);
    StatusMeans(Chosen(s, es), s'.ready[p].Upcoming(), a, b);
  }

  lemma StatusMeans(log: seq<nat>, fin: seq<nat>, a: nat, b: nat)
    requires RoundStatus(log, fin, a, b) && !Before(fin, b, a)
    ensures multiset(log)[b] == 1
  {
    hide Before;
  }

  lemma SwitchGood(s: Sched)
    requires Good(s)
    ensures Good(SwitchContext(s))
  {
    EventKeeps(s, Switches);
  }

  lemma {:induction false} StaysToTheEnd(s: Sched, es: seq<Event>, p: Priority, t: nat)
    requires SchedulerRuns.PossibleRun(s, es) && StaysReady(s, es, p, t)
    ensures t in s.ready[p].items && t in SchedulerRuns.Run(s, es).ready[p].items
    decreases |es|
  {
    hide SchedulerRuns.Apply, SchedulerRuns.Possible, SparesIdle;
    if es != [] {
      StaysToTheEnd(SchedulerRuns.Apply(s, es[0]), es[1..], p, t);
    }
  }

  /** Just after `a` has been selected everyone else on its list comes before it. */
  lemma JustSelected(s0: Sched, p: Priority, a: nat, b: nat)
    requires Good(s0) && s0.depth == 0 && SwitchContext(s0).current == a && a != b
    requires a in SwitchContext(s0).ready[p].items && b in SwitchContext(s0).ready[p].items
    ensures Before(SwitchContext(s0).ready[p].Upcoming(), b, a)
  {
    hide SwitchContext, Good, Before, Ring.Upcoming;
    SwitchKeepsItems(s0);
    SwitchRing(s0, p);
    SelectedIsLast(SwitchContext(s0).ready[p], a, b);
  }

  lemma SwitchKeepsItems(s: Sched)
    ensures forall p: Priority :: SwitchContext(s).ready[p].items == s.ready[p].items
  {
    hide HighestInUse;
  }

  /** If the next selection is `a`, nobody on its list comes before it. */
  lemma NextIsHead(s: Sched, p: Priority, a: nat, b: nat)
    requires Good(s) && s.depth == 0 && SwitchContext(s).current == a && a != b
    requires a in s.ready[p].items && b in s.ready[p].items
    ensures !Before(s.ready[p].Upcoming(), b, a)
  {
    hide SwitchContext, Good, Before, Distinct, Ring.Upcoming, Ring.Advance;
    SwitchRing(s, p);
    GoodIsDistinct(s, p);
    if Before(s.ready[p].Upcoming(), b, a) {
      HeadIsFirst(s.ready[p], b, a);
    }
  }
}
