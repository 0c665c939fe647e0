/** The scheduler in the form tasks.c has it: file-scope variables updated in place, and loops that
    take tasks off the head of a list one by one.  Each method is proved against the operation of
    the same name on scheduler states. */
module Kernel {
  import opened Ticks
  import opened Lists
  import opened Delays
  import opened SchedState
  import opened Scheduler

  class Tasks {
    var tasks: map<nat, Tcb>
    var current: nat
    var ready: ReadyLists
    var topReadyPriority: Priority
    var tickCount: Tick
    var numOfOverflows: nat
    var nextTaskUnblockTime: Tick
    var delayedList: seq<Entry>
    var overflowDelayedList: seq<Entry>
    var suspendedList: seq<nat>
    var waitingTermination: seq<nat>
    var pendingReady: seq<nat>
    var eventWaiters: set<nat>
    var schedulerSuspended: nat
    var pendedTicks: nat
    var yieldPending: bool
    var numberOfTasks: nat

    ghost function State(): Sched
      reads this
    {
      Sched(tasks, current, ready, topReadyPriority,
            Delay(tickCount, numOfOverflows, nextTaskUnblockTime, delayedList, overflowDelayedList),
            suspendedList, waitingTermination, pendingReady, eventWaiters, schedulerSuspended,
            pendedTicks, yieldPending, numberOfTasks)
    }

    function PriorityOfTask(t: nat): Priority
      reads this`tasks
    {
      if t in tasks then tasks[t].priority else 0
    }

    // -------------------------------------------------------------- list moves

    method AddTaskToReadyList(t: nat)
      modifies this`ready, this`topReadyPriority
      ensures State() == AddReady(old(State()), t)
    {
      var p := PriorityOfTask(t);
      if p > topReadyPriority {
        topReadyPriority := p;
      }
      var l: ReadyList := ready[p].InsertEnd(t);
      ready := ready[p := l];
    }

    method RemoveEventItem(t: nat)
      modifies this`eventWaiters, this`pendingReady
      ensures State() == ClearEvent(old(State()), t)
    {
      eventWaiters := eventWaiters - {t};
      pendingReady := Without(pendingReady, t);
    }

    method RemoveFromReadyList(t: nat)
      modifies this`ready
      ensures State() == RemoveReady(old(State()), t)
    {
      var p := PriorityOfTask(t);
      var l: ReadyList := ready[p].Remove(t);
      ready := ready[p := l];
    }

    method RemoveFromOtherLists(t: nat)
      requires !InReady(State(), t)
      modifies this`delayedList, this`overflowDelayedList, this`suspendedList, this`waitingTermination
      ensures State() == Unlink(old(State()), t)
    {
      hide WithoutOwner, Without;
      delayedList := WithoutOwner(delayedList, t);
      overflowDelayedList := WithoutOwner(overflowDelayedList, t);
      suspendedList := Without(suspendedList, t);
      waitingTermination := Without(waitingTermination, t);
    }

    /** The list item knows its container; here that is whichever list it is found on. */
    method RemoveStateItem(t: nat)
      modifies this`ready, this`delayedList, this`overflowDelayedList, this`suspendedList,
               this`waitingTermination
      ensures State() == Unlink(old(State()), t)
    {
      hide RemoveReady, Cancel;
      if t in ready[PriorityOfTask(t)].items {
        RemoveFromReadyList(t);
      } else {
        RemoveFromOtherLists(t);
      }
    }

    method ResetNextTaskUnblockTime()
      modifies this`nextTaskUnblockTime
      ensures State() == RescanDelay(old(State()))
    {
      if delayedList == [] {
        nextTaskUnblockTime := MAX_DELAY;
      } else {
        nextTaskUnblockTime := delayedList[0].value;
      }
    }

    // -------------------------------------------------------------- the tick

    method SwitchDelayedLists()
      modifies this`delayedList, this`overflowDelayedList, this`numOfOverflows, this`nextTaskUnblockTime
      ensures State() == old(State()).(delay := SwitchLists(old(State()).delay))
    {
      delayedList, overflowDelayedList := overflowDelayedList, delayedList;
      numOfOverflows := numOfOverflows + 1;
      ResetNextTaskUnblockTime();
    }

    /** Move the head of the delayed list to its ready list. */
    method ReleaseHead() returns (urgent: bool)
      requires delayedList != []
      modifies this`delayedList, this`eventWaiters, this`pendingReady, this`ready, this`topReadyPriority
      ensures State() == HeadReleased(old(State())) && delayedList == old(delayedList)[1..]
      ensures urgent == (old(PriorityOf(State(), delayedList[0].owner) >= PriorityOf(State(), current)))
    {
      var t := delayedList[0].owner;
      delayedList := delayedList[1..];
      RemoveEventItem(t);
      AddTaskToReadyList(t);
      urgent := PriorityOfTask(t) >= PriorityOfTask(current);
    }

    /** Release the tasks at the head of the delayed list that are due, one by one. */
    method UnblockDue() returns (switchRequired: bool)
      modifies this`delayedList, this`nextTaskUnblockTime, this`eventWaiters, this`pendingReady,
               this`ready, this`topReadyPriority
      ensures State() == DueReleased(old(State()))
      ensures switchRequired == AnyAsUrgent(old(State()), DueOwners(old(State())))
    {
      hide HeadReleased, Remaining, AnyAsUrgent, Leading, Trailing;
      switchRequired := false;
      ghost var s := State();
      ghost var rest := Leading(delayedList, tickCount);
      NothingReleased(s);
      while delayedList != [] && delayedList[0].value <= tickCount
        invariant Remaining(s, State(), rest)
        invariant switchRequired || AnyAsUrgent(s, Owners(rest)) <==> AnyAsUrgent(s, DueOwners(s))
        invariant switchRequired ==> AnyAsUrgent(s, DueOwners(s))
        decreases |delayedList|
      {
        ReleasedOne(s, State(), rest);
        var urgent := ReleaseHead();
        if urgent {
          switchRequired := true;
        }
        rest := rest[1..];
      }
      ReleasedAll(s, State(), rest);
      ResetNextTaskUnblockTime();
    }

    method AdvanceCounter()
      modifies this`tickCount, this`delayedList, this`overflowDelayedList, this`numOfOverflows,
               this`nextTaskUnblockTime
      ensures State() == Advanced(old(State()))
    {
      tickCount := Add(tickCount, 1);
      if tickCount == 0 {
        SwitchDelayedLists();
      }
    }

    method IncrementTick() returns (switchRequired: bool)
      modifies this
      ensures (State(), switchRequired) == TickInterrupt(old(State()))
    {
      hide Advanced, DueReleased, AnyAsUrgent, DueOwners, RunningTick;
      switchRequired := false;
      TickInSteps(State());
      if schedulerSuspended == 0 {
        AdvanceCounter();
        if tickCount >= nextTaskUnblockTime {
          switchRequired := UnblockDue();
        }
        if |ready[PriorityOfTask(current)].items| > 1 {
          switchRequired := true;
        }
        if yieldPending {
          switchRequired := true;
        }
      } else {
        pendedTicks := pendedTicks + 1;
      }
    }

    // -------------------------------------------------------------- resuming the scheduler

    /** Move the head of the pending-ready list to its ready list. */
    method ReadyPendingHead()
      requires pendingReady != []
      modifies this
      ensures State() == HeadDrained(old(State()))
      ensures pendingReady == Without(old(pendingReady), old(pendingReady[0]))
    {
      hide ClearEvent, Unlink, AddReady, Drain;
      var t := pendingReady[0];
      HeadDrainedInSteps(State());
      RemoveEventItem(t);
      RemoveStateItem(t);
      AddTaskToReadyList(t);
      if PriorityOfTask(t) >= PriorityOfTask(current) {
        yieldPending := true;
      }
    }

    method DrainPendingReady()
      modifies this
      ensures State() == if old(State()).pending == [] then old(State()) else RescanDelay(Drain(old(State())))
    {
      hide HeadDrained, RescanDelay;
      ghost var s := State();
      var moved := false;
      DrainEnd(s);
      while pendingReady != []
        invariant Drain(State()) == Drain(s)
        invariant if moved then s.pending != [] else State() == s
        decreases |pendingReady|
      {
        DrainStep(State());
        WithoutHeadShorter(pendingReady);
        ReadyPendingHead();
        moved := true;
        DrainEnd(State());
      }
      if moved {
        ResetNextTaskUnblockTime();
      }
    }

    /** Process the ticks that were held back. */
    method ProcessPendedTicks()
      requires schedulerSuspended == 0
      modifies this
      ensures State() == CatchUp(old(State()), old(pendedTicks)).(pended := 0)
      ensures schedulerSuspended == 0
    {
      hide RunningTick, CatchUpOne, CatchUp;
      ghost var s := State();
      CatchUpNone(s);
      var counts: nat := pendedTicks;
      while counts > 0
        invariant counts <= s.pended
        invariant State() == CatchUp(s, s.pended - counts) && schedulerSuspended == 0
      {
        ghost var before := State();
        var switch := IncrementTick();
        if switch {
          yieldPending := true;
        }
        CatchUpStep(s, s.pended - counts);
        counts := counts - 1;
      }
      pendedTicks := 0;
    }

    method ResumeAll() returns (alreadyYielded: bool)
      requires schedulerSuspended > 0 && numberOfTasks > 0
      modifies this
      ensures State() == Scheduler.ResumeAll(old(State()))
      ensures alreadyYielded <==> schedulerSuspended == 0 && yieldPending
    {
      hide Drain, CatchUp, RescanDelay;
      alreadyYielded := false;
      ghost var s := State();
      ReopenedIsOpen(s);
      schedulerSuspended := schedulerSuspended - 1;
      if schedulerSuspended == 0 {
        if numberOfTasks > 0 {
          DrainPendingReady();
          ProcessPendedTicks();
          if yieldPending {
            alreadyYielded := true;
          }
        }
      }
    }

    // -------------------------------------------------------------- choosing the task to run

    method SelectHighestPriorityTask()
      requires SomeoneReady(State()) && ByPriority(State())
      modifies this`current, this`ready, this`topReadyPriority
      ensures schedulerSuspended == 0 && !yieldPending ==> State() == Scheduler.SwitchContext(old(State()))
    {
      hide ByPriority, SomeoneReady;
      var top: Priority := topReadyPriority;
      SearchEnds(State());
      while ready[top].items == []
        invariant HighestInUse(ready, top) == HighestInUse(ready, topReadyPriority)
        invariant ready[HighestInUse(ready, top)].items != []
        decreases top
      {
        top := top - 1;
      }
      var l: ReadyList := ready[top].Advance();
      ready := ready[top := l];
      current := l.items[l.index - 1];
      topReadyPriority := top;
    }

    method SwitchContext()
      requires SomeoneReady(State()) && ByPriority(State())
      modifies this
      ensures State() == Scheduler.SwitchContext(old(State()))
    {
      hide ByPriority, SomeoneReady, HighestInUse;
      if schedulerSuspended != 0 {
        yieldPending := true;
      } else {
        ghost var s := State();
        SearchEnds(s);
        YieldKeepsChoice(s);
        yieldPending := false;
        SelectHighestPriorityTask();
      }
    }

    // -------------------------------------------------------------- deleting and suspending

    method Delete(t: nat)
      modifies this
      ensures State() == Scheduler.Delete(old(State()), t)
    {
      hide Unlink, ClearEvent;
      RemoveEventItem(t);
      RemoveStateItem(t);
      UnlinkKeepsCurrent(old(State()), t);
      if t == current {
        waitingTermination := waitingTermination + [t];
      } else {
        numberOfTasks := if numberOfTasks == 0 then 0 else numberOfTasks - 1;
        tasks := tasks - {t};
        ResetNextTaskUnblockTime();
      }
    }

    method FreeFirstTerminated()
      requires waitingTermination != []
      modifies this`tasks, this`numberOfTasks, this`waitingTermination
      ensures State() == FirstFreed(old(State())) && waitingTermination == old(waitingTermination)[1..]
    {
      var t := waitingTermination[0];
      waitingTermination := waitingTermination[1..];
      numberOfTasks := if numberOfTasks == 0 then 0 else numberOfTasks - 1;
      tasks := tasks - {t};
    }

    /** The idle task's part of deletion. */
    method CheckTasksWaitingTermination()
      modifies this`tasks, this`numberOfTasks, this`waitingTermination
      ensures State() == CleanUp(old(State()))
    {
      hide CleanUp, DropTask;
      ghost var s := State();
      CleanUpStep(s);
      while waitingTermination != []
        invariant CleanUp(State()) == CleanUp(s)
        decreases |waitingTermination|
      {
        CleanUpStep(State());
        FreeFirstTerminated();
      }
      CleanUpStep(State());
    }

    method Suspend(t: nat)
      modifies this
      ensures State() == SuspendTask(old(State()), t)
    {
      hide Unlink, ClearEvent;
      RemoveEventItem(t);
      RemoveStateItem(t);
      suspendedList := suspendedList + [t];
      ResetNextTaskUnblockTime();
    }

    method Resume(t: nat)
      modifies this
      ensures State() == ResumeTask(old(State()), t)
    {
      hide Unlink, AddReady;
      if t != current && t in suspendedList && t !in pendingReady && t !in eventWaiters {
        RemoveStateItem(t);
        AddTaskToReadyList(t);
      }
    }

    // -------------------------------------------------------------- blocking and waking

    method AddCurrentTaskToDelayedList(ticksToWait: Tick, canBlockIndefinitely: bool)
      modifies this
      ensures State() == Block(old(State()), ticksToWait, canBlockIndefinitely, false)
    {
      hide Unlink;
      var t := current;
      RemoveStateItem(t);
      UnlinkKeepsCurrent(old(State()), t);
      if ticksToWait == MAX_DELAY && canBlockIndefinitely {
        suspendedList := suspendedList + [t];
      } else {
        var timeToWake := Add(tickCount, ticksToWait);
        if timeToWake < tickCount {
          overflowDelayedList := InsertSorted(overflowDelayedList, Entry(t, timeToWake));
        } else {
          delayedList := InsertSorted(delayedList, Entry(t, timeToWake));
          if timeToWake < nextTaskUnblockTime {
            nextTaskUnblockTime := timeToWake;
          }
        }
      }
    }

    method RemoveFromEventList(t: nat) returns (higherPriorityTaskWoken: bool)
      modifies this
      ensures State() == Scheduler.RemoveFromEventList(old(State()), t)
      ensures higherPriorityTaskWoken == Outranks(old(State()), t)
    {
      hide Unlink, AddReady, ClearEvent;
      WakeKeepsTasks(State(), t);
      RemoveEventItem(t);
      if schedulerSuspended == 0 {
        RemoveStateItem(t);
        AddTaskToReadyList(t);
      } else {
        pendingReady := pendingReady + [t];
      }
      higherPriorityTaskWoken := PriorityOfTask(t) > PriorityOfTask(current);
      if higherPriorityTaskWoken {
        yieldPending := true;
      }
    }

    /** The event item goes to the list waited on, the state item to a delayed list. */
    method PlaceOnEventList(ticksToWait: Tick)
      modifies this
      ensures State() == Block(old(State()), ticksToWait, true, true)
    {
      hide Unlink;
      var t := current;
      BlockOnEvent(State(), ticksToWait);
      AddCurrentTaskToDelayedList(ticksToWait, true);
      eventWaiters := eventWaiters + {t};
    }

    method RemoveFromUnorderedEventList(t: nat)
      requires schedulerSuspended > 0
      modifies this
      ensures State() == Scheduler.RemoveFromUnorderedEventList(old(State()), t)
    {
      hide Unlink, AddReady, ClearEvent;
      MakeReadyKeepsTasks(State(), t);
      RemoveEventItem(t);
      RemoveStateItem(t);
      AddTaskToReadyList(t);
      if PriorityOfTask(t) > PriorityOfTask(current) {
        yieldPending := true;
      }
    }

    /** The answer asks for a context switch. */
    method ResumeFromISR(t: nat) returns (yieldRequired: bool)
      modifies this
      ensures State() == Scheduler.ResumeFromISR(old(State()), t)
      ensures yieldRequired <==> IsSuspended(old(State()), t) && old(schedulerSuspended) == 0
                                 && PriorityOf(old(State()), t) >= PriorityOf(old(State()), old(current))
    {
      hide Unlink, AddReady;
      yieldRequired := false;
      if t in suspendedList && t !in pendingReady && t !in eventWaiters {
        if schedulerSuspended == 0 {
          if PriorityOfTask(t) >= PriorityOfTask(current) {
            yieldRequired := true;
            yieldPending := true;
          }
          RemoveStateItem(t);
          AddTaskToReadyList(t);
        } else {
          pendingReady := pendingReady + [t];
        }
      }
    }

    method AddNewTaskToReadyList(t: nat, priority: Priority)
      modifies this
      ensures State() == Create(old(State()), t, priority)
    {
      hide AddReady;
      numberOfTasks := numberOfTasks + 1;
      tasks := tasks[t := Tcb(priority, priority, 0)];
      AddTaskToReadyList(t);
    }

    // -------------------------------------------------------------- priority inheritance

    method IncrementMutexHeldCount() returns (holder: nat)
      requires current in tasks
      modifies this`tasks
      ensures State() == CountMutex(old(State())) && holder == current
    {
      tasks := tasks[current := tasks[current].(mutexesHeld := tasks[current].mutexesHeld + 1)];
      holder := current;
    }

    method SetPriorityOf(t: nat, p: Priority)
      requires t in tasks
      modifies this
      ensures State() == Reprioritise(old(State()), t, p)
    {
      hide Unlink, AddReady;
      if t in ready[PriorityOfTask(t)].items {
        UnlinkKeepsCurrent(State(), t);
        RemoveStateItem(t);
        tasks := tasks[t := tasks[t].(priority := p)];
        AddTaskToReadyList(t);
      } else {
        tasks := tasks[t := tasks[t].(priority := p)];
      }
    }

    method PriorityInherit(holder: nat) returns (inherited: bool)
      requires holder in tasks
      modifies this
      ensures State() == Inherit(old(State()), holder)
      ensures inherited <==> old(BaseOf(State(), holder) < PriorityOf(State(), current)
                                 || PriorityOf(State(), holder) < PriorityOf(State(), current))
    {
      hide Reprioritise;
      inherited := false;
      var p := PriorityOfTask(current);
      if PriorityOfTask(holder) < p {
        inherited := true;
        SetPriorityOf(holder, p);
      } else if tasks[holder].base < p {
        inherited := true;
      }
    }

    method PriorityDisinherit() returns (yieldRequired: bool)
      requires current in tasks && tasks[current].mutexesHeld > 0
      modifies this
      ensures State() == Disinherit(old(State()))
      ensures yieldRequired <==> old(tasks[current].priority != tasks[current].base
                                     && tasks[current].mutexesHeld == 1)
    {
      hide Reprioritise;
      yieldRequired := false;
      var t := current;
      tasks := tasks[t := tasks[t].(mutexesHeld := tasks[t].mutexesHeld - 1)];
      if tasks[t].priority != tasks[t].base {
        if tasks[t].mutexesHeld == 0 {
          SetPriorityOf(t, tasks[t].base);
          yieldRequired := true;
        }
      }
    }

    method PriorityDisinheritAfterTimeout(holder: nat, highestWaiting: Priority)
      requires holder in tasks
      modifies this
      ensures State() == DisinheritAfterTimeout(old(State()), holder, highestWaiting)
    {
      hide Reprioritise;
      var p := if tasks[holder].base < highestWaiting then highestWaiting else tasks[holder].base;
      if tasks[holder].priority != p {
        if tasks[holder].mutexesHeld == 1 {
          SetPriorityOf(holder, p);
        }
      }
    }
  }

  function FirstFreed(s: Sched): Sched
    requires s.terminating != []
  {
    DropTask(s.(terminating := s.terminating[1..]), s.terminating[0])
  }

  lemma CleanUpStep(s: Sched)
    ensures CleanUp(s) == if s.terminating == [] then s else CleanUp(FirstFreed(s))
  {
  }

  lemma SearchEnds(s: Sched)
    requires SomeoneReady(s) && ByPriority(s)
    ensures s.ready[HighestInUse(s.ready, s.top)].items != []
  {
    var t :| InReady(s, t);
    ReadyBelowTop(s, t);
    HighestInUseIsHighest(s.ready, s.top, PriorityOf(s, t));
  }

  lemma YieldKeepsChoice(s: Sched)
    requires SomeoneReady(s) && ByPriority(s) && s.depth == 0
    ensures var s1 := s.(yieldPending := false);
            SomeoneReady(s1) && ByPriority(s1) && Scheduler.SwitchContext(s1) == Scheduler.SwitchContext(s)
  {
    var t :| InReady(s, t);
    assert InReady(s.(yieldPending := false), t);
    SearchEnds(s);
  }

  lemma UnlinkKeepsCurrent(s: Sched, t: nat)
    ensures Unlink(s, t).current == s.current && Unlink(s, t).tasks == s.tasks
    ensures Unlink(s, t).delay.tick == s.delay.tick && Unlink(s, t).delay.next == s.delay.next
    ensures Unlink(ClearEvent(s, t), t).current == s.current
  {
  }

  lemma BlockOnEvent(s: Sched, n: Tick)
    ensures var s' := Block(s, n, true, false);
            Block(s, n, true, true) == s'.(events := s'.events + {s.current})
  {
    hide Unlink;
  }

  lemma MakeReadyKeepsTasks(s: Sched, t: nat)
    ensures MakeReady(s, t).tasks == s.tasks && MakeReady(s, t).current == s.current
  {
    UnlinkKeepsCurrent(ClearEvent(s, t), t);
    hide Unlink;
  }

  lemma WakeKeepsTasks(s: Sched, t: nat)
    ensures Wake(s, t).tasks == s.tasks && Wake(s, t).current == s.current
  {
    UnlinkKeepsCurrent(ClearEvent(s, t), t);
    hide Unlink;
  }

  // ---------------------------------------------------------------- resuming, step by step

  function HeadDrained(s: Sched): Sched
    requires s.pending != []
  {
    var t := s.pending[0];
    MakeReady(YieldIf(s, PriorityOf(s, t) >= PriorityOf(s, s.current)), t)
  }

  lemma HeadDrainedInSteps(s: Sched)
    requires s.pending != []
    ensures var t := s.pending[0];
            var s1 := AddReady(Unlink(ClearEvent(s, t), t), t);
            && HeadDrained(s) == YieldIf(s1, PriorityOf(s, t) >= PriorityOf(s, s.current))
            && s1.tasks == s.tasks && s1.current == s.current
            && s1.pending == Without(s.pending, t)
  {
  }

  lemma DrainStep(s: Sched)
    requires s.pending != []
    ensures Drain(s) == Drain(HeadDrained(s))
  {
  }

  lemma DrainEnd(s: Sched)
    ensures s.pending == [] ==> Drain(s) == s
  {
  }

  lemma CatchUpNone(s: Sched)
    ensures CatchUp(s, 0) == s
  {
  }

  lemma CatchUpStep(s: Sched, k: nat)
    ensures CatchUp(s, k + 1) == CatchUpOne(CatchUp(s, k))
    ensures var (s', switch) := RunningTick(CatchUp(s, k));
            && CatchUpOne(CatchUp(s, k)) == YieldIf(s', switch)
            && s'.depth == CatchUp(s, k).depth
  {
    RunningTickKeepsDepth(CatchUp(s, k));
  }

  lemma RunningTickKeepsDepth(s: Sched)
    ensures RunningTick(s).0.depth == s.depth
  {
    ReadyAllKeepsOthers(s.(delay := IncrementTick(s.delay).0), IncrementTick(s.delay).1);
  }

  lemma ReopenedIsOpen(s: Sched)
    ensures Reopened(s).depth == 0 && Reopened(s).pended == s.pended
  {
    DrainKeepsOthers(s.(depth := 0));
  }

  lemma {:induction false} DrainKeepsOthers(s: Sched)
    ensures Drain(s).depth == s.depth && Drain(s).pended == s.pended && Drain(s).count == s.count
    decreases |s.pending|
  {
    hide Drain, MakeReady;
    if s.pending != [] {
      DrainStep(s);
      WithoutHeadShorter(s.pending);
      HeadDrainedOthers(s);
      hide HeadDrained;
      DrainKeepsOthers(HeadDrained(s));
    } else {
      DrainEnd(s);
    }
  }

  lemma HeadDrainedOthers(s: Sched)
    requires s.pending != []
    ensures var s' := HeadDrained(s);
            && s'.depth == s.depth && s'.pended == s.pended && s'.count == s.count
            && s'.pending == Without(s.pending, s.pending[0])
  {
  }

  // ---------------------------------------------------------------- the tick, step by step

  function HeadReleased(s: Sched): Sched
    requires s.delay.cur != []
  {
    var t := s.delay.cur[0].owner;
    AddReady(ClearEvent(s.(delay := s.delay.(cur := s.delay.cur[1..])), t), t)
  }

  function DueOwners(s: Sched): seq<nat> {
    Owners(Leading(s.delay.cur, s.delay.tick))
  }

  function DueReleased(s: Sched): Sched {
    ReadyAll(s.(delay := Rescan(s.delay.(cur := Trailing(s.delay.cur, s.delay.tick)))), DueOwners(s))
  }

  function Advanced(s: Sched): Sched {
    var d := s.delay.(tick := Add(s.delay.tick, 1));
    s.(delay := if d.tick == 0 then SwitchLists(d) else d)
  }

  lemma TickInSteps(s: Sched)
    ensures var s1 := Advanced(s);
            var due := s1.delay.tick >= s1.delay.next;
            var s2 := if due then DueReleased(s1) else s1;
            && RunningTick(s)
               == (s2, (due && AnyAsUrgent(s1, DueOwners(s1)))
                       || |s2.ready[PriorityOf(s2, s2.current)].items| > 1 || s2.yieldPending)
            && s2.yieldPending == s.yieldPending
  {
    var s1 := Advanced(s);
    UrgentIgnoresLists(s, s1, DueOwners(s1));
    ReadyAllKeepsOthers(s1.(delay := Rescan(s1.delay.(cur := Trailing(s1.delay.cur, s1.delay.tick)))), DueOwners(s1));
  }

  lemma {:induction false} ReadyAllKeepsOthers(s: Sched, ts: seq<nat>)
    ensures var s' := ReadyAll(s, ts);
            && s'.yieldPending == s.yieldPending
            && s'.tasks == s.tasks && s'.current == s.current && s'.depth == s.depth
    decreases |ts|
  {
    if ts != [] {
      ReadyAllKeepsOthers(AddReady(ClearEvent(s, ts[0]), ts[0]), ts[1..]);
    }
  }

  /** Some of those due have been released: `rest` are still at the head of the delayed list. */
  ghost predicate Remaining(s: Sched, now: Sched, rest: seq<Entry>) {
    && now.delay == s.delay.(cur := now.delay.cur)
    && now.tasks == s.tasks && now.current == s.current
    && rest == Leading(now.delay.cur, now.delay.tick)
    && Trailing(now.delay.cur, now.delay.tick) == Trailing(s.delay.cur, s.delay.tick)
    && ReadyAll(now.(delay := s.delay), Owners(rest)) == ReadyAll(s, DueOwners(s))
  }

  lemma NothingReleased(s: Sched)
    ensures Remaining(s, s, Leading(s.delay.cur, s.delay.tick))
  {
  }

  lemma HeadReleasedFirst(s: Sched, now: Sched, rest: seq<Entry>)
    requires now.delay.cur != [] && rest != [] && rest[0] == now.delay.cur[0]
    ensures ReadyAll(now.(delay := s.delay), Owners(rest))
         == ReadyAll(HeadReleased(now).(delay := s.delay), Owners(rest[1..]))
  {
    var t := rest[0].owner;
    assert Owners(rest)[1..] == Owners(rest[1..]);
    assert HeadReleased(now).(delay := s.delay) == AddReady(ClearEvent(now.(delay := s.delay), t), t);
  }

  /** The loop's step: the head is due, and releasing it leaves one fewer. */
  lemma ReleasedOne(s: Sched, now: Sched, rest: seq<Entry>)
    requires Remaining(s, now, rest)
    requires now.delay.cur != [] && now.delay.cur[0].value <= now.delay.tick
    ensures rest != [] && Remaining(s, HeadReleased(now), rest[1..])
    ensures AnyAsUrgent(s, Owners(rest))
       <==> PriorityOf(now, now.delay.cur[0].owner) >= PriorityOf(now, now.current)
            || AnyAsUrgent(s, Owners(rest[1..]))
  {
    assert rest == [now.delay.cur[0]] + Leading(now.delay.cur[1..], now.delay.tick);
    HeadReleasedFirst(s, now, rest);
    assert Owners(rest)[1..] == Owners(rest[1..]);
    hide ReadyAll;
  }

  lemma {:induction false} UrgentIgnoresLists(s: Sched, s': Sched, ts: seq<nat>)
    requires s'.tasks == s.tasks && s'.current == s.current
    ensures AnyAsUrgent(s', ts) == AnyAsUrgent(s, ts)
    decreases |ts|
  {
    if ts != [] {
      UrgentIgnoresLists(s, s', ts[1..]);
    }
  }

  lemma {:induction false} ReadyAllIgnoresDelay(s: Sched, d: Delay, ts: seq<nat>)
    ensures ReadyAll(s.(delay := d), ts) == ReadyAll(s, ts).(delay := d)
    decreases |ts|
  {
    if ts != [] {
      var s1 := AddReady(ClearEvent(s, ts[0]), ts[0]);
      assert AddReady(ClearEvent(s.(delay := d), ts[0]), ts[0]) == s1.(delay := d);
      ReadyAllIgnoresDelay(s1, d, ts[1..]);
    }
  }

  lemma ReleasedAll(s: Sched, now: Sched, rest: seq<Entry>)
    requires Remaining(s, now, rest)
    requires now.delay.cur == [] || now.delay.tick < now.delay.cur[0].value
    ensures !AnyAsUrgent(s, Owners(rest)) && RescanDelay(now) == DueReleased(s)
  {
    var d := Rescan(s.delay.(cur := Trailing(s.delay.cur, s.delay.tick)));
    ReadyAllIgnoresDelay(s, d, DueOwners(s));
    assert Owners(rest) == [];
    assert now.(delay := s.delay) == ReadyAll(s, DueOwners(s));
  }
}
