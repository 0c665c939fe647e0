/** `xTaskDelayUntil` and furi's `furi_delay_until_tick` on the kernel's variables, tied to what
    Timeouts proves about them. */
module FuriDelay {
  import opened Ticks
  import opened Delays
  import opened SchedState
  import opened Scheduler
  import opened Timeouts
  import opened Kernel
  import SchedulerRuns
  import SleepRuns

  /** The scheduler after the running task has asked to sleep until `previous + increment`. */
  function DelayedUntil(s: Sched, previous: Tick, increment: Tick): Sched {
    var s1 := SuspendAll(s);
    var n := Sub(Add(previous, increment), s.delay.tick);
    ResumeAll(if ShouldDelay(previous, increment, s.delay.tick) then Block(s1, n, false, false) else s1)
  }

  lemma ReopenUndoesSuspend(s: Sched)
    requires s.depth == 1 && s.pending == [] && s.pended == 0
    ensures ResumeAll(s) == s.(depth := 0)
  {
  }

  lemma BlockWhileSuspended(s: Sched, n: Tick)
    requires s.pending == [] && InReady(s, s.current)
    ensures Block(SuspendAll(s), n, false, false) == SuspendAll(Block(s, n, false, false))
    ensures Block(s, n, false, false).pending == [] && Block(s, n, false, false).pended == s.pended
    ensures Block(s, n, false, false).depth == s.depth
    ensures Block(s, n, false, false).delay == Sleep(s.delay, s.current, n)
  {
  }

  /** It goes to the delayed lists as `DelayUntil` says, and to nothing else. */
  lemma DelayedUntilMeans(s: Sched, previous: Tick, increment: Tick)
    requires SchedState.Inv(s) && s.depth == 0 && InReady(s, s.current)
    ensures var r := DelayUntil(s.delay, s.current, previous, increment);
            && DelayedUntil(s, previous, increment).delay == r.after
            && r.delayed == ShouldDelay(previous, increment, s.delay.tick)
    ensures !ShouldDelay(previous, increment, s.delay.tick) ==> DelayedUntil(s, previous, increment) == s
  {
    var n := Sub(Add(previous, increment), s.delay.tick);
    hide Block, ResumeAll, Sleep, SchedState.Core;
    BlockWhileSuspended(s, n);
    ReopenUndoesSuspend(SuspendAll(Block(s, n, false, false)));
    ReopenUndoesSuspend(SuspendAll(s));
    assert SuspendAll(s).(depth := 0) == s;
  }

  method TaskDelayUntil(k: Tasks, previousWakeTime: Tick, increment: Tick) returns (shouldDelay: bool, wakeTime: Tick)
    requires increment > 0 && k.schedulerSuspended == 0 && k.numberOfTasks > 0
    modifies k
    ensures k.State() == DelayedUntil(old(k.State()), previousWakeTime, increment)
    ensures shouldDelay == ShouldDelay(previousWakeTime, increment, old(k.tickCount))
    ensures wakeTime == Add(previousWakeTime, increment)
  {
    hide Block, ResumeAll;
    ghost var s := k.State();
    k.schedulerSuspended := k.schedulerSuspended + 1;
    var tick := k.tickCount;
    shouldDelay := false;
    wakeTime := Add(previousWakeTime, increment);
    if tick < previousWakeTime {
      if wakeTime < previousWakeTime && wakeTime > tick {
        shouldDelay := true;
      }
    } else {
      if wakeTime < previousWakeTime || wakeTime > tick {
        shouldDelay := true;
      }
    }
    if shouldDelay {
      BlockKeepsCounts(k.State(), Sub(wakeTime, tick));
      k.AddCurrentTaskToDelayedList(Sub(wakeTime, tick), false);
    }
    var alreadyYielded := k.ResumeAll();
  }

  lemma BlockKeepsCounts(s: Sched, n: Tick)
    ensures Block(s, n, false, false).depth == s.depth && Block(s, n, false, false).count == s.count
  {
  }

  method DelayUntilNamedTick(k: Tasks, tick: Tick) returns (status: FuriStatus)
    requires k.schedulerSuspended == 0 && k.numberOfTasks > 0
    modifies k
    ensures var s, delay := old(k.State()), Sub(tick, old(k.tickCount));
            if delay != 0 && delay < 0x8000_0000 then
              && k.State() == DelayedUntil(s, s.delay.tick, delay)
              && status == (if ShouldDelay(s.delay.tick, delay, s.delay.tick) then FuriStatusOk else FuriStatusError)
            else k.State() == s && status == FuriStatusErrorParameter
  {
    hide DelayedUntil;
    status := FuriStatusOk;
    var tcnt := k.tickCount;
    var delay := Sub(tick, tcnt);
    if delay != 0 && delay < 0x8000_0000 {
      var delayed, wake := TaskDelayUntil(k, tcnt, delay);
      if !delayed {
        status := FuriStatusError;
      }
    } else {
      status := FuriStatusErrorParameter;
    }
  }

  /** The counter is read at `entry`, and the delay is made in state `s`, less than a turn later.  A delay
      to a named tick less than half a turn ahead leaves the task asleep until that tick next shows; or,
      if it has come by in between, does nothing. */
  lemma NamedTickReached(s: Sched, entry: Instant, tick: Tick)
    requires SchedState.Inv(s) && s.depth == 0 && InReady(s, s.current) && Awake(s.delay, s.current)
    requires entry.Time() <= Now(s.delay) < entry.Time() + W
    requires var delay := Sub(tick, entry.tick); delay != 0 && delay < 0x8000_0000
    ensures var s' := DelayedUntil(s, entry.tick, Sub(tick, entry.tick));
            var due := Occurrence(entry, tick).Time();
            if Now(s.delay) < due then SleepsUntil(s'.delay, s.current, due) else s' == s
  {
    var delay := Sub(tick, entry.tick);
    hide DelayedUntil, SchedState.Core, DelayUntil, SleepsUntil, Awake, Delays.Inv, ShouldDelay, At;
    DelayedUntilMeans(s, entry.tick, delay);
    DelayUntilTickMeans(entry, s.delay, s.current, tick);
    DelayUntilTickIs(entry.tick, s.delay, s.current, tick);
    OccurrenceAhead(entry, tick);
  }

  /** A delay that is made is a block of the ticks that are left. */
  lemma DelayedUntilIsBlock(s: Sched, previous: Tick, increment: Tick)
    requires SchedState.Inv(s) && s.depth == 0 && InReady(s, s.current)
    requires ShouldDelay(previous, increment, s.delay.tick)
    ensures var n := Sub(Add(previous, increment), s.delay.tick);
            DelayedUntil(s, previous, increment) == Block(s, n, false, false)
  {
    var n := Sub(Add(previous, increment), s.delay.tick);
    hide Block, ResumeAll, Sleep, SchedState.Core;
    BlockWhileSuspended(s, n);
    ReopenUndoesSuspend(SuspendAll(Block(s, n, false, false)));
    assert SuspendAll(Block(s, n, false, false)).(depth := 0) == Block(s, n, false, false);
  }

  /** In the whole scheduler: a periodic delay made before its time is up ends exactly one increment after
      the previous wake time. */
  lemma PeriodicDelayInRun(s: Sched, previous: Instant, increment: Tick, es: seq<SchedulerRuns.Event>)
    requires SchedulerRuns.Good(s) && s.depth == 0 && InReady(s, s.current) && s.current != SchedulerRuns.IDLE
    requires previous.Time() <= Now(s.delay) < previous.Time() + W
    requires Now(s.delay) < previous.Time() + increment
    requires SchedulerRuns.PossibleRun(DelayedUntil(s, previous.tick, increment), es)
    requires SleepRuns.Untouched(es, s.current)
    ensures SleepRuns.RunOnTime(DelayedUntil(s, previous.tick, increment), es, s.current,
                                previous.Time() + increment)
  {
    hide DelayedUntil, SchedState.Inv, ShouldDelay, At, InReady, Block, Now;
    var n := Sub(Add(previous.tick, increment), s.delay.tick);
    DelayUntilExact(s.delay, previous, increment);
    DelayedUntilIsBlock(s, previous.tick, increment);
    hide SchedulerRuns.Good, SchedulerRuns.PossibleRun, SleepRuns.RunOnTime, SleepRuns.Untouched;
    SleepRuns.BlockEndsOnTime(s, n, false, false, es);
  }

  /** And a delay to a named tick that has not come by ends in that very tick, the first time it shows. */
  lemma NamedTickInRun(s: Sched, entry: Instant, tick: Tick, es: seq<SchedulerRuns.Event>)
    requires SchedulerRuns.Good(s) && s.depth == 0 && InReady(s, s.current) && s.current != SchedulerRuns.IDLE
    requires entry.Time() <= Now(s.delay) < entry.Time() + W
    requires var delay := Sub(tick, entry.tick); delay != 0 && delay < 0x8000_0000
    requires Now(s.delay) < Occurrence(entry, tick).Time()
    requires SchedulerRuns.PossibleRun(DelayedUntil(s, entry.tick, Sub(tick, entry.tick)), es)
    requires SleepRuns.Untouched(es, s.current)
    ensures SleepRuns.RunOnTime(DelayedUntil(s, entry.tick, Sub(tick, entry.tick)), es, s.current,
                                Occurrence(entry, tick).Time())
  {
    hide DelayedUntil, SchedulerRuns.Good, SchedulerRuns.PossibleRun, SleepRuns.RunOnTime, InReady, Now;
    OccurrenceAhead(entry, tick);
    PeriodicDelayInRun(s, entry, Sub(tick, entry.tick), es);
  }

  lemma DelayUntilTickIs(tcnt: Tick, d: Delay, task: nat, tick: Tick)
    requires var delay := Sub(tick, tcnt); delay != 0 && delay < 0x8000_0000
    ensures var r := DelayUntil(d, task, tcnt, Sub(tick, tcnt));
            DelayUntilTick(tcnt, d, task, tick) == (if r.delayed then FuriStatusOk else FuriStatusError, r.after)
  {
  }

  lemma OccurrenceAhead(now: Instant, tick: Tick)
    ensures Occurrence(now, tick).Time() == now.Time() + Sub(tick, now.tick)
  {
  }
}
