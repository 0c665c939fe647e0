/** Deadlines kept in wrapping words: the timeout record of tasks.c, `xTaskDelayUntil`, and furi's
    `furi_delay_until_tick` on top of it. */
module Timeouts {
  import opened Ticks
  import opened Delays

  // ---------------------------------------------------------------- xTaskCheckForTimeOut

  datatype Verdict = Verdict(timedOut: bool, entered: Instant, ticks: Tick)

  /** Has a wait of `ticks`, entered at `entered`, expired?  If not, the record is moved up to now
      and the wait shortened.  MAX_DELAY means wait for ever. */
  function CheckForTimeOut(entered: Instant, ticks: Tick, now: Instant): Verdict {
    if ticks == MAX_DELAY then Verdict(false, entered, ticks)
    else if now.epoch != entered.epoch && now.tick >= entered.tick then Verdict(true, entered, 0)
    else
      var elapsed := Sub(now.tick, entered.tick);
      if elapsed < ticks then Verdict(false, now, ticks - elapsed) else Verdict(true, entered, 0)
  }

  /** The in-place form: the caller's timeout record and remaining ticks. */
  class TimeOutRecord {
    var overflowCount: nat
    var timeOnEntering: Tick
    var ticksToWait: Tick

    function Entered(): Instant
      reads this
    {
      Instant(overflowCount, timeOnEntering)
    }

    method SetTimeOutState(now: Instant)
      modifies this`overflowCount, this`timeOnEntering
      ensures Entered() == now
    {
      overflowCount, timeOnEntering := now.epoch, now.tick;
    }

    method Check(now: Instant) returns (timedOut: bool)
      modifies this
      ensures Verdict(timedOut, Entered(), ticksToWait)
           == old(CheckForTimeOut(Entered(), ticksToWait, now))
    {
      var elapsed := Sub(now.tick, timeOnEntering);
      if ticksToWait == MAX_DELAY {
        timedOut := false;
      } else if now.epoch != overflowCount && now.tick >= timeOnEntering {
        timedOut := true;
        ticksToWait := 0;
      } else if elapsed < ticksToWait {
        ticksToWait := ticksToWait - elapsed;
        SetTimeOutState(now);
        timedOut := false;
      } else {
        ticksToWait := 0;
        timedOut := true;
      }
    }
  }

  /** The answer is right exactly when the counter has not gone round twice and come back short of
      where the wait was entered with the wrapped difference still below the wait. */
  lemma CheckIsRight(entered: Instant, ticks: Tick, now: Instant)
    requires ticks != MAX_DELAY && entered.Time() <= now.Time()
    ensures (CheckForTimeOut(entered, ticks, now).timedOut <==> entered.Time() + ticks <= now.Time())
       <==> !(entered.epoch + 2 <= now.epoch && now.tick < entered.tick
              && Sub(now.tick, entered.tick) < ticks)
  {
    TurnsOrdered(entered.epoch, now.epoch);
    TurnsOrdered(now.epoch, entered.epoch);
  }

  /** Within one wrap of the entry the check is exact, and while the wait lasts the recorded instant
      plus the remaining ticks stays the same deadline. */
  lemma CheckWithinOneWrap(entered: Instant, ticks: Tick, now: Instant)
    requires ticks != MAX_DELAY && entered.Time() <= now.Time() && now.epoch <= entered.epoch + 1
    ensures var v := CheckForTimeOut(entered, ticks, now);
            && (v.timedOut <==> entered.Time() + ticks <= now.Time())
            && (!v.timedOut ==> v.entered == now && 0 < v.ticks < MAX_DELAY
                                && v.entered.Time() + v.ticks == entered.Time() + ticks)
  {
    CheckIsRight(entered, ticks, now);
    TurnsOrdered(now.epoch, entered.epoch);
  }

  /** An input the check gets wrong: entered at the last count of an epoch, asked two wraps later. */
  lemma CheckFooledByTwoWraps()
    ensures var entered, now := Instant(0, 0xFFFF_FFFF), Instant(2, 0);
            && !CheckForTimeOut(entered, 10, now).timedOut
            && entered.Time() + 10 < now.Time()
  {
  }

  /** Successive checks: each at or after the one before, and no more than one wrap later. */
  predicate Polling(from: Instant, times: seq<Instant>)
    decreases |times|
  {
    times == []
    || (from.Time() <= times[0].Time() && times[0].epoch <= from.epoch + 1 && Polling(times[0], times[1..]))
  }

  /** Which of the checks is the first to report a timeout; their number if none does. */
  function FirstTimeOut(entered: Instant, ticks: Tick, times: seq<Instant>): (k: nat)
    ensures k <= |times|
    decreases |times|
  {
    if times == [] then 0
    else
      var v := CheckForTimeOut(entered, ticks, times[0]);
      if v.timedOut then 0 else 1 + FirstTimeOut(v.entered, v.ticks, times[1..])
  }

  /** Repeated checks keep one fixed absolute deadline: the first to report a timeout is the first
      made at or after it. */
  lemma {:induction false} PollingKeepsDeadline(entered: Instant, ticks: Tick, times: seq<Instant>)
    requires ticks != MAX_DELAY && Polling(entered, times)
    ensures var k, deadline := FirstTimeOut(entered, ticks, times), entered.Time() + ticks;
            && (forall i :: 0 <= i < k ==> times[i].Time() < deadline)
            && (k < |times| ==> deadline <= times[k].Time())
    decreases |times|
  {
    if times != [] {
      CheckWithinOneWrap(entered, ticks, times[0]);
      var v := CheckForTimeOut(entered, ticks, times[0]);
      if !v.timedOut {
        PollingKeepsDeadline(v.entered, v.ticks, times[1..]);
        var k := FirstTimeOut(entered, ticks, times);
        forall i | 0 <= i < k ensures times[i].Time() < entered.Time() + ticks {
          assert i > 0 ==> times[i] == times[1..][i - 1];
        }
      }
    }
  }

  // ---------------------------------------------------------------- xTaskDelayUntil

  /** Is the wake time `previous + increment` still ahead of the counter? */
  predicate ShouldDelay(previous: Tick, increment: Tick, tick: Tick) {
    var wake := Add(previous, increment);
    if tick < previous then wake < previous && wake > tick
    else wake < previous || wake > tick
  }

  datatype Delayed = Delayed(delayed: bool, wake: Tick, after: Delay)

  function DelayUntil(d: Delay, task: nat, previous: Tick, increment: Tick): Delayed {
    var wake := Add(previous, increment);
    if ShouldDelay(previous, increment, d.tick)
    then Delayed(true, wake, Sleep(d, task, Sub(wake, d.tick)))
    else Delayed(false, wake, d)
  }

  /** The comparison of wrapped words is the comparison of absolute times, provided less than a full
      turn has passed since the previous wake time. */
  lemma DelayUntilExact(d: Delay, previous: Instant, increment: Tick)
    requires previous.Time() <= Now(d) < previous.Time() + W
    ensures ShouldDelay(previous.tick, increment, d.tick) <==> Now(d) < previous.Time() + increment
    ensures Now(d) < previous.Time() + increment ==>
              Sub(Add(previous.tick, increment), d.tick) == previous.Time() + increment - Now(d)
  {
    TurnsOrdered(previous.epoch, d.epoch);
    TurnsOrdered(d.epoch, previous.epoch);
  }

  /** A periodic task that delays sleeps until exactly one increment after its previous wake time;
      the block it asks for is never of zero ticks. */
  lemma DelayUntilSleeps(d: Delay, task: nat, previous: Instant, increment: Tick)
    requires Inv(d) && Awake(d, task)
    requires previous.Time() <= Now(d) < previous.Time() + W
    ensures var r := DelayUntil(d, task, previous.tick, increment);
            && (r.delayed <==> Now(d) < previous.Time() + increment)
            && (exists epoch: nat :: At(epoch, r.wake) == previous.Time() + increment)
            && Inv(r.after)
            && (if r.delayed then SleepsUntil(r.after, task, previous.Time() + increment)
                else r.after == d)
  {
    DelayUntilExact(d, previous, increment);
    var r := DelayUntil(d, task, previous.tick, increment);
    var epoch := previous.epoch + (if r.wake < previous.tick then 1 else 0);
    assert At(epoch, r.wake) == previous.Time() + increment;
    if r.delayed {
      var n := Sub(r.wake, d.tick);
      SleepRefines(d, task, n);
      SleepKeepsInv(d, task, n);
      InsertDueMembers(Waiting(d), Timed(task, Now(d) + n));
    }
  }

  // ---------------------------------------------------------------- furi_delay_until_tick

  datatype FuriStatus = FuriStatusOk | FuriStatusError | FuriStatusErrorParameter

  /** `tcnt` is the counter as read on entry; `d` the kernel when the delay is made, some ticks later
      perhaps.  A target half a turn ahead or more counts as already past. */
  function DelayUntilTick(tcnt: Tick, d: Delay, task: nat, target: Tick): (FuriStatus, Delay) {
    var delay := Sub(target, tcnt);
    if delay != 0 && delay < 0x8000_0000 then
      var r := DelayUntil(d, task, tcnt, delay);
      (if r.delayed then FuriStatusOk else FuriStatusError, r.after)
    else (FuriStatusErrorParameter, d)
  }

  /** The first instant from `from` on at which the counter shows `target`. */
  function Occurrence(from: Instant, target: Tick): Instant {
    Instant(if from.tick <= target then from.epoch else from.epoch + 1, target)
  }

  lemma OccurrenceIsFirst(from: Instant, target: Tick, epoch: nat)
    ensures from.Time() <= Occurrence(from, target).Time() < from.Time() + W
    ensures from.Time() <= At(epoch, target) ==> Occurrence(from, target).Time() <= At(epoch, target)
  {
    TurnsOrdered(from.epoch, epoch);
    TurnsOrdered(epoch, from.epoch);
  }

  /** A delay to a named tick either sleeps until that tick next shows on the counter, or reports
      why not: the tick came by before the delay was made, or it is not less than half a turn away. */
  lemma DelayUntilTickMeans(entry: Instant, d: Delay, task: nat, target: Tick)
    requires Inv(d) && Awake(d, task)
    requires entry.Time() <= Now(d) < entry.Time() + W
    ensures var (status, d') := DelayUntilTick(entry.tick, d, task, target);
            var due := Occurrence(entry, target).Time();
            && Inv(d')
            && (status == FuriStatusErrorParameter
                <==> due == entry.Time() || entry.Time() + 0x8000_0000 <= due)
            && (status == FuriStatusError
                <==> entry.Time() < due < entry.Time() + 0x8000_0000 && due <= Now(d))
            && (if status == FuriStatusOk then SleepsUntil(d', task, due) else d' == d)
  {
    var delay := Sub(target, entry.tick);
    assert Occurrence(entry, target).Time() == entry.Time() + delay;
    if delay != 0 && delay < 0x8000_0000 {
      DelayUntilSleeps(d, task, entry, delay);
    }
  }

  /** So a successful delay ends in the very tick that was named, the first time it shows. */
  lemma WakesOnNamedTick(entry: Instant, d: Delay, task: nat, target: Tick, steps: seq<Step>)
    requires Inv(d) && Awake(d, task) && Undisturbed(steps, task)
    requires entry.Time() <= Now(d) < entry.Time() + W
    requires DelayUntilTick(entry.tick, d, task, target).0 == FuriStatusOk
    ensures var d' := DelayUntilTick(entry.tick, d, task, target).1;
            var due := Occurrence(entry, target).Time();
            && WakeTimes(d', steps, task) == (if Now(Run(d', steps)) < due then [] else [due])
            && entry.Time() < due
            && forall epoch: nat :: entry.Time() <= At(epoch, target) ==> due <= At(epoch, target)
  {
    DelayUntilTickMeans(entry, d, task, target);
    var d' := DelayUntilTick(entry.tick, d, task, target).1;
    WokenAtDeadline(d', steps, task, Occurrence(entry, target).Time());
    forall epoch: nat | entry.Time() <= At(epoch, target)
      ensures Occurrence(entry, target).Time() <= At(epoch, target) {
      OccurrenceIsFirst(entry, target, epoch);
    }
  }
}
