/** The timer daemon fires what is due.  A round with an expired timer at the head catches that timer up,
    and rounds that go on until the daemon blocks catch up every timer: then each has been called exactly
    for the expiries that have gone by. */
module TimerCatchUp {
  import opened Ticks
  import opened Delays
  import opened Timers
  import opened TimerRuns
  import opened DaemonRuns

  // ---------------------------------------------------------------- one round

  /** The round ends in the daemon waiting for a command. */
  predicate Blocks(d: Daemon, now: Instant) {
    !Wrapped(d, now) && (d.cur == [] || now.tick < d.cur[0].value)
  }

  /** A round that finds the first timer expired, and no wrap, catches that timer up with now; another
      timer it leaves alone. */
  lemma HeadCatchesUp(d: Daemon, now: Instant, t: nat)
    requires Good(d, {}) && Timely(d, now)
    requires !Wrapped(d, now) && d.cur != [] && d.cur[0].value <= now.tick
    ensures if t == d.cur[0].owner then Advances(d, Poll(d, now), t, now.Time()) else Stays(d, Poll(d, now), t)
  {
    hide Armed, TimesOf, CallsBy, ArmedAfter, Timely, SameControls, DueCalls, Rearmed, ProcessExpired;
    var d1 := Sample(d, now);
    SampleTimes(d, now, t, {});
    SampleKeeps(d, now, {});
    hide Good;
    SameHead(d, now);
    EpochAfter(d, now);
    ProcessTimes(d1, now, t, {});
    HeadIsAlone(d1, {});
    DueAt(d1, t, Head(d1).Time(), now.Time());
    SameControlsSameCalls(d, d1, t, [Head(d1).Time()], now.Time());
  }

  /** A round at a wrap catches every timer up with the end of the old epoch. */
  lemma WrapCatchesUp(d: Daemon, now: Instant, t: nat)
    requires Good(d, {}) && Timely(d, now) && Wrapped(d, now)
    ensures Advances(d, Poll(d, now), t, EpochEnd(d).Time()) && EpochEnd(d).Time() <= now.Time()
  {
    hide Armed, TimesOf, CallsBy, ArmedAfter, Timely, Good;
    SampleTimes(d, now, t, {});
    WrappedLater(d, now);
  }

  /** A daemon that blocks has nothing armed for now or earlier. */
  lemma BlocksOnlyWhenCaughtUp(d: Daemon, now: Instant)
    requires Good(d, {}) && Timely(d, now) && Blocks(d, now)
    ensures var d' := Poll(d, now);
            Armed(d') == Armed(d) && d'.log == d.log && forall x :: x in Armed(d') ==> now.Time() < x.due
  {
    hide Good, Armed, At;
    GoodIsInv(d, {});
    QuietPoll(d, now);
    InvOfLists(d, Poll(d, now));
    hide Poll, Timers.Inv;
    if d.cur == [] && d.ovf == [] {
      NothingArmed(d);
      NothingArmed(Poll(d, now));
    } else {
      EpochAfter(d, now);
      SameListsSameArmed(d, Poll(d, now));
      SleepsUntilEarliest(Poll(d, now), now);
    }
  }

  lemma SameListsSameArmed(d: Daemon, d': Daemon)
    requires d'.cur == d.cur && d'.ovf == d.ovf && d'.epoch == d.epoch
    ensures Armed(d') == Armed(d)
  {
  }

  // ---------------------------------------------------------------- rounds until it blocks

  /** How many timers at the head are due. */
  ghost function DueNow(d: Daemon, now: Instant): nat {
    |DueFirst(Armed(d), now.Time())|
  }

  lemma {:induction false} LaterIsNotDue(w: seq<Timed>, x: Timed, limit: nat)
    requires limit < x.due
    ensures DueFirst(InsertDue(w, x), limit) == DueFirst(w, limit)
  {
    if w != [] && w[0].due <= x.due {
      LaterIsNotDue(w[1..], x, limit);
      assert InsertDue(w, x)[1..] == InsertDue(w[1..], x);
    }
  }

  /** A round that does not block leaves fewer due, or has just dealt with a wrap. */
  lemma PollGoesOn(d: Daemon, now: Instant)
    requires Good(d, {}) && Timely(d, now)
    ensures var d' := Poll(d, now);
            && Good(d', {}) && Timely(d', now) && !Wrapped(d', now) && LastSample(d') == now.Time()
            && (!Wrapped(d, now) && !Blocks(d, now) ==> DueNow(d', now) < DueNow(d, now))
  {
    PollTimes(d, now, 0);
    LooksAtClock(d, Polls(now));
    PollSetsClock(d, now);
    if !Wrapped(d, now) && !Blocks(d, now) {
      hide Good, Poll, Timely;
      HeadDealtWith(d, now);
    }
    hide Good, Poll;
  }

  lemma PollSetsClock(d: Daemon, now: Instant)
    ensures Poll(d, now).lastTime == now.tick
  {
    hide SwitchTimerLists, Expire;
    var d1 := Sample(d, now);
    if d.cur != [] && d1.cur != [] {
      ExpireKeepsClock(Popped(d1), d1.cur[0].owner, d1.cur[0].value, At(d1.epoch, d1.cur[0].value), now.tick);
    }
  }

  lemma HeadDealtWith(d: Daemon, now: Instant)
    requires Good(d, {}) && Timely(d, now) && !Wrapped(d, now) && d.cur != [] && d.cur[0].value <= now.tick
    ensures DueNow(Poll(d, now), now) < DueNow(d, now)
  {
    hide Good, Expire, Armed, At, Timers.Inv, DueFirst;
    GoodIsInv(d, {});
    SameHead(d, now);
    EpochAfter(d, now);
    var d1 := d.(lastTime := now.tick);
    var h, rest := d.cur[0].owner, Popped(d1);
    assert Timers.Inv(rest) by { InvOfLists(d, d1); PoppedInv(d1); }
    WithinTurn(d1, now);
    ExpireRefines(rest, h, Head(d1), now);
    HeadArmed(d1);
    SameListsSameArmed(d, d1);
    HeadIsDue(d1, now);
    var r := Rearmed(rest, h, Head(d1).Time(), now.Time());
    if r != [] {
      RearmedLater(rest, h, Head(d1).Time(), now.Time());
      LaterIsNotDue(Armed(rest), Timed(h, r[0]), now.Time());
    }
  }

  lemma WithinTurn(d: Daemon, now: Instant)
    requires d.cur != [] && d.epoch == now.epoch && d.cur[0].value <= now.tick
    ensures Head(d).Time() <= now.Time() < Head(d).Time() + W
  {
  }

  lemma HeadArmed(d: Daemon)
    requires d.cur != []
    ensures Armed(d) == [Timed(d.cur[0].owner, Head(d).Time())] + Armed(Popped(d))
  {
    var a, b := Dated(d.cur, d.epoch), Dated(d.ovf, d.epoch + 1);
    assert a == [Timed(d.cur[0].owner, Head(d).Time())] + Dated(d.cur[1..], d.epoch);
    hide Dated;
  }

  lemma HeadIsDue(d: Daemon, now: Instant)
    requires d.cur != [] && Head(d).Time() <= now.Time()
    requires Armed(d) == [Timed(d.cur[0].owner, Head(d).Time())] + Armed(Popped(d))
    ensures DueFirst(Armed(d), now.Time())
         == [Timed(d.cur[0].owner, Head(d).Time())] + DueFirst(Armed(Popped(d)), now.Time())
  {
    hide Armed;
    assert Armed(d)[1..] == Armed(Popped(d));
  }

  lemma RearmedLater(d: Daemon, t: nat, e: nat, now: nat)
    requires e <= now
    ensures var r := Rearmed(d, t, e, now); r != [] ==> now < r[0]
  {
    ExpiriesAre(e, PeriodOf(d, t), now);
  }

  /** The daemon as it is when it next blocks, if the clock still shows `now`: the rounds come to an end
      because each leaves fewer timers due. */
  ghost function CaughtUp(d: Daemon, now: Instant): Daemon
    requires Good(d, {}) && Timely(d, now)
    decreases if Wrapped(d, now) then 1 else 0, DueNow(d, now)
  {
    PollGoesOn(d, now);
    if Blocks(d, now) then Poll(d, now) else CaughtUp(Poll(d, now), now)
  }

  // ---------------------------------------------------------------- catching up in several steps

  lemma {:induction false} ExpiriesFurther(e: nat, p: Period, a: nat, b: nat)
    requires e <= a <= b
    ensures var n := NextAfter(e, p, a);
            if n <= b then Expiries(e, p, b) == Expiries(e, p, a) + Expiries(n, p, b)
                           && NextAfter(e, p, b) == NextAfter(n, p, b)
            else Expiries(e, p, b) == Expiries(e, p, a) && NextAfter(e, p, b) == n
    decreases a - e
  {
    ExpiriesUnrolled(e, p, a);
    ExpiriesUnrolled(e, p, b);
    hide Expiries, NextAfter;
    if e + p <= a {
      ExpiriesFurther(e + p, p, a, b);
      var n := NextAfter(e, p, a);
      if n <= b {
        assert [e] + (Expiries(e + p, p, a) + Expiries(n, p, b)) == ([e] + Expiries(e + p, p, a)) + Expiries(n, p, b);
      }
    }
  }

  lemma ExpiriesUnrolled(e: nat, p: Period, now: nat)
    ensures Expiries(e, p, now) == if e + p <= now then [e] + Expiries(e + p, p, now) else [e]
    ensures NextAfter(e, p, now) == if e + p <= now then NextAfter(e + p, p, now) else e + p
  {
  }

  /** Catching up with one time and then with a later one is catching up with the later one. */
  lemma CatchUpTwice(d: Daemon, t: nat, times: seq<nat>, a: nat, b: nat)
    requires |times| <= 1 && a <= b
    ensures CallsBy(d, t, times, a) + CallsBy(d, t, ArmedAfter(d, t, times, a), b) == CallsBy(d, t, times, b)
    ensures ArmedAfter(d, t, ArmedAfter(d, t, times, a), b) == ArmedAfter(d, t, times, b)
  {
    if times != [] && times[0] <= a {
      ExpiriesFurther(times[0], PeriodOf(d, t), a, b);
    }
    hide Expiries, NextAfter;
  }

  lemma MovesThenAdvances(d: Daemon, d1: Daemon, d2: Daemon, t: nat, now: Instant)
    requires Good(d, {}) && Moves(d, d1, t, now) && SameControls(d, d1) && Advances(d1, d2, t, now.Time())
    ensures Advances(d, d2, t, now.Time())
  {
    hide Good, Armed, TimesOf, CallsBy, ArmedAfter, At, SameControls;
    ArmedAtMostOnce(d, t);
    SameControlsSameCalls(d, d1, t, TimesOf(Armed(d1), t), now.Time());
    if !Stays(d, d1, t) {
      var limit: nat :| limit <= now.Time() && Advances(d, d1, t, limit);
      CatchUpTwice(d, t, TimesOf(Armed(d), t), limit, now.Time());
    }
  }

  lemma NothingDueAdvances(d: Daemon, d': Daemon, t: nat, now: nat)
    requires d'.log == d.log && Armed(d') == Armed(d) && forall x :: x in Armed(d) ==> now < x.due
    ensures Advances(d, d', t, now)
  {
    hide Armed, TimesOf;
    TimesOfWithin(Armed(d), t);
    var times := TimesOf(Armed(d), t);
    assert times != [] ==> times[0] in times && Timed(t, times[0]) in Armed(d);
  }

  /** When the daemon blocks, every timer has been caught up with now, and none is armed for now or before. */
  lemma {:induction false} EveryTimerCaughtUp(d: Daemon, now: Instant, t: nat)
    requires Good(d, {}) && Timely(d, now)
    ensures var f := CaughtUp(d, now);
            && Good(f, {}) && SameControls(d, f) && Advances(d, f, t, now.Time())
            && (forall x :: x in Armed(f) ==> now.Time() < x.due)
    decreases if Wrapped(d, now) then 1 else 0, DueNow(d, now)
  {
    hide Good, Timely, Armed, TimesOf, Poll, Moves, Stays, Advances, Wrapped, DueNow, Blocks, At, SameControls;
    var d1 := Poll(d, now);
    PollTimes(d, now, t);
    PollGoesOn(d, now);
    if Blocks(d, now) {
      BlocksOnlyWhenCaughtUp(d, now);
      NothingDueAdvances(d, d1, t, now.Time());
    } else {
      StillToDo(d, now);
      EveryTimerCaughtUp(d1, now, t);
      MovesThenAdvances(d, d1, CaughtUp(d1, now), t, now);
      SameControlsTransitive(d, d1, CaughtUp(d1, now));
    }
  }

  lemma StillToDo(d: Daemon, now: Instant)
    requires Good(d, {}) && Timely(d, now) && !Blocks(d, now)
    ensures !Wrapped(Poll(d, now), now) && (Wrapped(d, now) || DueNow(Poll(d, now), now) < DueNow(d, now))
  {
    PollGoesOn(d, now);
    hide Good, Timely, Poll;
  }

  // ---------------------------------------------------------------- from the start command on

  lemma {:induction false} ContinuesCount(calls: seq<nat>, e: nat, p: nat, next: nat)
    requires Continues(calls, e, p, next)
    ensures next == e + |calls| * p
  {
    if calls != [] {
      ContinuesCount(calls[1..], e + p, p, next);
      assert e + p + (|calls| - 1) * p == e + |calls| * p;
    }
  }

  lemma {:induction false} RunKeepsControls(d: Daemon, es: seq<Event>, t: nat, end: nat)
    requires Good(d, {}) && TimerRuns.LeavesAlone(d, es, t, end)
    ensures PeriodOf(TimerRuns.Run(d, es), t) == PeriodOf(d, t)
    ensures AutoReload(TimerRuns.Run(d, es), t) == AutoReload(d, t)
    decreases |es|
  {
    hide Good, TimerRuns.Possible, TimerRuns.Apply, Moves, Stays;
    if es != [] {
      EventKeeps(d, es[0], t);
      RunKeepsControls(TimerRuns.Apply(d, es[0]), es[1..], t, end);
    }
  }

  /** The record of an auto-reload timer when the daemon has caught up with `now`. */
  ghost predicate CalledExactly(d: Daemon, f: Daemon, t: nat, c: nat, now: nat) {
    var calls, p := CallsSince(d, f, t), PeriodOf(d, t);
    var next := Periods(c, p, |calls| + 1);
    && c <= now && |calls| == (now - c) / p && TimesOf(f.log, t) == TimesOf(d.log, t) + calls
    && Continues(calls, c + p, p, next) && TimesOf(Armed(f), t) == [next] && now < next <= now + p
  }

  lemma CountedByNow(d: Daemon, f: Daemon, t: nat, c: nat, now: nat)
    requires OnSchedule(d, f, t, c + PeriodOf(d, t), now) && c <= now
    requires forall x :: x in Armed(f) ==> now < x.due
    ensures CalledExactly(d, f, t, c, now)
  {
    var calls, p := CallsSince(d, f, t), PeriodOf(d, t);
    var next := TimesOf(Armed(f), t)[0];
    hide Armed, TimesOf, CallsSince;
    TimesOfWithin(Armed(f), t);
    assert next in TimesOf(Armed(f), t) && Timed(t, next) in Armed(f);
    ContinuesCount(calls, c + p, p, next);
    hide Continues;
    assert next == Periods(c, p, |calls| + 1) by { MorePeriods(c, p, |calls|); }
    WholePeriods(now - c, p, |calls|, next - c);
  }

  lemma WholePeriods(n: nat, p: nat, k: nat, x: nat)
    requires p > 0 && x == p + k * p && x > n && (k > 0 ==> x <= n + p)
    ensures n / p == k && x <= n + p
  {
    if k == 0 {
      assert x == p;
    }
    QuotientIs(n, p, k, n - k * p);
  }

  /** An auto-reload timer started by a command sent at `c`, in any reachable state, and left alone: whenever
      the daemon has caught up with `now` the timer has been called exactly floor((now - c) / p) times, for
      c + p, c + 2p, ... in turn, and is armed for the first of them after `now`. */
  lemma StartedCalledExactly(d0: Daemon, earlier: seq<Event>, t: nat, c: Instant, heard: Instant, es: seq<Event>,
                             now: Instant)
    requires NothingActive(d0) && DaemonRuns.PossibleRun(d0, earlier)
    requires var d := TimerRuns.Run(d0, earlier);
             && TimerRuns.Possible(d, Starts(t, c, heard)) && d.timers[t].autoReload && heard.Time() <= now.Time()
             && TimerRuns.LeavesAlone(TimerRuns.Apply(d, Starts(t, c, heard)), es, t, now.Time())
             && Timely(TimerRuns.Run(Start(d, t, c, heard), es), now)
    ensures var d := TimerRuns.Run(d0, earlier);
            var d2 := TimerRuns.Run(Start(d, t, c, heard), es);
            Good(d2, {}) && CalledExactly(d, CaughtUp(d2, now), t, c.Time(), now.Time())
  {
    hide Good, Near, DaemonRuns.PossibleRun, NothingActive, TimerRuns.Run, OnSchedule, Start, TimesOf;
    hide TimerRuns.LeavesAlone;
    hide Armed, At, Continues, CallsSince, Timely, CaughtUp, CalledExactly, Advances;
    var d := TimerRuns.Run(d0, earlier);
    NothingActiveIsGood(d0, t);
    RunKeeps(d0, earlier, t);
    var d1 := Start(d, t, c, heard);
    var d2 := TimerRuns.Run(d1, es);
    StartIsOnSchedule(d, t, c, heard, now.Time());
    RunOnSchedule(d1, es, t, TimesOf(Armed(d1), t)[0], now.Time());
    RunKeepsControls(d1, es, t, now.Time());
    ScheduleGoesOn(d, d1, d2, t, c.Time() + PeriodOf(d, t), now.Time());
    EveryTimerCaughtUp(d2, now, t);
    var f := CaughtUp(d2, now);
    ScheduleArms(d, d2, t, c.Time() + PeriodOf(d, t), now.Time());
    AdvancesOnSchedule(d2, f, t, TimesOf(Armed(d2), t)[0], now.Time(), now.Time());
    ScheduleGoesOn(d, d2, f, t, c.Time() + PeriodOf(d, t), now.Time());
    CountedByNow(d, f, t, c.Time(), now.Time());
  }

  /** A one-shot timer likewise: once its time has come and the daemon has caught up, it has been called for
      it, exactly once, and is armed no more; before that it has not been called. */
  lemma StartedCalledOnce(d0: Daemon, earlier: seq<Event>, t: nat, c: Instant, heard: Instant, es: seq<Event>,
                          now: Instant)
    requires NothingActive(d0) && DaemonRuns.PossibleRun(d0, earlier)
    requires var d := TimerRuns.Run(d0, earlier);
             && TimerRuns.Possible(d, Starts(t, c, heard)) && !d.timers[t].autoReload && heard.Time() <= now.Time()
             && TimerRuns.LeavesAlone(TimerRuns.Apply(d, Starts(t, c, heard)), es, t, now.Time())
             && Timely(TimerRuns.Run(Start(d, t, c, heard), es), now)
    ensures var d := TimerRuns.Run(d0, earlier);
            var d2 := TimerRuns.Run(Start(d, t, c, heard), es);
            && Good(d2, {}) &&
            var f, e := CaughtUp(d2, now), c.Time() + PeriodOf(d, t);
            && CallsSince(d, f, t) == (if e <= now.Time() then [e] else [])
            && TimesOf(Armed(f), t) == (if e <= now.Time() then [] else [e])
  {
    hide Good, Near, DaemonRuns.PossibleRun, NothingActive, TimerRuns.Run, OnceOnly, Start, TimesOf;
    hide TimerRuns.LeavesAlone;
    hide Armed, At, CallsSince, Timely, CallsBy, ArmedAfter, Moves, CaughtUp, Advances;
    var d := TimerRuns.Run(d0, earlier);
    var e := c.Time() + PeriodOf(d, t);
    StartedOnce(d0, earlier, t, c, heard, es, now.Time());
    NothingActiveIsGood(d0, t);
    RunKeeps(d0, earlier, t);
    var d1 := Start(d, t, c, heard);
    var d2 := TimerRuns.Run(d1, es);
    StartTimes(d, t, c, heard, t);
    assert AutoReload(d1, t) == AutoReload(d, t);
    RunOnce(d1, es, t, now.Time());
    RunKeepsControls(d1, es, t, now.Time());
    EveryTimerCaughtUp(d2, now, t);
    var f := CaughtUp(d2, now);
    ArmedAtMostOnce(d2, t);
    AdvancesMeans(d2, f, t, now.Time());
    CaughtUpOnce(d2, f, t, TimesOf(Armed(d2), t), now.Time(), now.Time());
    OnceGoesOn(d, d2, f, t, [e], now.Time());
    OnceByNow(d, f, t, e, now.Time());
  }

  lemma AdvancesMeans(d: Daemon, d': Daemon, t: nat, limit: nat)
    requires Advances(d, d', t, limit)
    ensures TimesOf(d'.log, t) == TimesOf(d.log, t) + CallsBy(d, t, TimesOf(Armed(d), t), limit)
    ensures TimesOf(Armed(d'), t) == ArmedAfter(d, t, TimesOf(Armed(d), t), limit)
  {
  }

  lemma OnceByNow(d: Daemon, f: Daemon, t: nat, e: nat, now: nat)
    requires OnceOnly(d, f, t, [e], now) && forall x :: x in Armed(f) ==> now < x.due
    ensures CallsSince(d, f, t) == (if e <= now then [e] else [])
    ensures TimesOf(Armed(f), t) == (if e <= now then [] else [e])
  {
    hide Armed, TimesOf, CallsSince;
    TimesOfWithin(Armed(f), t);
    if TimesOf(Armed(f), t) == [e] {
      assert e in TimesOf(Armed(f), t) && Timed(t, e) in Armed(f);
    }
  }
}
