/** The timer daemon from its start on: what holds of every state it can reach, and the whole record of
    a timer from the command that starts it. */
module DaemonRuns {
  import opened Ticks
  import opened Delays
  import opened Timers
  import opened TimerRuns

  /** Before the first command no timer is active. */
  predicate NothingActive(d: Daemon) {
    d.cur == [] && d.ovf == [] && forall t :: t in d.timers ==> !d.timers[t].active
  }

  predicate PossibleRun(d: Daemon, es: seq<Event>)
    decreases |es|
  {
    es == [] || (TimerRuns.Possible(d, es[0]) && PossibleRun(TimerRuns.Apply(d, es[0]), es[1..]))
  }

  // ---------------------------------------------------------------- how far ahead timers are armed

  /** Timer `t` is armed for less than a turn after the daemon last looked at the clock. */
  ghost predicate Near(d: Daemon, t: nat) {
    AllBefore(TimesOf(Armed(d), t), LastSample(d) + W)
  }

  ghost predicate AllBefore(times: seq<nat>, limit: nat) {
    forall e :: e in times ==> e < limit
  }

  lemma ReloadIsNear(d: Daemon, t: nat, times: seq<nat>, limit: nat, now: nat)
    requires limit <= now && AllBefore(times, now + W)
    ensures AllBefore(ArmedAfter(d, t, times, limit), now + W)
  {
    if times != [] && times[0] <= limit {
      ExpiriesAre(times[0], PeriodOf(d, t), limit);
      hide Expiries, NextAfter;
    }
  }

  lemma MovedIsNear(d: Daemon, d': Daemon, t: nat, now: Instant)
    requires Near(d, t) && Moves(d, d', t, now) && LastSample(d) <= now.Time() == LastSample(d')
    ensures Near(d', t)
  {
    hide TimesOf, Armed, ArmedAfter, CallsBy, At;
    if !Stays(d, d', t) {
      var limit: nat :| limit <= now.Time() && Advances(d, d', t, limit);
      ReloadIsNear(d, t, TimesOf(Armed(d), t), limit, now.Time());
    }
  }

  // ---------------------------------------------------------------- the time of the last look

  lemma {:induction false} ReloadKeepsClock(d: Daemon, t: nat, expired: Tick, at: nat, now: Tick)
    ensures var d' := Reload(d, t, expired, at, now).0; d'.epoch == d.epoch && d'.lastTime == d.lastTime
    decreases Sub(now, expired)
  {
    var p := PeriodOf(d, t);
    ReloadStep(d, t, expired, at, now);
    InsertKeepsClock(d, t, Add(expired, p), now, expired);
    hide Reload, InsertTimer;
    if Sub(now, expired) >= p {
      ProcessedNow(d, t, now, expired);
      ReloadKeepsClock(Call(d, t, at), t, Add(expired, p), at + p, now);
    }
  }

  lemma InsertKeepsClock(d: Daemon, t: nat, next: Tick, now: Tick, command: Tick)
    ensures var d' := InsertTimer(d, t, next, now, command).0;
            d'.epoch == d.epoch && d'.lastTime == d.lastTime
  {
  }

  lemma ExpireKeepsClock(d: Daemon, t: nat, expired: Tick, at: nat, now: Tick)
    ensures var d' := Expire(d, t, expired, at, now); d'.epoch == d.epoch && d'.lastTime == d.lastTime
  {
    hide Reload;
    ReloadKeepsClock(d, t, expired, at, now);
  }

  lemma ArmKeepsClock(d: Daemon, t: nat, command: Instant, now: Instant)
    ensures var d' := Arm(d, t, command, now); d'.epoch == d.epoch && d'.lastTime == d.lastTime
  {
    hide InsertTimer, Expire, At;
    var next := Add(command.tick, PeriodOf(d, t));
    InsertKeepsClock(d, t, next, now.tick, command.tick);
    ExpireKeepsClock(InsertTimer(d, t, next, now.tick, command.tick).0, t, next,
                     command.Time() + PeriodOf(d, t), now.tick);
  }

  /** Every event but a change of mode looks at the clock. */
  lemma LooksAtClock(d: Daemon, e: Event)
    requires !e.SetsReload?
    ensures LastSample(TimerRuns.Apply(d, e)) == e.now.Time()
  {
    hide SwitchTimerLists, Expire, InsertTimer, Arm, Unlist;
    match e
    case Polls(now) =>
      if d.cur != [] {
        var d1 := Sample(d, now);
        if d1.cur != [] {
          ExpireKeepsClock(Popped(d1), d1.cur[0].owner, d1.cur[0].value, At(d1.epoch, d1.cur[0].value), now.tick);
        }
      }
    case Starts(t, command, now) =>
      ArmKeepsClock(SetActive(Sample(Unlist(d, t), now), t, true), t, command, now);
    case Stops(t, now) =>
    case Changes(t, p, now) =>
      InsertKeepsClock(SetPeriod(SetActive(Sample(Unlist(d, t), now), t, true), t, p), t, Add(now.tick, p),
                       now.tick, now.tick);
  }

  lemma TimeGoesOn(d: Daemon, e: Event)
    requires TimerRuns.Possible(d, e) && !e.SetsReload?
    ensures LastSample(d) <= e.now.Time()
  {
  }

  // ---------------------------------------------------------------- every reachable state

  lemma EventKeepsNear(d: Daemon, e: Event, t: nat)
    requires Good(d, {}) && TimerRuns.Possible(d, e) && Near(d, t)
    ensures Near(TimerRuns.Apply(d, e), t)
  {
    hide Good, Near, Moves, Stays, TimesOf, Armed, At, Timely, LastSample, ArmedAfter;
    if e.SetsReload? {
      SetReloadKeeps(d, e.t, e.reload);
      ModeKeepsNear(d, e.t, e.reload, t);
    } else {
      LooksAtClock(d, e);
      TimeGoesOn(d, e);
      if Concerns(e, t) {
        hide Start, Stop, ChangePeriod;
        ConcernedIsNear(d, e);
      } else {
        EventKeeps(d, e, t);
        hide TimerRuns.Apply;
        MovedIsNear(d, TimerRuns.Apply(d, e), t, e.now);
      }
    }
  }

  lemma ModeKeepsNear(d: Daemon, x: nat, reload: bool, t: nat)
    requires Near(d, t) && Armed(SetReloadMode(d, x, reload)) == Armed(d)
    ensures Near(SetReloadMode(d, x, reload), t)
  {
    hide Armed, TimesOf;
  }

  /** A timer a command names is armed for one period after now at most. */
  lemma ConcernedIsNear(d: Daemon, e: Event)
    requires Good(d, {}) && TimerRuns.Possible(d, e) && !e.Polls? && !e.SetsReload?
    requires LastSample(TimerRuns.Apply(d, e)) == e.now.Time()
    ensures Near(TimerRuns.Apply(d, e), e.t)
  {
    hide Good, TimesOf, Armed, At, Timely, LastSample, ArmedAfter, Start, Stop, ChangePeriod, Moves, CallsBy;
    match e
    case Starts(t, command, now) =>
      StartTimes(d, t, command, now, t);
      ReloadIsNear(d, t, [command.Time() + PeriodOf(d, t)], now.Time(), now.Time());
    case Stops(t, now) =>
      StopTimes(d, t, now, t);
    case Changes(t, p, now) =>
      ChangeTimes(d, t, p, now, t);
  }

  lemma NothingActiveIsGood(d: Daemon, t: nat)
    requires NothingActive(d)
    ensures Good(d, {}) && Near(d, t)
  {
    StartsGood(d);
    assert Armed(d) == [];
  }

  lemma {:induction false} RunKeeps(d: Daemon, es: seq<Event>, t: nat)
    requires Good(d, {}) && Near(d, t) && PossibleRun(d, es)
    ensures Good(TimerRuns.Run(d, es), {}) && Near(TimerRuns.Run(d, es), t)
    decreases |es|
  {
    hide Good, Near, TimerRuns.Possible, TimerRuns.Apply, Moves, Stays;
    if es != [] {
      EventKeeps(d, es[0], t);
      EventKeepsNear(d, es[0], t);
      RunKeeps(TimerRuns.Apply(d, es[0]), es[1..], t);
    }
  }

  /** In every reachable state, once the lists are in order: the first timer of the next epoch, if there
      is none of this one, shows that the last look at the clock was not at the very start of the epoch. */
  lemma OverflowMeansLater(d: Daemon)
    requires d.ovf != [] && Near(d, d.ovf[0].owner)
    ensures d.lastTime > 0
  {
    var x := Timed(d.ovf[0].owner, At(d.epoch + 1, d.ovf[0].value));
    assert Dated(d.ovf, d.epoch + 1)[0] == x;
    assert x in Armed(d);
    TimesOfMember(Armed(d), x.owner, x);
    hide TimesOf, Dated;
  }

  /** In every reachable state in which a timer is armed and none has expired, the daemon waits for at
      least one tick, and no longer than to the earliest expiry. */
  lemma WaitsAtLeastATick(d0: Daemon, es: seq<Event>, now: Instant)
    requires NothingActive(d0) && PossibleRun(d0, es)
    requires var d := TimerRuns.Run(d0, es);
             && TimerRuns.Possible(d, Polls(now)) && !Wrapped(d, now) && (d.cur != [] || d.ovf != [])
             && (d.cur == [] || now.tick < d.cur[0].value)
    ensures var d' := Poll(TimerRuns.Run(d0, es), now);
            && BlockTime(d', now) > 0
            && forall x :: x in Armed(d') ==> now.Time() + BlockTime(d', now) <= x.due
  {
    hide Good, Near, PossibleRun, TimerRuns.Run, NothingActive, Armed, At;
    var d := TimerRuns.Run(d0, es);
    var t := if d.ovf == [] then 0 else d.ovf[0].owner;
    NothingActiveIsGood(d0, t);
    RunKeeps(d0, es, t);
    EpochAfter(d, now);
    if d.cur == [] {
      OverflowMeansLater(d);
    }
    QuietPoll(d, now);
    GoodIsInv(d, {});
    hide Poll, Timers.Inv;
    InvOfLists(d, Poll(d, now));
    SleepsUntilEarliest(Poll(d, now), now);
  }

  lemma QuietPoll(d: Daemon, now: Instant)
    requires !Wrapped(d, now) && (d.cur == [] || now.tick < d.cur[0].value)
    ensures Poll(d, now) == d.(epoch := now.epoch, lastTime := now.tick)
  {
  }

  lemma InvOfLists(d: Daemon, d': Daemon)
    requires Timers.Inv(d) && d'.cur == d.cur && d'.ovf == d.ovf
    ensures Timers.Inv(d')
  {
  }

  // ---------------------------------------------------------------- from the start command on

  /** An auto-reload timer started by a command sent at `c`, in any reachable state, and left alone from
      then on up to `end`: it is called for `c + p`, `c + 2p`, ... in turn, none missed, none twice, none
      before its time, and is armed for the one that comes next. */
  lemma StartedOnSchedule(d0: Daemon, earlier: seq<Event>, t: nat, c: Instant, now: Instant, es: seq<Event>,
                          end: nat)
    requires NothingActive(d0) && PossibleRun(d0, earlier)
    requires var d := TimerRuns.Run(d0, earlier);
             && TimerRuns.Possible(d, Starts(t, c, now)) && d.timers[t].autoReload && now.Time() <= end
             && TimerRuns.LeavesAlone(TimerRuns.Apply(d, Starts(t, c, now)), es, t, end)
    ensures var d := TimerRuns.Run(d0, earlier);
            OnSchedule(d, TimerRuns.Run(Start(d, t, c, now), es), t, c.Time() + PeriodOf(d, t), end)
  {
    hide Good, Near, PossibleRun, NothingActive, TimerRuns.Run, TimerRuns.LeavesAlone, OnSchedule, Start;
    hide TimesOf, Armed, At, Continues, CallsSince, Timely;
    var d := TimerRuns.Run(d0, earlier);
    NothingActiveIsGood(d0, t);
    RunKeeps(d0, earlier, t);
    var d1 := Start(d, t, c, now);
    StartIsOnSchedule(d, t, c, now, end);
    RunOnSchedule(d1, es, t, TimesOf(Armed(d1), t)[0], end);
    ScheduleGoesOn(d, d1, TimerRuns.Run(d1, es), t, c.Time() + PeriodOf(d, t), end);
  }

  lemma StartIsOnSchedule(d: Daemon, t: nat, c: Instant, now: Instant, end: nat)
    requires Good(d, {}) && TimerRuns.Possible(d, Starts(t, c, now)) && d.timers[t].autoReload
    requires now.Time() <= end
    ensures var d1 := Start(d, t, c, now);
            && Good(d1, {}) && OnSchedule(d, d1, t, c.Time() + PeriodOf(d, t), end)
            && PeriodOf(d1, t) == PeriodOf(d, t) && AutoReload(d1, t)
            && TimesOf(Armed(d1), t) == [TimesOf(Armed(d1), t)[0]]
  {
    hide Good, Start, TimesOf, Armed, At, CallsBy, ArmedAfter, Moves, Continues, CallsSince, Timely, Periods;
    StartTimes(d, t, c, now, t);
    StartCatchesUp(d, t, c, now);
  }

  /** A one-shot timer started likewise: it is called once at most, for `c + p`, no later than `end`; and
      until then it is armed for that very time. */
  lemma StartedOnce(d0: Daemon, earlier: seq<Event>, t: nat, c: Instant, now: Instant, es: seq<Event>, end: nat)
    requires NothingActive(d0) && PossibleRun(d0, earlier)
    requires var d := TimerRuns.Run(d0, earlier);
             && TimerRuns.Possible(d, Starts(t, c, now)) && !d.timers[t].autoReload && now.Time() <= end
             && TimerRuns.LeavesAlone(TimerRuns.Apply(d, Starts(t, c, now)), es, t, end)
    ensures var d := TimerRuns.Run(d0, earlier);
            OnceOnly(d, TimerRuns.Run(Start(d, t, c, now), es), t, [c.Time() + PeriodOf(d, t)], end)
  {
    hide Good, Near, PossibleRun, NothingActive, TimerRuns.Run, TimerRuns.LeavesAlone, OnceOnly, Start, TimesOf;
    hide Armed, At, CallsSince, Timely, CallsBy, ArmedAfter, Moves;
    var d := TimerRuns.Run(d0, earlier);
    NothingActiveIsGood(d0, t);
    RunKeeps(d0, earlier, t);
    var d1 := Start(d, t, c, now);
    StartTimes(d, t, c, now, t);
    CaughtUpOnce(d, d1, t, [c.Time() + PeriodOf(d, t)], now.Time(), end);
    assert AutoReload(d1, t) == AutoReload(d, t);
    RunOnce(d1, es, t, end);
    OnceGoesOn(d, d1, TimerRuns.Run(d1, es), t, [c.Time() + PeriodOf(d, t)], end);
  }

  /** What a command leaves of a timer's settings: a start makes it active unless, being one-shot, it has
      already been called; a stop makes it inactive; a change sets the period; a change of mode the mode. */
  lemma CommandMeans(d: Daemon, t: nat, c: Instant, now: Instant, p: Period, reload: bool)
    requires Good(d, {}) && t in d.timers && Timely(Unlist(d, t), now)
    ensures c.Time() <= now.Time() < c.Time() + W ==>
              (Listed(Start(d, t, c, now), t, {}) <==> AutoReload(d, t) || now.Time() < c.Time() + PeriodOf(d, t))
    ensures !Listed(Stop(d, t, now), t, {})
    ensures Listed(ChangePeriod(d, t, p, now), t, {}) && PeriodOf(ChangePeriod(d, t, p, now), t) == p
    ensures AutoReload(SetReloadMode(d, t, reload), t) <==> reload
    ensures PeriodOf(SetReloadMode(d, t, reload), t) == PeriodOf(d, t)
  {
    hide Good, Timely, Start, Stop, ChangePeriod, TimesOf, Armed, At, CallsBy, Unlist;
    if c.Time() <= now.Time() < c.Time() + W {
      StartTimes(d, t, c, now, t);
      ListedMeans(Start(d, t, c, now), t);
    }
    StopTimes(d, t, now, t);
    ListedMeans(Stop(d, t, now), t);
    ChangeTimes(d, t, p, now, t);
    ListedMeans(ChangePeriod(d, t, p, now), t);
  }

  lemma ListedMeans(d: Daemon, t: nat)
    requires Good(d, {})
    ensures |TimesOf(Armed(d), t)| == if Listed(d, t, {}) then 1 else 0
  {
    hide TimesOf, Armed;
  }
}
