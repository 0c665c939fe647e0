/** Whole runs of the timer daemon, one timer at a time: which expiries it has been called for, and
    which it is armed for next. */
module TimerRuns {
  import opened Ticks
  import opened Lists
  import opened Delays
  import opened Timers

  /** The times in `w` that belong to `t`. */
  function TimesOf(w: seq<Timed>, t: nat): seq<nat> {
    if w == [] then []
    else if w[0].owner == t then [w[0].due] + TimesOf(w[1..], t)
    else TimesOf(w[1..], t)
  }

  lemma {:induction false} TimesOfConcat(a: seq<Timed>, b: seq<Timed>, t: nat)
    ensures TimesOf(a + b, t) == TimesOf(a, t) + TimesOf(b, t)
  {
    if a == [] {
      assert a + b == b;
    } else {
      TimesOfConcat(a[1..], b, t);
      assert (a + b)[0] == a[0] && (a + b)[1..] == a[1..] + b;
    }
  }

  lemma {:induction false} TimesOfCalls(x: nat, times: seq<nat>, t: nat)
    ensures TimesOf(Calls(x, times), t) == if x == t then times else []
  {
    if times != [] {
      TimesOfCalls(x, times[1..], t);
      assert Calls(x, times)[1..] == Calls(x, times[1..]);
      assert times == [times[0]] + times[1..];
    }
  }

  lemma {:induction false} TimesOfInsert(w: seq<Timed>, x: Timed, t: nat)
    requires x.owner == t ==> TimesOf(w, t) == []
    ensures TimesOf(InsertDue(w, x), t) == if x.owner == t then [x.due] else TimesOf(w, t)
  {
    if w != [] && w[0].due <= x.due {
      TimesOfInsert(w[1..], x, t);
      assert InsertDue(w, x)[1..] == InsertDue(w[1..], x);
    } else {
      assert InsertDue(w, x)[1..] == w;
    }
  }

  lemma {:induction false} TimesOfWithout(w: seq<Timed>, x: nat, t: nat)
    ensures TimesOf(WithoutSleeper(w, x), t) == if x == t then [] else TimesOf(w, t)
  {
    if w != [] {
      TimesOfWithout(w[1..], x, t);
      var r := WithoutSleeper(w[1..], x);
      assert ([w[0]] + r)[1..] == r;
    }
  }

  lemma {:induction false} TimesOfMember(w: seq<Timed>, t: nat, x: Timed)
    requires x in w && x.owner == t
    ensures x.due in TimesOf(w, t)
  {
    if w[0] != x {
      assert w == [w[0]] + w[1..];
      TimesOfMember(w[1..], t, x);
    }
  }

  lemma {:induction false} TimesOfWithin(w: seq<Timed>, t: nat)
    ensures forall e :: e in TimesOf(w, t) ==> Timed(t, e) in w
  {
    if w != [] {
      TimesOfWithin(w[1..], t);
      assert w == [w[0]] + w[1..];
    }
  }

  /** What one expiry of timer `h` does to timer `t`. */
  lemma ExpireTimes(d: Daemon, h: nat, e: Instant, now: Instant, t: nat)
    requires Timers.Inv(d) && e.Time() <= now.Time() < e.Time() + W && d.epoch == now.epoch
    requires TimesOf(Armed(d), h) == []
    ensures var d' := Expire(d, h, e.tick, e.Time(), now.tick);
            && TimesOf(d'.log, t)
               == TimesOf(d.log, t) + (if h == t then DueCalls(d, t, e.Time(), now.Time()) else [])
            && TimesOf(Armed(d'), t)
               == if h == t then Rearmed(d, t, e.Time(), now.Time()) else TimesOf(Armed(d), t)
  {
    hide TimesOf, Armed, Expire, Calls, InsertDue, At;
    ExpireRefines(d, h, e, now);
    var calls := DueCalls(d, h, e.Time(), now.Time());
    var r := Rearmed(d, h, e.Time(), now.Time());
    TimesOfConcat(d.log, Calls(h, calls), t);
    TimesOfCalls(h, calls, t);
    if r != [] {
      TimesOfInsert(Armed(d), Timed(h, r[0]), t);
    }
  }

  // ---------------------------------------------------------------- what every step keeps

  /** The lists are in order and hold exactly the active timers, each once; but those in `loose`,
      which a command has just taken off, are on neither. */
  ghost predicate Good(d: Daemon, loose: set<nat>) {
    && Timers.Inv(d)
    && (forall t :: |TimesOf(Armed(d), t)| == if Listed(d, t, loose) then 1 else 0)
  }

  predicate Listed(d: Daemon, t: nat, loose: set<nat>) {
    t in d.timers && d.timers[t].active && t !in loose
  }

  function Head(d: Daemon): Instant
    requires d.cur != []
  {
    Instant(d.epoch, d.cur[0].value)
  }

  function Popped(d: Daemon): Daemon
    requires d.cur != []
  {
    d.(cur := d.cur[1..])
  }

  lemma PoppedTimes(d: Daemon, t: nat)
    requires d.cur != []
    ensures TimesOf(Armed(d), t)
         == (if d.cur[0].owner == t then [Head(d).Time()] else []) + TimesOf(Armed(Popped(d)), t)
  {
    var a, b := Dated(d.cur, d.epoch), Dated(d.ovf, d.epoch + 1);
    assert a == [Timed(d.cur[0].owner, Head(d).Time())] + Dated(d.cur[1..], d.epoch);
    assert (a + b)[1..] == Dated(d.cur[1..], d.epoch) + b;
    hide Dated;
  }

  lemma PoppedInv(d: Daemon)
    requires Timers.Inv(d) && d.cur != []
    ensures Timers.Inv(Popped(d))
  {
    if |d.cur| > 1 {
      assert Sorted(d.cur[1..]);
    }
  }

  /** The timer at the head of a good daemon is active, and on the lists only there. */
  lemma HeadIsAlone(d: Daemon, loose: set<nat>)
    requires Good(d, loose) && d.cur != []
    ensures var h := d.cur[0].owner;
            && Listed(d, h, loose)
            && TimesOf(Armed(d), h) == [Head(d).Time()] && TimesOf(Armed(Popped(d)), h) == []
  {
    hide Armed, TimesOf;
    var h := d.cur[0].owner;
    PoppedTimes(d, h);
    assert |TimesOf(Armed(d), h)| == if Listed(d, h, loose) then 1 else 0;
  }

  /** What processing the head does to timer `t`. */
  lemma ProcessTimes(d: Daemon, now: Instant, t: nat, loose: set<nat>)
    requires Good(d, loose) && d.cur != [] && d.epoch == now.epoch && d.cur[0].value <= now.tick
    ensures var d' := ProcessExpired(d, now.tick);
            var hit := d.cur[0].owner == t;
            && TimesOf(d'.log, t)
               == TimesOf(d.log, t) + (if hit then DueCalls(d, t, Head(d).Time(), now.Time()) else [])
            && TimesOf(Armed(d'), t)
               == if hit then Rearmed(d, t, Head(d).Time(), now.Time()) else TimesOf(Armed(d), t)
  {
    hide Armed, TimesOf, Good, Timers.Inv, Expire;
    GoodIsInv(d, loose);
    HeadIsAlone(d, loose);
    PoppedInv(d);
    PoppedTimes(d, t);
    ExpireTimes(Popped(d), d.cur[0].owner, Head(d), now, t);
  }

  lemma GoodIsInv(d: Daemon, loose: set<nat>)
    requires Good(d, loose)
    ensures Timers.Inv(d)
  {
  }

  lemma ProcessOthers(d: Daemon, now: Instant, loose: set<nat>)
    requires Good(d, loose) && d.cur != [] && d.epoch == now.epoch && d.cur[0].value <= now.tick
    ensures var d' := ProcessExpired(d, now.tick);
            var h := d.cur[0].owner;
            && Timers.Inv(d') && d'.epoch == d.epoch && d'.lastTime == d.lastTime
            && d'.timers == (if AutoReload(d, h) then d else SetActive(d, h, false)).timers
  {
    hide Armed, TimesOf, Good, Timers.Inv, Expire;
    GoodIsInv(d, loose);
    PoppedInv(d);
    ExpireRefines(Popped(d), d.cur[0].owner, Head(d), now);
  }

  lemma ProcessKeeps(d: Daemon, now: Instant, loose: set<nat>)
    requires Good(d, loose) && d.cur != [] && d.epoch == now.epoch && d.cur[0].value <= now.tick
    ensures Good(ProcessExpired(d, now.tick), loose)
  {
    var d' := ProcessExpired(d, now.tick);
    hide Armed, TimesOf, Timers.Inv, Expire, ProcessExpired, At;
    HeadIsAlone(d, loose);
    ProcessOthers(d, now, loose);
    forall t ensures |TimesOf(Armed(d'), t)| == if Listed(d', t, loose) then 1 else 0 {
      ProcessTimes(d, now, t, loose);
      assert |TimesOf(Armed(d), t)| == if Listed(d, t, loose) then 1 else 0;
    }
  }

  // ---------------------------------------------------------------- the exchange at a wrap

  /** A timer armed for `times`, at most one, is called for what is due by `limit`, and re-armed. */
  function CallsBy(d: Daemon, t: nat, times: seq<nat>, limit: nat): seq<nat> {
    if times == [] || limit < times[0] then [] else DueCalls(d, t, times[0], limit)
  }

  function ArmedAfter(d: Daemon, t: nat, times: seq<nat>, limit: nat): seq<nat> {
    if times == [] || limit < times[0] then times else Rearmed(d, t, times[0], limit)
  }

  /** Once caught up with `limit`, there is nothing more to do by then. */
  lemma NothingMore(d: Daemon, t: nat, e: nat, limit: nat)
    requires e <= limit
    ensures var r := Rearmed(d, t, e, limit);
            CallsBy(d, t, r, limit) == [] && ArmedAfter(d, t, r, limit) == r
  {
    ExpiriesAre(e, PeriodOf(d, t), limit);
  }

  function EpochEnd(d: Daemon): Instant {
    Instant(d.epoch, MAX_DELAY)
  }

  /** The same periods and modes. */
  ghost predicate SameControls(d: Daemon, d': Daemon) {
    forall t :: PeriodOf(d', t) == PeriodOf(d, t) && AutoReload(d', t) == AutoReload(d, t)
  }

  lemma SameControlsSameCalls(d: Daemon, d': Daemon, t: nat, times: seq<nat>, limit: nat)
    requires SameControls(d, d')
    ensures CallsBy(d', t, times, limit) == CallsBy(d, t, times, limit)
    ensures ArmedAfter(d', t, times, limit) == ArmedAfter(d, t, times, limit)
  {
    assert PeriodOf(d', t) == PeriodOf(d, t);
  }

  lemma ProcessKeepsControls(d: Daemon, now: Instant, loose: set<nat>)
    requires Good(d, loose) && d.cur != [] && d.epoch == now.epoch && d.cur[0].value <= now.tick
    ensures SameControls(d, ProcessExpired(d, now.tick))
  {
    hide Good, Timers.Inv, Expire, ProcessExpired;
    ProcessOthers(d, now, loose);
  }

  lemma NothingInOverflowDue(d: Daemon, t: nat)
    requires d.cur == []
    ensures var times := TimesOf(Armed(d), t); times == [] || EpochEnd(d).Time() < times[0]
  {
    hide TimesOf;
    DatedWithin(d.ovf, d.epoch + 1);
    assert Armed(d) == Dated(d.ovf, d.epoch + 1);
    TimesOfWithin(Armed(d), t);
    var times := TimesOf(Armed(d), t);
    assert times != [] ==> times[0] in times && Timed(t, times[0]) in Armed(d);
  }

  /** One step of the exchange, for timer `t`. */
  lemma DrainStep(d: Daemon, t: nat, loose: set<nat>)
    requires Good(d, loose) && d.cur != []
    ensures var d1 := ProcessExpired(d, MAX_DELAY);
            var times, limit := TimesOf(Armed(d), t), EpochEnd(d).Time();
            var times1 := TimesOf(Armed(d1), t);
            && TimesOf(d1.log, t) + CallsBy(d, t, times1, limit) == TimesOf(d.log, t) + CallsBy(d, t, times, limit)
            && ArmedAfter(d, t, times1, limit) == ArmedAfter(d, t, times, limit)
  {
    hide Good, Timers.Inv, Expire, ProcessExpired, TimesOf, Armed;
    ProcessTimes(d, EpochEnd(d), t, loose);
    if d.cur[0].owner == t {
      HeadIsAlone(d, loose);
      NothingMore(d, t, Head(d).Time(), EpochEnd(d).Time());
      hide CallsBy, ArmedAfter, DueCalls;
      DueNow(d, t);
    }
  }

  lemma DueNow(d: Daemon, t: nat)
    requires d.cur != []
    ensures var e, limit := Head(d).Time(), EpochEnd(d).Time();
            && CallsBy(d, t, [e], limit) == DueCalls(d, t, e, limit)
            && ArmedAfter(d, t, [e], limit) == Rearmed(d, t, e, limit)
  {
  }

  ghost predicate Drained(d: Daemon, d': Daemon, loose: set<nat>) {
    Good(d', loose) && d'.cur == [] && d'.epoch == d.epoch && d'.lastTime == d.lastTime && SameControls(d, d')
  }

  lemma {:induction false} DrainKeeps(d: Daemon, loose: set<nat>)
    requires Good(d, loose)
    ensures Drained(d, DrainCurrent(d), loose)
    decreases |d.cur|
  {
    if d.cur != [] {
      hide Good, ProcessExpired, SameControls;
      var d1 := ProcessExpired(d, MAX_DELAY);
      ProcessShrinks(d);
      ProcessKeeps(d, EpochEnd(d), loose);
      ProcessOthers(d, EpochEnd(d), loose);
      ProcessKeepsControls(d, EpochEnd(d), loose);
      DrainKeeps(d1, loose);
      SameControlsTransitive(d, d1, DrainCurrent(d1));
    }
  }

  lemma SameControlsTransitive(d: Daemon, d1: Daemon, d2: Daemon)
    requires SameControls(d, d1) && SameControls(d1, d2)
    ensures SameControls(d, d2)
  {
    forall t ensures PeriodOf(d2, t) == PeriodOf(d, t) && AutoReload(d2, t) == AutoReload(d, t) {
      assert PeriodOf(d1, t) == PeriodOf(d, t);
    }
  }

  lemma ProcessShrinks(d: Daemon)
    requires d.cur != []
    ensures |ProcessExpired(d, MAX_DELAY).cur| < |d.cur|
  {
    ExpireAtWrap(Popped(d), d.cur[0].owner, d.cur[0].value, At(d.epoch, d.cur[0].value));
    hide Expire;
  }

  /** The exchange calls each timer for exactly its expiries of the old epoch. */
  lemma {:induction false} DrainTimes(d: Daemon, t: nat, loose: set<nat>)
    requires Good(d, loose)
    ensures var d' := DrainCurrent(d);
            var times, limit := TimesOf(Armed(d), t), EpochEnd(d).Time();
            && TimesOf(d'.log, t) == TimesOf(d.log, t) + CallsBy(d, t, times, limit)
            && TimesOf(Armed(d'), t) == ArmedAfter(d, t, times, limit)
    decreases |d.cur|
  {
    hide Good, ProcessExpired, SameControls, TimesOf, Armed, DueCalls, Rearmed;
    if d.cur == [] {
      NothingInOverflowDue(d, t);
    } else {
      var d1 := ProcessExpired(d, MAX_DELAY);
      ProcessShrinks(d);
      ProcessKeeps(d, EpochEnd(d), loose);
      ProcessOthers(d, EpochEnd(d), loose);
      ProcessKeepsControls(d, EpochEnd(d), loose);
      hide CallsBy, ArmedAfter;
      DrainTimes(d1, t, loose);
      DrainStep(d, t, loose);
      SameControlsSameCalls(d, d1, t, TimesOf(Armed(d1), t), EpochEnd(d).Time());
    }
  }

  // ---------------------------------------------------------------- looking at the clock

  /** The daemon looks at the clock at least once per wrap while timers are armed. */
  predicate Timely(d: Daemon, now: Instant) {
    LastSample(d) <= now.Time() && (now.Time() < LastSample(d) + W || (d.cur == [] && d.ovf == []))
  }

  lemma EpochAfter(d: Daemon, now: Instant)
    requires Timely(d, now) && (d.cur != [] || d.ovf != [])
    ensures now.epoch == if Wrapped(d, now) then d.epoch + 1 else d.epoch
  {
    TurnsOrdered(d.epoch, now.epoch);
    TurnsOrdered(now.epoch, d.epoch);
  }

  lemma NothingArmed(d: Daemon)
    requires d.cur == [] && d.ovf == []
    ensures Armed(d) == [] && DrainCurrent(d) == d
  {
  }

  /** The exchange re-dates nothing: what was for the next epoch is now for this one. */
  lemma ExchangeArms(d: Daemon, tick: Tick)
    requires d.cur == []
    ensures Armed(d.(cur := d.ovf, ovf := [], epoch := d.epoch + 1, lastTime := tick)) == Armed(d)
  {
    assert Armed(d) == Dated(d.ovf, d.epoch + 1);
    assert Dated(d.ovf, d.epoch + 1) + [] == Dated(d.ovf, d.epoch + 1);
  }

  lemma SampleArms(d: Daemon, now: Instant, loose: set<nat>)
    requires Good(d, loose) && Timely(d, now)
    ensures var d1 := if Wrapped(d, now) then DrainCurrent(d) else d;
            && Armed(Sample(d, now)) == Armed(d1) && Sample(d, now).log == d1.log
            && Sample(d, now).timers == d1.timers && (Timers.Inv(d1) ==> Timers.Inv(Sample(d, now)))
  {
    hide Good, DrainCurrent;
    if d.cur == [] && d.ovf == [] {
      NothingArmed(d);
      NothingArmed(Sample(d, now));
    } else {
      EpochAfter(d, now);
      if Wrapped(d, now) {
        DrainKeeps(d, loose);
        hide Armed;
        ExchangeArms(DrainCurrent(d), now.tick);
      }
    }
  }

  lemma SampleKeeps(d: Daemon, now: Instant, loose: set<nat>)
    requires Good(d, loose) && Timely(d, now)
    ensures Good(Sample(d, now), loose) && SameControls(d, Sample(d, now))
  {
    hide Armed, DrainCurrent, TimesOf, Timers.Inv, Timely;
    SampleArms(d, now, loose);
    var d1 := if Wrapped(d, now) then DrainCurrent(d) else d;
    if Wrapped(d, now) {
      DrainKeeps(d, loose);
    }
    hide Sample;
    SameBooks(d1, Sample(d, now), loose);
  }

  /** What is armed, and of whom the timers are, is all that matters. */
  lemma SameBooks(d: Daemon, d': Daemon, loose: set<nat>)
    requires Good(d, loose) && Armed(d') == Armed(d) && d'.timers == d.timers && Timers.Inv(d')
    ensures Good(d', loose) && SameControls(d, d')
  {
    hide Armed, TimesOf;
    forall t ensures |TimesOf(Armed(d'), t)| == if Listed(d', t, loose) then 1 else 0 {
      assert |TimesOf(Armed(d), t)| == if Listed(d, t, loose) then 1 else 0;
    }
  }

  lemma SampleTimes(d: Daemon, now: Instant, t: nat, loose: set<nat>)
    requires Good(d, loose) && Timely(d, now)
    ensures var d' := Sample(d, now);
            var times, limit := TimesOf(Armed(d), t), EpochEnd(d).Time();
            if Wrapped(d, now) then
              && TimesOf(d'.log, t) == TimesOf(d.log, t) + CallsBy(d, t, times, limit)
              && TimesOf(Armed(d'), t) == ArmedAfter(d, t, times, limit)
            else d'.log == d.log && Armed(d') == Armed(d)
  {
    hide Armed, DrainCurrent, TimesOf, Good, CallsBy, ArmedAfter;
    SampleArms(d, now, loose);
    if Wrapped(d, now) {
      DrainTimes(d, t, loose);
    }
  }

  /** One round of the daemon, for timer `t`: by when it is caught up, if it is called at all. */
  lemma PollTimes(d: Daemon, now: Instant, t: nat)
    requires Good(d, {}) && Timely(d, now)
    ensures Good(Poll(d, now), {}) && SameControls(d, Poll(d, now))
    ensures Moves(d, Poll(d, now), t, now)
  {
    hide Armed, TimesOf, Good, CallsBy, ArmedAfter, Timely, SameControls, DueCalls, Rearmed;
    var d1 := Sample(d, now);
    SampleTimes(d, now, t, {});
    SampleKeeps(d, now, {});
    if Wrapped(d, now) {
      WrappedLater(d, now);
      assert Advances(d, d1, t, EpochEnd(d).Time());
    } else if d.cur != [] && d.cur[0].value <= now.tick {
      ProcessKeeps(d1, now, {});
      ProcessKeepsControls(d1, now, {});
      ProcessTimes(d1, now, t, {});
      hide ProcessExpired;
      SameControlsTransitive(d, d1, ProcessExpired(d1, now.tick));
      HeadIsAlone(d1, {});
      SameHead(d, now);
      DueAt(d1, t, Head(d1).Time(), now.Time());
      SameControlsSameCalls(d, d1, t, [Head(d1).Time()], now.Time());
      assert Stays(d, Poll(d, now), t) || Advances(d, Poll(d, now), t, now.Time());
    } else {
      assert Stays(d, d1, t);
    }
  }

  lemma WrappedLater(d: Daemon, now: Instant)
    requires Timely(d, now) && Wrapped(d, now)
    ensures EpochEnd(d).Time() <= now.Time()
  {
    TurnsOrdered(d.epoch, now.epoch);
    TurnsOrdered(now.epoch, d.epoch);
  }

  lemma SameHead(d: Daemon, now: Instant)
    requires Timely(d, now) && !Wrapped(d, now) && d.cur != []
    ensures Sample(d, now) == d.(lastTime := now.tick)
  {
    EpochAfter(d, now);
  }

  lemma DueAt(d: Daemon, t: nat, e: nat, now: nat)
    requires e <= now
    ensures CallsBy(d, t, [e], now) == DueCalls(d, t, e, now) && ArmedAfter(d, t, [e], now) == Rearmed(d, t, e, now)
  {
  }

  /** Nothing has happened to `t`. */
  predicate Stays(d: Daemon, d': Daemon, t: nat) {
    TimesOf(d'.log, t) == TimesOf(d.log, t) && TimesOf(Armed(d'), t) == TimesOf(Armed(d), t)
  }

  /** `t` has been caught up with `limit`. */
  predicate Advances(d: Daemon, d': Daemon, t: nat, limit: nat) {
    && TimesOf(d'.log, t) == TimesOf(d.log, t) + CallsBy(d, t, TimesOf(Armed(d), t), limit)
    && TimesOf(Armed(d'), t) == ArmedAfter(d, t, TimesOf(Armed(d), t), limit)
  }

  /** Nothing, or it has been caught up with some time up to now. */
  ghost predicate Moves(d: Daemon, d': Daemon, t: nat, now: Instant) {
    Stays(d, d', t) || exists limit: nat :: limit <= now.Time() && Advances(d, d', t, limit)
  }

  // ---------------------------------------------------------------- commands

  lemma UnlistTimes(d: Daemon, x: nat, t: nat)
    ensures TimesOf(Armed(Unlist(d, x)), t) == if x == t then [] else TimesOf(Armed(d), t)
  {
    DatedWithout(d.cur, d.epoch, x);
    DatedWithout(d.ovf, d.epoch + 1, x);
    WithoutSleeperConcat(Dated(d.cur, d.epoch), Dated(d.ovf, d.epoch + 1), x);
    TimesOfWithout(Armed(d), x, t);
    hide Dated, TimesOf, WithoutSleeper;
  }

  lemma UnlistKeeps(d: Daemon, x: nat)
    requires Good(d, {})
    ensures Good(Unlist(d, x), {x})
  {
    hide Armed, TimesOf;
    WithoutKeepsSorted(d.cur, x);
    WithoutKeepsSorted(d.ovf, x);
    forall t ensures |TimesOf(Armed(Unlist(d, x)), t)| == if Listed(Unlist(d, x), t, {x}) then 1 else 0 {
      UnlistTimes(d, x, t);
      assert |TimesOf(Armed(d), t)| == if Listed(d, t, {}) then 1 else 0;
    }
  }

  /** Changing the flags of a timer that is on no list. */
  lemma SetControlKeeps(d: Daemon, x: nat, c: TimerControl)
    requires Good(d, {x}) && x in d.timers
    ensures Good(d.(timers := d.timers[x := c]), {x})
    ensures !c.active ==> Good(d.(timers := d.timers[x := c]), {})
  {
    var d' := d.(timers := d.timers[x := c]);
    assert Armed(d') == Armed(d);
    hide Armed, TimesOf;
    forall t ensures |TimesOf(Armed(d'), t)| == if Listed(d', t, {x}) then 1 else 0 {
      assert |TimesOf(Armed(d), t)| == if Listed(d, t, {x}) then 1 else 0;
    }
    if !c.active {
      forall t ensures |TimesOf(Armed(d'), t)| == if Listed(d', t, {}) then 1 else 0 {
        assert |TimesOf(Armed(d'), t)| == if Listed(d', t, {x}) then 1 else 0;
      }
    }
  }

  /** Arming is filing one period after the command and then catching up with now. */
  lemma ArmTimes(d: Daemon, x: nat, command: Instant, now: Instant, t: nat)
    requires Timers.Inv(d) && d.epoch == now.epoch && command.Time() <= now.Time() < command.Time() + W
    requires TimesOf(Armed(d), x) == []
    ensures var d' := Arm(d, x, command, now);
            var first := [command.Time() + PeriodOf(d, x)];
            && TimesOf(d'.log, t)
               == TimesOf(d.log, t) + (if t == x then CallsBy(d, t, first, now.Time()) else [])
            && TimesOf(Armed(d'), t)
               == if t == x then ArmedAfter(d, t, first, now.Time()) else TimesOf(Armed(d), t)
  {
    hide Armed, TimesOf, Expire, DueCalls, Rearmed, InsertTimer, At, Timers.Inv;
    var p := PeriodOf(d, x);
    WordGap(command, now);
    ProcessedNow(d, x, now.tick, command.tick);
    if command.Time() + p <= now.Time() {
      NothingFiled(d, x, Add(command.tick, p), now.tick, command.tick);
      ExpireTimes(d, x, Later(command, p), now, t);
    } else {
      InsertRefines(d, x, command, now);
      TimesOfInsert(Armed(d), Timed(x, command.Time() + p), t);
    }
  }

  lemma NothingFiled(d: Daemon, t: nat, next: Tick, now: Tick, command: Tick)
    ensures var (d1, again) := InsertTimer(d, t, next, now, command);
            again ==> d1 == d
  {
  }

  lemma ArmOthers(d: Daemon, x: nat, command: Instant, now: Instant)
    requires Timers.Inv(d) && d.epoch == now.epoch && command.Time() <= now.Time() < command.Time() + W
    ensures var d' := Arm(d, x, command, now);
            var passed := command.Time() + PeriodOf(d, x) <= now.Time();
            && Timers.Inv(d')
            && d'.timers == (if passed && !AutoReload(d, x) then SetActive(d, x, false) else d).timers
  {
    hide Armed, Expire, InsertTimer, At, Timers.Inv;
    var p := PeriodOf(d, x);
    WordGap(command, now);
    ProcessedNow(d, x, now.tick, command.tick);
    if command.Time() + p <= now.Time() {
      NothingFiled(d, x, Add(command.tick, p), now.tick, command.tick);
      ExpireRefines(d, x, Later(command, p), now);
    } else {
      InsertRefines(d, x, command, now);
      InsertKeepsInv(d, x, Add(command.tick, p), now.tick, command.tick);
    }
  }

  lemma ArmKeeps(d: Daemon, x: nat, command: Instant, now: Instant)
    requires Good(d, {x}) && d.epoch == now.epoch && command.Time() <= now.Time() < command.Time() + W
    requires x in d.timers && d.timers[x].active
    ensures Good(Arm(d, x, command, now), {}) && SameControls(d, Arm(d, x, command, now))
  {
    var d' := Arm(d, x, command, now);
    hide Armed, TimesOf, Timers.Inv, Arm, At, DueCalls;
    ArmOthers(d, x, command, now);
    LooseIsUnlisted(d, x);
    forall t ensures |TimesOf(Armed(d'), t)| == if Listed(d', t, {}) then 1 else 0 {
      ArmTimes(d, x, command, now, t);
      assert |TimesOf(Armed(d), t)| == if Listed(d, t, {x}) then 1 else 0;
    }
  }

  lemma LooseIsUnlisted(d: Daemon, x: nat)
    requires Good(d, {x})
    ensures TimesOf(Armed(d), x) == []
  {
    assert |TimesOf(Armed(d), x)| == if Listed(d, x, {x}) then 1 else 0;
    hide TimesOf, Armed;
  }

  /** The daemon with the timer off its lists and its flags set, just after it looked at the clock. */
  function Prepared(d: Daemon, t: nat, c: TimerControl, now: Instant): Daemon {
    var d1 := Sample(Unlist(d, t), now);
    d1.(timers := d1.timers[t := c])
  }

  lemma PreparedKeeps(d: Daemon, x: nat, c: TimerControl, now: Instant)
    requires Good(d, {}) && Timely(Unlist(d, x), now) && x in d.timers
    ensures var d' := Prepared(d, x, c, now);
            && Good(d', {x}) && d'.epoch == now.epoch && d'.lastTime == now.tick
            && (!c.active ==> Good(d', {}))
            && (forall t :: t != x ==> PeriodOf(d', t) == PeriodOf(d, t) && AutoReload(d', t) == AutoReload(d, t))
  {
    hide Armed, TimesOf, Good, Timely, Timers.Inv, Unlist;
    UnlistKeeps(d, x);
    UnlistControls(d, x);
    SampleKeeps(Unlist(d, x), now, {x});
    TimersStay(Unlist(d, x), now, x, {x});
    SetControlKeeps(Sample(Unlist(d, x), now), x, c);
    forall t | t != x
      ensures PeriodOf(Prepared(d, x, c, now), t) == PeriodOf(d, t)
           && AutoReload(Prepared(d, x, c, now), t) == AutoReload(d, t) {
      assert PeriodOf(Sample(Unlist(d, x), now), t) == PeriodOf(Unlist(d, x), t);
    }
  }

  lemma UnlistControls(d: Daemon, x: nat)
    ensures Unlist(d, x).timers == d.timers && Unlist(d, x).log == d.log && Unlist(d, x).epoch == d.epoch
  {
  }

  /** No timer is forgotten. */
  lemma TimersStay(d: Daemon, now: Instant, x: nat, loose: set<nat>)
    requires Good(d, loose) && Timely(d, now) && x in d.timers
    ensures x in Sample(d, now).timers
  {
    hide Good, Timely, DrainCurrent;
    if Wrapped(d, now) {
      DrainKeepsTimers(d, x, loose);
    }
  }

  lemma {:induction false} DrainKeepsTimers(d: Daemon, x: nat, loose: set<nat>)
    requires Good(d, loose) && x in d.timers
    ensures x in DrainCurrent(d).timers
    ensures x in loose ==> DrainCurrent(d).timers[x] == d.timers[x]
    decreases |d.cur|
  {
    hide Good, ProcessExpired;
    if d.cur != [] {
      ProcessShrinks(d);
      ProcessOthers(d, EpochEnd(d), loose);
      ProcessKeeps(d, EpochEnd(d), loose);
      HeadIsAlone(d, loose);
      DrainKeepsTimers(ProcessExpired(d, MAX_DELAY), x, loose);
    }
  }

  /** What preparing timer `x` does to timer `t`. */
  lemma PreparedTimes(d: Daemon, x: nat, c: TimerControl, now: Instant, t: nat)
    requires Good(d, {}) && Timely(Unlist(d, x), now) && x in d.timers
    ensures var d' := Prepared(d, x, c, now);
            if t == x then TimesOf(d'.log, x) == TimesOf(d.log, x) && TimesOf(Armed(d'), x) == []
            else Moves(d, d', t, now)
  {
    hide Armed, TimesOf, Good, Timely, Timers.Inv, Unlist, CallsBy, ArmedAfter, Sample;
    var d0 := Unlist(d, x);
    var d1 := Sample(d0, now);
    UnlistKeeps(d, x);
    UnlistTimes(d, x, t);
    UnlistControls(d, x);
    SampleTimes(d0, now, t, {x});
    SameArmed(d1, Prepared(d, x, c, now));
    if Wrapped(d0, now) {
      NothingBy(d0, x, EpochEnd(d0).Time());
      WrappedLater(d0, now);
      if t != x {
        SameCalls(d, d0, t, TimesOf(Armed(d), t), EpochEnd(d0).Time());
        assert Advances(d, Prepared(d, x, c, now), t, EpochEnd(d0).Time());
      }
    }
  }

  lemma SameArmed(d: Daemon, d': Daemon)
    requires d' == d.(timers := d'.timers)
    ensures Armed(d') == Armed(d)
  {
  }

  lemma NothingBy(d: Daemon, t: nat, limit: nat)
    ensures CallsBy(d, t, [], limit) == [] && ArmedAfter(d, t, [], limit) == []
  {
  }

  lemma SameCalls(d: Daemon, d': Daemon, t: nat, times: seq<nat>, limit: nat)
    requires d'.timers == d.timers
    ensures CallsBy(d', t, times, limit) == CallsBy(d, t, times, limit)
    ensures ArmedAfter(d', t, times, limit) == ArmedAfter(d, t, times, limit)
  {
  }

  /** Starting a timer is arming it one period after the command and catching up with now. */
  lemma StartTimes(d: Daemon, x: nat, command: Instant, now: Instant, t: nat)
    requires Good(d, {}) && Timely(Unlist(d, x), now) && x in d.timers
    requires command.Time() <= now.Time() < command.Time() + W
    ensures var d' := Start(d, x, command, now);
            var first := [command.Time() + PeriodOf(d, x)];
            && Good(d', {}) && SameControls(d, d')
            && (if t != x then Moves(d, d', t, now) else
                && TimesOf(d'.log, x) == TimesOf(d.log, x) + CallsBy(d, x, first, now.Time())
                && TimesOf(Armed(d'), x) == ArmedAfter(d, x, first, now.Time()))
  {
    hide Armed, TimesOf, Good, Timely, Timers.Inv, Sample, CallsBy, ArmedAfter, Arm, At, Moves, SameControls;
    var c := d.timers[x].(active := true);
    var d1 := Prepared(d, x, c, now);
    StartIsPrepared(d, x, command, now);
    PreparedKeeps(d, x, c, now);
    PreparedTimes(d, x, c, now, t);
    GoodIsInv(d1, {x});
    LooseIsUnlisted(d1, x);
    ArmTimes(d1, x, command, now, t);
    ArmKeeps(d1, x, command, now);
    StartControls(d, d1, x, c);
    SameControlsSameCalls(d, d1, x, [command.Time() + PeriodOf(d, x)], now.Time());
    SameControlsTransitive(d, d1, Start(d, x, command, now));
    if t != x {
      MovesThenStays(d, d1, Start(d, x, command, now), t, now);
    }
  }

  lemma StartControls(d: Daemon, d1: Daemon, x: nat, c: TimerControl)
    requires x in d.timers && x in d1.timers && d1.timers[x] == c && c == d.timers[x].(active := true)
    requires forall t :: t != x ==> PeriodOf(d1, t) == PeriodOf(d, t) && AutoReload(d1, t) == AutoReload(d, t)
    ensures SameControls(d, d1)
  {
  }

  lemma StartIsPrepared(d: Daemon, x: nat, command: Instant, now: Instant)
    requires Good(d, {}) && Timely(Unlist(d, x), now) && x in d.timers
    ensures var c := d.timers[x].(active := true);
            Start(d, x, command, now) == Arm(Prepared(d, x, c, now), x, command, now)
  {
    ControlSurvives(d, x, now);
    hide Sample, Unlist, Good, Arm, Timely;
  }

  /** Looking at the clock leaves a timer that is on no list alone. */
  lemma ControlSurvives(d: Daemon, x: nat, now: Instant)
    requires Good(d, {}) && Timely(Unlist(d, x), now) && x in d.timers
    ensures x in Sample(Unlist(d, x), now).timers && Sample(Unlist(d, x), now).timers[x] == d.timers[x]
  {
    UnlistKeeps(d, x);
    UnlistControls(d, x);
    hide Good, Timely, DrainCurrent, Unlist;
    if Wrapped(Unlist(d, x), now) {
      DrainKeepsTimers(Unlist(d, x), x, {x});
    }
  }

  lemma MovesThenStays(d: Daemon, d1: Daemon, d2: Daemon, t: nat, now: Instant)
    requires Moves(d, d1, t, now) && Stays(d1, d2, t)
    ensures Moves(d, d2, t, now)
  {
    if !Stays(d, d1, t) {
      var limit: nat :| limit <= now.Time() && Advances(d, d1, t, limit);
      assert Advances(d, d2, t, limit);
    }
  }

  lemma StopTimes(d: Daemon, x: nat, now: Instant, t: nat)
    requires Good(d, {}) && Timely(Unlist(d, x), now) && x in d.timers
    ensures var d' := Stop(d, x, now);
            && Good(d', {}) && SameControls(d, d')
            && (if t != x then Moves(d, d', t, now)
                else TimesOf(d'.log, x) == TimesOf(d.log, x) && TimesOf(Armed(d'), x) == [])
  {
    hide Armed, TimesOf, Good, Timely, Sample, Moves;
    var c := d.timers[x].(active := false);
    ControlSurvives(d, x, now);
    PreparedKeeps(d, x, c, now);
    PreparedTimes(d, x, c, now, t);
    assert Stop(d, x, now) == Prepared(d, x, c, now);
    StopControls(d, Stop(d, x, now), x, c);
  }

  lemma StopControls(d: Daemon, d1: Daemon, x: nat, c: TimerControl)
    requires x in d.timers && x in d1.timers && d1.timers[x] == c && c == d.timers[x].(active := false)
    requires forall t :: t != x ==> PeriodOf(d1, t) == PeriodOf(d, t) && AutoReload(d1, t) == AutoReload(d, t)
    ensures SameControls(d, d1)
  {
  }

  /** A change of period takes effect from now, and is never found to have expired already. */
  lemma ChangeTimes(d: Daemon, x: nat, p: Period, now: Instant, t: nat)
    requires Good(d, {}) && Timely(Unlist(d, x), now) && x in d.timers
    ensures var d' := ChangePeriod(d, x, p, now);
            && Good(d', {})
            && (if t != x then Moves(d, d', t, now) && PeriodOf(d', t) == PeriodOf(d, t)
                               && AutoReload(d', t) == AutoReload(d, t)
                else TimesOf(d'.log, x) == TimesOf(d.log, x)
                     && TimesOf(Armed(d'), x) == [now.Time() + p] && PeriodOf(d', x) == p)
  {
    hide Armed, TimesOf, Good, Timely, Sample, Moves, At, InsertTimer;
    var c := d.timers[x].(active := true, period := p);
    var d1 := Prepared(d, x, c, now);
    ControlSurvives(d, x, now);
    PreparedKeeps(d, x, c, now);
    PreparedTimes(d, x, c, now, t);
    ChangeIsPrepared(d, x, p, now);
    InsertRefines(d1, x, now, now);
    hide ChangePeriod, Prepared;
    FiledKeeps(d1, x, now);
    FiledTimes(d1, x, now, t);
    if t != x {
      MovesThenStays(d, d1, ChangePeriod(d, x, p, now), t, now);
    }
  }

  lemma ChangeIsPrepared(d: Daemon, x: nat, p: Period, now: Instant)
    requires Good(d, {}) && Timely(Unlist(d, x), now) && x in d.timers
    ensures var c := d.timers[x].(active := true, period := p);
            ChangePeriod(d, x, p, now)
            == InsertTimer(Prepared(d, x, c, now), x, Add(now.tick, p), now.tick, now.tick).0
  {
    ControlSurvives(d, x, now);
    hide Sample, Unlist, Good, Timely, InsertTimer;
    var d1 := Sample(Unlist(d, x), now);
    var c0, c := d1.timers[x].(active := true), d1.timers[x].(active := true, period := p);
    assert d1.timers[x := c0][x := c] == d1.timers[x := c];
  }

  lemma FiledTimes(d: Daemon, x: nat, now: Instant, t: nat)
    requires Good(d, {x}) && d.epoch == now.epoch
    ensures var d' := InsertTimer(d, x, Add(now.tick, PeriodOf(d, x)), now.tick, now.tick).0;
            && d'.log == d.log
            && TimesOf(Armed(d'), t)
               == if t == x then [now.Time() + PeriodOf(d, x)] else TimesOf(Armed(d), t)
  {
    LooseIsUnlisted(d, x);
    InsertRefines(d, x, now, now);
    TimesOfInsert(Armed(d), Timed(x, now.Time() + PeriodOf(d, x)), t);
    hide Armed, TimesOf, Good, InsertTimer, At;
  }

  lemma FiledKeeps(d: Daemon, x: nat, now: Instant)
    requires Good(d, {x}) && d.epoch == now.epoch && x in d.timers && d.timers[x].active
    ensures Good(InsertTimer(d, x, Add(now.tick, PeriodOf(d, x)), now.tick, now.tick).0, {})
  {
    var d' := InsertTimer(d, x, Add(now.tick, PeriodOf(d, x)), now.tick, now.tick).0;
    InsertRefines(d, x, now, now);
    InsertKeepsInv(d, x, Add(now.tick, PeriodOf(d, x)), now.tick, now.tick);
    hide Armed, TimesOf, InsertTimer, At, Timers.Inv;
    forall t ensures |TimesOf(Armed(d'), t)| == if Listed(d', t, {}) then 1 else 0 {
      FiledTimes(d, x, now, t);
      assert |TimesOf(Armed(d), t)| == if Listed(d, t, {x}) then 1 else 0;
    }
  }

  // ---------------------------------------------------------------- whole runs

  datatype Event =
    | Polls(now: Instant)
    | Starts(t: nat, command: Instant, now: Instant)
    | Stops(t: nat, now: Instant)
    | Changes(t: nat, p: Period, now: Instant)
    | SetsReload(t: nat, reload: bool)

  /** Commands name existing timers and are processed within a turn of being sent, and the daemon
      samples the time at least once per wrap while timers are armed. */
  predicate Possible(d: Daemon, e: Event) {
    match e
    case Polls(now) => Timely(d, now)
    case Starts(t, command, now) =>
      t in d.timers && Timely(Unlist(d, t), now) && command.Time() <= now.Time() < command.Time() + W
    case Stops(t, now) => t in d.timers && Timely(Unlist(d, t), now)
    case Changes(t, _, now) => t in d.timers && Timely(Unlist(d, t), now)
    case SetsReload(t, _) => t in d.timers
  }

  function Apply(d: Daemon, e: Event): Daemon {
    match e
    case Polls(now) => Poll(d, now)
    case Starts(t, command, now) => Start(d, t, command, now)
    case Stops(t, now) => Stop(d, t, now)
    case Changes(t, p, now) => ChangePeriod(d, t, p, now)
    case SetsReload(t, reload) => SetReloadMode(d, t, reload)
  }

  predicate Concerns(e: Event, t: nat) {
    !e.Polls? && e.t == t
  }

  /** Everything the run does is possible and at times up to `end`, and no command concerns `t`. */
  predicate LeavesAlone(d: Daemon, es: seq<Event>, t: nat, end: nat)
    decreases |es|
  {
    es == [] ||
    (Possible(d, es[0]) && !Concerns(es[0], t) && (es[0].SetsReload? || es[0].now.Time() <= end)
     && LeavesAlone(Apply(d, es[0]), es[1..], t, end))
  }

  function Run(d: Daemon, es: seq<Event>): Daemon
    decreases |es|
  {
    if es == [] then d else Run(Apply(d, es[0]), es[1..])
  }

  lemma SetReloadKeeps(d: Daemon, x: nat, reload: bool)
    requires Good(d, {})
    ensures Good(SetReloadMode(d, x, reload), {})
    ensures Armed(SetReloadMode(d, x, reload)) == Armed(d)
  {
    var d' := SetReloadMode(d, x, reload);
    assert Armed(d') == Armed(d);
    hide Armed, TimesOf;
    forall t ensures |TimesOf(Armed(d'), t)| == if Listed(d', t, {}) then 1 else 0 {
      assert |TimesOf(Armed(d), t)| == if Listed(d, t, {}) then 1 else 0;
    }
  }

  /** Every event keeps the lists in order, and touches a timer it does not concern only by catching
      it up with a time up to now. */
  lemma EventKeeps(d: Daemon, e: Event, t: nat)
    requires Good(d, {}) && Possible(d, e)
    ensures var d' := Apply(d, e);
            && Good(d', {})
            && (!Concerns(e, t) ==>
                  && PeriodOf(d', t) == PeriodOf(d, t) && AutoReload(d', t) == AutoReload(d, t)
                  && (if e.SetsReload? then Stays(d, d', t) else Moves(d, d', t, e.now)))
  {
    hide Armed, TimesOf, Good, Timely, Poll, Start, Stop, ChangePeriod, Moves;
    match e
    case Polls(now) =>
      PollTimes(d, now, t);
    case Starts(x, command, now) =>
      StartTimes(d, x, command, now, t);
    case Stops(x, now) =>
      StopTimes(d, x, now, t);
    case Changes(x, p, now) =>
      ChangeTimes(d, x, p, now, t);
    case SetsReload(x, reload) =>
      SetReloadKeeps(d, x, reload);
  }

  /** `calls` are one period apart from `e` on, and `next` is the one after them. */
  predicate Continues(calls: seq<nat>, e: nat, p: nat, next: nat) {
    if calls == [] then next == e else calls[0] == e && Continues(calls[1..], e + p, p, next)
  }

  lemma {:induction false} ContinuesConcat(a: seq<nat>, b: seq<nat>, e: nat, mid: nat, p: nat, next: nat)
    requires Continues(a, e, p, mid) && Continues(b, mid, p, next)
    ensures Continues(a + b, e, p, next)
  {
    if a == [] {
      assert a + b == b;
    } else {
      ContinuesConcat(a[1..], b, e + p, mid, p, next);
      assert (a + b)[1..] == a[1..] + b;
    }
  }

  lemma {:induction false} ExpiriesContinue(e: nat, p: Period, now: nat)
    ensures Continues(Expiries(e, p, now), e, p, NextAfter(e, p, now))
    decreases now - e
  {
    if e + p <= now {
      ExpiriesContinue(e + p, p, now);
      assert Expiries(e, p, now)[1..] == Expiries(e + p, p, now);
    }
  }

  /** The calls a timer has had between two states. */
  function CallsSince(d: Daemon, d': Daemon, t: nat): seq<nat> {
    var a, b := TimesOf(d.log, t), TimesOf(d'.log, t);
    if |a| <= |b| then b[|a|..] else []
  }

  /** An auto-reload timer's record between two states: it was armed for `e`, and has since been
      called for successive expiries one period apart, none missed, none twice, none later than
      `end`; it is now armed for the one that follows them. */
  ghost predicate OnSchedule(d: Daemon, d': Daemon, t: nat, e: nat, end: nat) {
    var calls, armed := CallsSince(d, d', t), TimesOf(Armed(d'), t);
    && TimesOf(d'.log, t) == TimesOf(d.log, t) + calls
    && |armed| == 1 && Continues(calls, e, PeriodOf(d, t), armed[0])
    && (calls != [] ==> armed[0] <= end + PeriodOf(d, t))
  }

  lemma StaysOnSchedule(d: Daemon, d': Daemon, t: nat, e: nat, end: nat)
    requires Stays(d, d', t) && TimesOf(Armed(d), t) == [e]
    ensures OnSchedule(d, d', t, e, end)
  {
    hide Armed, TimesOf;
    assert CallsSince(d, d', t) == [];
  }

  lemma AdvancesOnSchedule(d: Daemon, d': Daemon, t: nat, e: nat, limit: nat, end: nat)
    requires Advances(d, d', t, limit) && AutoReload(d, t) && TimesOf(Armed(d), t) == [e] && limit <= end
    ensures OnSchedule(d, d', t, e, end)
  {
    hide Armed, TimesOf;
    assert CallsSince(d, d', t) == CallsBy(d, t, [e], limit);
    if e <= limit {
      ExpiriesContinue(e, PeriodOf(d, t), limit);
      ExpiriesAre(e, PeriodOf(d, t), limit);
    }
  }

  lemma MoveIsOnSchedule(d: Daemon, d': Daemon, t: nat, e: nat, now: Instant, end: nat)
    requires Moves(d, d', t, now) && AutoReload(d, t) && TimesOf(Armed(d), t) == [e] && now.Time() <= end
    ensures OnSchedule(d, d', t, e, end)
  {
    hide Armed, TimesOf, At, OnSchedule, Stays, Advances;
    if Stays(d, d', t) {
      StaysOnSchedule(d, d', t, e, end);
    } else {
      var limit: nat :| limit <= now.Time() && Advances(d, d', t, limit);
      AdvancesOnSchedule(d, d', t, e, limit, end);
    }
  }

  lemma ScheduleGoesOn(d: Daemon, d1: Daemon, d2: Daemon, t: nat, e: nat, end: nat)
    requires OnSchedule(d, d1, t, e, end) && PeriodOf(d1, t) == PeriodOf(d, t)
    requires OnSchedule(d1, d2, t, TimesOf(Armed(d1), t)[0], end)
    ensures OnSchedule(d, d2, t, e, end)
  {
    hide Armed, TimesOf, Continues;
    var a, b := CallsSince(d, d1, t), CallsSince(d1, d2, t);
    CallsAddUp(TimesOf(d.log, t), TimesOf(d1.log, t), TimesOf(d2.log, t), a, b);
    assert CallsSince(d, d2, t) == a + b;
    hide CallsSince;
    ContinuesConcat(a, b, e, TimesOf(Armed(d1), t)[0], PeriodOf(d, t), TimesOf(Armed(d2), t)[0]);
    ContinuesNone(TimesOf(Armed(d1), t)[0], PeriodOf(d, t), TimesOf(Armed(d2), t)[0]);
  }

  lemma CallsAddUp(x: seq<nat>, y: seq<nat>, z: seq<nat>, a: seq<nat>, b: seq<nat>)
    requires y == x + a && z == y + b
    ensures z == x + (a + b) && |x| <= |z| && z[|x|..] == a + b
  {
  }

  lemma ContinuesNone(e: nat, p: nat, next: nat)
    ensures Continues([], e, p, next) <==> next == e
  {
  }

  /** Over any run in which no command concerns it, an auto-reload timer is called for successive
      expiries one period apart, none missed, none twice, none before its time. */
  lemma {:induction false} RunOnSchedule(d: Daemon, es: seq<Event>, t: nat, e: nat, end: nat)
    requires Good(d, {}) && LeavesAlone(d, es, t, end) && AutoReload(d, t) && TimesOf(Armed(d), t) == [e]
    ensures OnSchedule(d, Run(d, es), t, e, end) && Good(Run(d, es), {})
    decreases |es|
  {
    hide Armed, TimesOf, At, Good, Possible, Apply, Moves, OnSchedule, Stays;
    if es == [] {
      StaysPut(d, t);
      StaysOnSchedule(d, d, t, e, end);
    } else {
      var d1 := Apply(d, es[0]);
      EventKeeps(d, es[0], t);
      if es[0].SetsReload? {
        StaysOnSchedule(d, d1, t, e, end);
      } else {
        MoveIsOnSchedule(d, d1, t, e, es[0].now, end);
      }
      ScheduleArms(d, d1, t, e, end);
      RunOnSchedule(d1, es[1..], t, TimesOf(Armed(d1), t)[0], end);
      ScheduleGoesOn(d, d1, Run(d1, es[1..]), t, e, end);
    }
  }

  lemma StaysPut(d: Daemon, t: nat)
    ensures Stays(d, d, t)
  {
  }

  lemma ScheduleArms(d: Daemon, d1: Daemon, t: nat, e: nat, end: nat)
    requires OnSchedule(d, d1, t, e, end)
    ensures |TimesOf(Armed(d1), t)| == 1 && TimesOf(Armed(d1), t) == [TimesOf(Armed(d1), t)[0]]
  {
    hide Armed, TimesOf, Continues;
  }

  // ---------------------------------------------------------------- one-shot timers

  /** A one-shot timer's record between two states, `times` being what it was armed for: nothing has
      happened, or it has been called for that one expiry, by `end`, and is armed no more. */
  ghost predicate OnceOnly(d: Daemon, d': Daemon, t: nat, times: seq<nat>, end: nat) {
    var calls, armed := CallsSince(d, d', t), TimesOf(Armed(d'), t);
    && TimesOf(d'.log, t) == TimesOf(d.log, t) + calls
    && ((calls == [] && armed == times)
        || (calls == times && armed == [] && (times != [] ==> times[0] <= end)))
  }

  lemma StaysOnce(d: Daemon, d': Daemon, t: nat, end: nat)
    requires Stays(d, d', t)
    ensures OnceOnly(d, d', t, TimesOf(Armed(d), t), end)
  {
    hide Armed, TimesOf;
    assert CallsSince(d, d', t) == [];
  }

  /** Catching up with a time up to `end`, whatever the timer was armed for in `d`. */
  lemma CaughtUpOnce(d: Daemon, d': Daemon, t: nat, times: seq<nat>, limit: nat, end: nat)
    requires !AutoReload(d, t) && |times| <= 1 && limit <= end
    requires TimesOf(d'.log, t) == TimesOf(d.log, t) + CallsBy(d, t, times, limit)
    requires TimesOf(Armed(d'), t) == ArmedAfter(d, t, times, limit)
    ensures OnceOnly(d, d', t, times, end)
  {
    hide Armed, TimesOf;
    assert CallsSince(d, d', t) == CallsBy(d, t, times, limit);
  }

  lemma MoveIsOnce(d: Daemon, d': Daemon, t: nat, now: Instant, end: nat)
    requires Moves(d, d', t, now) && !AutoReload(d, t) && |TimesOf(Armed(d), t)| <= 1 && now.Time() <= end
    ensures OnceOnly(d, d', t, TimesOf(Armed(d), t), end)
  {
    hide Armed, TimesOf, At, OnceOnly, Stays, CallsBy, ArmedAfter;
    if Stays(d, d', t) {
      StaysOnce(d, d', t, end);
    } else {
      var limit: nat :| limit <= now.Time() && Advances(d, d', t, limit);
      CaughtUpOnce(d, d', t, TimesOf(Armed(d), t), limit, end);
    }
  }

  lemma OnceGoesOn(d: Daemon, d1: Daemon, d2: Daemon, t: nat, times: seq<nat>, end: nat)
    requires OnceOnly(d, d1, t, times, end) && OnceOnly(d1, d2, t, TimesOf(Armed(d1), t), end)
    ensures OnceOnly(d, d2, t, times, end)
  {
    hide Armed, TimesOf;
    var a, b := CallsSince(d, d1, t), CallsSince(d1, d2, t);
    CallsAddUp(TimesOf(d.log, t), TimesOf(d1.log, t), TimesOf(d2.log, t), a, b);
    assert CallsSince(d, d2, t) == a + b;
    hide CallsSince;
  }

  /** Over any run in which no command concerns it, a one-shot timer is called once at most, for the
      expiry it is armed for and not after the end of the run; once called it is armed no more. */
  lemma {:induction false} RunOnce(d: Daemon, es: seq<Event>, t: nat, end: nat)
    requires Good(d, {}) && LeavesAlone(d, es, t, end) && !AutoReload(d, t)
    ensures OnceOnly(d, Run(d, es), t, TimesOf(Armed(d), t), end) && Good(Run(d, es), {})
    decreases |es|
  {
    hide Armed, TimesOf, At, Good, Possible, Apply, Moves, OnceOnly, Stays;
    if es == [] {
      StaysPut(d, t);
      StaysOnce(d, d, t, end);
    } else {
      var d1 := Apply(d, es[0]);
      EventKeeps(d, es[0], t);
      ArmedAtMostOnce(d, t);
      if es[0].SetsReload? {
        StaysOnce(d, d1, t, end);
      } else {
        MoveIsOnce(d, d1, t, es[0].now, end);
      }
      RunOnce(d1, es[1..], t, end);
      OnceGoesOn(d, d1, Run(d1, es[1..]), t, TimesOf(Armed(d), t), end);
    }
  }

  lemma ArmedAtMostOnce(d: Daemon, t: nat)
    requires Good(d, {})
    ensures |TimesOf(Armed(d), t)| <= 1
  {
    hide Armed, TimesOf;
    assert |TimesOf(Armed(d), t)| == if Listed(d, t, {}) then 1 else 0;
  }

  /** Before the first command no timer is active. */
  lemma StartsGood(d: Daemon)
    requires d.cur == [] && d.ovf == [] && forall t :: t in d.timers ==> !d.timers[t].active
    ensures Good(d, {})
  {
    assert Armed(d) == [];
  }

  // ---------------------------------------------------------------- a start processed late

  /** `k` periods after `c`. */
  function Periods(c: nat, p: nat, k: nat): nat {
    c + k * p
  }

  /** A start sent at `c` and processed at `n` calls an auto-reload timer once for every whole period
      that has gone by, and arms it for the first expiry after `n`. */
  lemma StartCatchesUp(d: Daemon, t: nat, command: Instant, now: Instant)
    requires Good(d, {}) && Timely(Unlist(d, t), now) && t in d.timers && d.timers[t].autoReload
    requires command.Time() <= now.Time() < command.Time() + W
    ensures var d' := Start(d, t, command, now);
            var c, n, p := command.Time(), now.Time(), d.timers[t].period;
            var calls := CallsSince(d, d', t);
            && TimesOf(d'.log, t) == TimesOf(d.log, t) + calls &&
            var next := Periods(c, p, |calls| + 1);
            && |calls| == (n - c) / p
            && Continues(calls, c + p, p, next)
            && TimesOf(Armed(d'), t) == [next] && n < next <= n + p
  {
    hide Armed, TimesOf, At, Good, Timely, Start, Unlist, CallsBy, ArmedAfter, Periods, Continues;
    StartTimes(d, t, command, now, t);
    CatchUpCount(d, t, command.Time(), now.Time());
    var calls := CallsBy(d, t, [command.Time() + d.timers[t].period], now.Time());
    assert CallsSince(d, Start(d, t, command, now), t) == calls;
  }

  lemma CatchUpCount(d: Daemon, t: nat, c: nat, n: nat)
    requires AutoReload(d, t) && c <= n
    ensures var p := PeriodOf(d, t);
            var calls, armed := CallsBy(d, t, [c + p], n), ArmedAfter(d, t, [c + p], n);
            var next := Periods(c, p, |calls| + 1);
            && |calls| == (n - c) / p && Continues(calls, c + p, p, next)
            && armed == [next] && n < next <= n + p
  {
    var p := PeriodOf(d, t);
    if c + p <= n {
      var k := |Expiries(c + p, p, n)|;
      ExpiriesAre(c + p, p, n);
      ExpiriesContinue(c + p, p, n);
      OneMorePeriod(n - c, p);
      MorePeriods(c, p, k);
      hide Expiries, NextAfter, Continues, Periods;
    } else {
      ShortOfAPeriod(n - c, p);
    }
  }

  lemma MorePeriods(c: nat, p: nat, k: nat)
    ensures c + p + k * p == Periods(c, p, k + 1)
  {
  }

  lemma ShortOfAPeriod(n: nat, p: nat)
    requires n < p
    ensures n / p == 0
  {
  }

  // ---------------------------------------------------------------- how long the daemon sleeps

  function NextExpireTime(d: Daemon): Tick {
    if d.cur == [] then 0 else d.cur[0].value
  }

  /** How long the daemon waits for a command when nothing has expired. */
  function BlockTime(d: Daemon, now: Instant): Tick {
    Sub(NextExpireTime(d), now.tick)
  }

  /** With timers in the current list the daemon sleeps until exactly the earliest expiry of all,
      and otherwise no longer than to the next wrap, which is before any. */
  lemma SleepsUntilEarliest(d: Daemon, now: Instant)
    requires Timers.Inv(d) && d.epoch == now.epoch && (d.cur != [] ==> now.tick < d.cur[0].value)
    ensures forall x :: x in Armed(d) ==> now.Time() < x.due && now.Time() + BlockTime(d, now) <= x.due
    ensures d.cur != [] ==> Armed(d)[0].due == now.Time() + BlockTime(d, now)
  {
    var a, b := Dated(d.cur, d.epoch), Dated(d.ovf, d.epoch + 1);
    DatedWithin(d.ovf, d.epoch + 1);
    DatedOrdered(d.cur, d.epoch);
    if d.cur != [] {
      OrderedHead(a);
      assert a[0] == Timed(d.cur[0].owner, Head(d).Time());
      assert Armed(d)[0] == a[0];
    }
    hide Dated;
    assert Armed(d) == a + b;
  }
}
