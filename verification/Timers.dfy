/** The software timers of timers.c against unbounded time.

    As with delays, expiry times are 32-bit words in a current and an overflow list.  The daemon may
    run late: an auto-reload timer whose period has gone by several times over is caught up in a
    loop, and what is left in the current list at a wrap is processed before the lists are
    exchanged.  The log records each callback with the absolute expiry time it is for. */
module Timers {
  import opened Ticks
  import opened Lists
  import opened Delays

  type Period = p: Tick | p > 0 witness 1

  datatype TimerControl = TimerControl(period: Period, autoReload: bool, active: bool)

  datatype Daemon = Daemon(
    cur: seq<Entry>,
    ovf: seq<Entry>,
    epoch: nat,
    lastTime: Tick,
    timers: map<nat, TimerControl>,
    log: seq<Timed>)

  function PeriodOf(d: Daemon, t: nat): Period {
    if t in d.timers then d.timers[t].period else 1
  }

  predicate AutoReload(d: Daemon, t: nat) {
    t in d.timers && d.timers[t].autoReload
  }

  function SetActive(d: Daemon, t: nat, active: bool): Daemon {
    if t in d.timers then d.(timers := d.timers[t := d.timers[t].(active := active)]) else d
  }

  function Call(d: Daemon, t: nat, expiry: nat): Daemon {
    d.(log := d.log + [Timed(t, expiry)])
  }

  /** When the daemon last looked at the clock. */
  function LastSample(d: Daemon): nat { At(d.epoch, d.lastTime) }

  /** The active timers and their absolute expiry times. */
  function Armed(d: Daemon): seq<Timed> {
    Dated(d.cur, d.epoch) + Dated(d.ovf, d.epoch + 1)
  }

  // ---------------------------------------------------------------- the daemon's operations

  /** File the timer to expire at `next`, one period after `command`; or, if that is already past,
      report that it must be processed now. */
  function InsertTimer(d: Daemon, t: nat, next: Tick, now: Tick, command: Tick): (Daemon, bool) {
    if next <= now then
      if Sub(now, command) >= PeriodOf(d, t) then (d, true)
      else (d.(ovf := InsertSorted(d.ovf, Entry(t, next))), false)
    else
      if now < command && next >= command then (d, true)
      else (d.(cur := InsertSorted(d.cur, Entry(t, next))), false)
  }

  /** Despite its four cases, the test is whether a whole period has gone by since the command. */
  lemma ProcessedNow(d: Daemon, t: nat, now: Tick, command: Tick)
    ensures InsertTimer(d, t, Add(command, PeriodOf(d, t)), now, command).1
       <==> Sub(now, command) >= PeriodOf(d, t)
  {
  }

  /** Call and re-file until the next expiry is still to come.  `at` is the absolute time of the
      expiry `expired`; the result tells the last expiry reached. */
  function Reload(d: Daemon, t: nat, expired: Tick, at: nat, now: Tick): (Daemon, nat)
    decreases Sub(now, expired)
  {
    var p := PeriodOf(d, t);
    var (d1, again) := InsertTimer(d, t, Add(expired, p), now, expired);
    ProcessedNow(d, t, now, expired);
    if again then Reload(Call(d1, t, at), t, Add(expired, p), at + p, now) else (d1, at)
  }

  /** The timer at the head of the current list has expired. */
  function ProcessExpired(d: Daemon, now: Tick): Daemon
    requires d.cur != []
  {
    Expire(d.(cur := d.cur[1..]), d.cur[0].owner, d.cur[0].value, At(d.epoch, d.cur[0].value), now)
  }

  /** An expiry of a timer that is on no list: file it again if it reloads, and call. */
  function Expire(d: Daemon, t: nat, expired: Tick, at: nat, now: Tick): Daemon {
    if AutoReload(d, t) then
      var (d1, last) := Reload(d, t, expired, at, now);
      Call(d1, t, last)
    else Call(SetActive(d, t, false), t, at)
  }

  /** Process everything left in the current list. */
  function DrainCurrent(d: Daemon): Daemon
    decreases |d.cur|
  {
    if d.cur == [] then d
    else
      ExpireAtWrap(d.(cur := d.cur[1..]), d.cur[0].owner, d.cur[0].value, At(d.epoch, d.cur[0].value));
      DrainCurrent(ProcessExpired(d, MAX_DELAY))
  }

  /** Reloads against the largest time only ever enter the overflow list. */
  lemma {:induction false} ReloadAtWrap(d: Daemon, t: nat, expired: Tick, at: nat)
    ensures Reload(d, t, expired, at, MAX_DELAY).0.cur == d.cur
    decreases Sub(MAX_DELAY, expired)
  {
    var p := PeriodOf(d, t);
    var (d1, again) := InsertTimer(d, t, Add(expired, p), MAX_DELAY, expired);
    ProcessedNow(d, t, MAX_DELAY, expired);
    if again {
      ReloadAtWrap(Call(d1, t, at), t, Add(expired, p), at + p);
    }
  }

  lemma ExpireAtWrap(d: Daemon, t: nat, expired: Tick, at: nat)
    ensures Expire(d, t, expired, at, MAX_DELAY).cur == d.cur
  {
    ReloadAtWrap(d, t, expired, at);
  }

  function SwitchTimerLists(d: Daemon): Daemon {
    var d1 := DrainCurrent(d);
    d1.(cur := d1.ovf, ovf := d1.cur)
  }

  /** Look at the clock; a count below the last one means that it has wrapped. */
  function Sample(d: Daemon, now: Instant): Daemon {
    (if now.tick < d.lastTime then SwitchTimerLists(d) else d).(epoch := now.epoch, lastTime := now.tick)
  }

  predicate Wrapped(d: Daemon, now: Instant) {
    now.tick < d.lastTime
  }

  /** One round of the daemon: process the first timer if it has expired. */
  function Poll(d: Daemon, now: Instant): Daemon {
    var d1 := Sample(d, now);
    if !Wrapped(d, now) && d.cur != [] && d.cur[0].value <= now.tick then ProcessExpired(d1, now.tick) else d1
  }

  function Unlist(d: Daemon, t: nat): Daemon {
    d.(cur := WithoutOwner(d.cur, t), ovf := WithoutOwner(d.ovf, t))
  }

  /** Arm the timer for one period after `command`, or process it if that is past. */
  function Arm(d: Daemon, t: nat, command: Instant, now: Instant): Daemon {
    var p := PeriodOf(d, t);
    var (d1, again) := InsertTimer(d, t, Add(command.tick, p), now.tick, command.tick);
    if again then Expire(d1, t, Add(command.tick, p), command.Time() + p, now.tick) else d1
  }

  /** Start or reset, by a command sent at `command` and processed at `now`. */
  function Start(d: Daemon, t: nat, command: Instant, now: Instant): Daemon {
    Arm(SetActive(Sample(Unlist(d, t), now), t, true), t, command, now)
  }

  function Stop(d: Daemon, t: nat, now: Instant): Daemon {
    SetActive(Sample(Unlist(d, t), now), t, false)
  }

  function SetPeriod(d: Daemon, t: nat, p: Period): Daemon {
    if t in d.timers then d.(timers := d.timers[t := d.timers[t].(period := p)]) else d
  }

  function ChangePeriod(d: Daemon, t: nat, p: Period, now: Instant): Daemon {
    var d1 := SetPeriod(SetActive(Sample(Unlist(d, t), now), t, true), t, p);
    InsertTimer(d1, t, Add(now.tick, p), now.tick, now.tick).0
  }

  function SetReloadMode(d: Daemon, t: nat, reload: bool): Daemon {
    if t in d.timers then d.(timers := d.timers[t := d.timers[t].(autoReload := reload)]) else d
  }

  // ---------------------------------------------------------------- what should happen

  /** The expiries at `at` and every period after it, up to `now`. */
  function Expiries(at: nat, p: Period, now: nat): seq<nat>
    decreases now - at
  {
    if at + p <= now then [at] + Expiries(at + p, p, now) else [at]
  }

  /** The first expiry after `now`. */
  function NextAfter(at: nat, p: Period, now: nat): nat
    decreases now - at
  {
    if at + p <= now then NextAfter(at + p, p, now) else at + p
  }

  /** In closed form: as many as whole periods have gone by, and the first that has not. */
  lemma {:induction false} ExpiriesAre(at: nat, p: Period, now: nat)
    requires at <= now
    ensures |Expiries(at, p, now)| == (now - at) / p + 1
    ensures NextAfter(at, p, now) == at + |Expiries(at, p, now)| * p
    ensures now < NextAfter(at, p, now) <= now + p
    decreases now - at
  {
    if at + p <= now {
      ExpiriesAre(at + p, p, now);
      OneMorePeriod(now - at, p);
      var k := |Expiries(at + p, p, now)|;
      assert at + p + k * p == at + (k + 1) * p;
    } else {
      assert (now - at) / p == 0;
    }
  }

  lemma OneMorePeriod(n: nat, p: nat)
    requires 0 < p <= n
    ensures n / p == (n - p) / p + 1
  {
    var q, r := (n - p) / p, (n - p) % p;
    assert n == (q + 1) * p + r;
    QuotientIs(n, p, q + 1, r);
  }

  lemma QuotientIs(n: nat, p: nat, q: nat, r: nat)
    requires p > 0 && r < p && n == q * p + r
    ensures n / p == q
  {
    MultiplesOrdered(n / p + 1, q, p);
    MultiplesOrdered(q + 1, n / p, p);
  }

  lemma MultiplesOrdered(a: int, b: int, p: nat)
    ensures a <= b ==> a * p <= b * p
  {
  }

  // ---------------------------------------------------------------- filing a timer

  predicate Inv(d: Daemon) {
    Sorted(d.cur) && Sorted(d.ovf)
  }

  function Later(e: Instant, p: Period): (r: Instant)
    ensures r.Time() == e.Time() + p && r.tick == Add(e.tick, p)
  {
    Instant(if e.tick + p < 0x1_0000_0000 then e.epoch else e.epoch + 1, Add(e.tick, p))
  }

  /** Within a turn, the difference of the words is the difference of the times. */
  lemma WordGap(e: Instant, now: Instant)
    requires e.Time() <= now.Time() < e.Time() + W
    ensures Sub(now.tick, e.tick) == now.Time() - e.Time()
  {
    TurnsOrdered(e.epoch, now.epoch);
    TurnsOrdered(now.epoch, e.epoch);
  }

  lemma FileThisEpoch(d: Daemon, t: nat, next: Instant)
    requires next.epoch == d.epoch
    ensures Armed(d.(cur := InsertSorted(d.cur, Entry(t, next.tick))))
         == InsertDue(Armed(d), Timed(t, next.Time()))
  {
    hide Dated, InsertDue, InsertSorted;
    var b := Dated(d.ovf, d.epoch + 1);
    DatedWithin(d.ovf, d.epoch + 1);
    assert b != [] ==> b[0] in b;
    InsertDated(d.cur, d.epoch, Entry(t, next.tick));
    InsertLeft(Dated(d.cur, d.epoch), b, Timed(t, next.Time()));
  }

  lemma FileNextEpoch(d: Daemon, t: nat, next: Instant)
    requires next.epoch == d.epoch + 1
    ensures Armed(d.(ovf := InsertSorted(d.ovf, Entry(t, next.tick))))
         == InsertDue(Armed(d), Timed(t, next.Time()))
  {
    DatedWithin(d.cur, d.epoch);
    InsertDated(d.ovf, d.epoch + 1, Entry(t, next.tick));
    InsertRight(Dated(d.cur, d.epoch), Dated(d.ovf, d.epoch + 1), Timed(t, next.Time()));
    hide Dated, InsertDue, InsertSorted;
  }

  /** The comparison of words finds the epoch of the next expiry. */
  lemma EpochOfNext(command: Instant, now: Instant, p: Period)
    requires command.Time() <= now.Time() < command.Time() + W && now.Time() < command.Time() + p
    ensures var next := Later(command, p);
            && next.epoch == (if next.tick <= now.tick then now.epoch + 1 else now.epoch)
            && (now.tick < next.tick ==> !(now.tick < command.tick && next.tick >= command.tick))
            && Sub(now.tick, command.tick) < p
  {
    WordGap(command, now);
    TurnsOrdered(command.epoch, now.epoch);
    TurnsOrdered(now.epoch, command.epoch);
  }

  /** A timer whose next expiry is still to come goes to the list of the epoch it falls in. */
  lemma InsertRefines(d: Daemon, t: nat, command: Instant, now: Instant)
    requires command.Time() <= now.Time() < command.Time() + W && d.epoch == now.epoch
    requires now.Time() < command.Time() + PeriodOf(d, t)
    ensures var (d', again) := InsertTimer(d, t, Add(command.tick, PeriodOf(d, t)), now.tick, command.tick);
            && !again && d' == d.(cur := d'.cur, ovf := d'.ovf)
            && Armed(d') == InsertDue(Armed(d), Timed(t, command.Time() + PeriodOf(d, t)))
  {
    hide Armed, InsertDue, InsertSorted;
    var next := Later(command, PeriodOf(d, t));
    EpochOfNext(command, now, PeriodOf(d, t));
    if next.tick <= now.tick {
      FileNextEpoch(d, t, next);
    } else {
      FileThisEpoch(d, t, next);
    }
  }

  lemma InsertKeepsInv(d: Daemon, t: nat, next: Tick, now: Tick, command: Tick)
    requires Inv(d)
    ensures Inv(InsertTimer(d, t, next, now, command).0)
  {
    InsertKeepsSorted(d.cur, Entry(t, next));
    InsertKeepsSorted(d.ovf, Entry(t, next));
  }

  // ---------------------------------------------------------------- catching up

  function Calls(t: nat, times: seq<nat>): seq<Timed> {
    if times == [] then [] else [Timed(t, times[0])] + Calls(t, times[1..])
  }

  /** The reload loop calls for exactly the expiries that have gone by, and leaves the timer filed
      for the first that has not. */
  lemma {:induction false} ReloadRefines(d: Daemon, t: nat, e: Instant, now: Instant)
    requires e.Time() <= now.Time() < e.Time() + W && d.epoch == now.epoch
    ensures var (d', last) := Reload(d, t, e.tick, e.Time(), now.tick);
            var p := PeriodOf(d, t);
            && d' == d.(cur := d'.cur, ovf := d'.ovf, log := d'.log)
            && d'.log + [Timed(t, last)] == d.log + Calls(t, Expiries(e.Time(), p, now.Time()))
            && Armed(d') == InsertDue(Armed(d), Timed(t, NextAfter(e.Time(), p, now.Time())))
    decreases now.Time() - e.Time()
  {
    hide Dated, InsertDue, Calls, InsertTimer, At;
    var p := PeriodOf(d, t);
    WordGap(e, now);
    ReloadStep(d, t, e.tick, e.Time(), now.tick);
    if e.Time() + p <= now.Time() {
      ReloadRefines(Call(d, t, e.Time()), t, Later(e, p), now);
      CallsAfterOne(d.log, t, e.Time(), Expiries(e.Time() + p, p, now.Time()));
    } else {
      InsertRefines(d, t, e, now);
      CallsOne(t, e.Time());
    }
  }

  lemma ReloadStep(d: Daemon, t: nat, expired: Tick, at: nat, now: Tick)
    ensures var p := PeriodOf(d, t);
            Reload(d, t, expired, at, now) ==
            if Sub(now, expired) >= p then Reload(Call(d, t, at), t, Add(expired, p), at + p, now)
            else (InsertTimer(d, t, Add(expired, p), now, expired).0, at)
  {
    ProcessedNow(d, t, now, expired);
  }

  lemma CallsOne(t: nat, e: nat)
    ensures Calls(t, [e]) == [Timed(t, e)]
  {
  }

  lemma CallsAfterOne(log: seq<Timed>, t: nat, e: nat, times: seq<nat>)
    ensures log + Calls(t, [e] + times) == log + [Timed(t, e)] + Calls(t, times)
  {
    assert ([e] + times)[1..] == times;
  }

  lemma {:induction false} ReloadKeepsInv(d: Daemon, t: nat, expired: Tick, at: nat, now: Tick)
    requires Inv(d)
    ensures Inv(Reload(d, t, expired, at, now).0)
    decreases Sub(now, expired)
  {
    var p := PeriodOf(d, t);
    InsertKeepsInv(d, t, Add(expired, p), now, expired);
    ProcessedNow(d, t, now, expired);
    if Sub(now, expired) >= p {
      ReloadKeepsInv(Call(d, t, at), t, Add(expired, p), at + p, now);
    }
  }

  // ---------------------------------------------------------------- one expiry

  /** The calls an expiry at `e` leads to when it is processed at `now`, and what is then armed. */
  function DueCalls(d: Daemon, t: nat, e: nat, now: nat): seq<nat> {
    if AutoReload(d, t) then Expiries(e, PeriodOf(d, t), now) else [e]
  }

  function Rearmed(d: Daemon, t: nat, e: nat, now: nat): seq<nat> {
    if AutoReload(d, t) then [NextAfter(e, PeriodOf(d, t), now)] else []
  }

  lemma ExpireRefines(d: Daemon, t: nat, e: Instant, now: Instant)
    requires Inv(d) && e.Time() <= now.Time() < e.Time() + W && d.epoch == now.epoch
    ensures var d' := Expire(d, t, e.tick, e.Time(), now.tick);
            var r := Rearmed(d, t, e.Time(), now.Time());
            && Inv(d')
            && d'.log == d.log + Calls(t, DueCalls(d, t, e.Time(), now.Time()))
            && Armed(d') == (if r == [] then Armed(d) else InsertDue(Armed(d), Timed(t, r[0])))
            && d'.epoch == d.epoch && d'.lastTime == d.lastTime
            && d'.timers == (if AutoReload(d, t) then d else SetActive(d, t, false)).timers
  {
    hide Dated, InsertDue, Reload, At, Sorted;
    if AutoReload(d, t) {
      ReloadRefines(d, t, e, now);
      ReloadKeepsInv(d, t, e.tick, e.Time(), now.tick);
    } else {
      CallsOne(t, e.Time());
    }
  }
}
