/** The timer daemon in the form timers.c has it: two lists and the last sample updated in place, a
    loop that catches a timer up, a loop that empties the current list at a wrap and a loop over the
    commands received.  Each method is proved against the operation on daemon states. */
module TimerTask {
  import opened Ticks
  import opened Lists
  import opened Delays
  import opened Timers
  import opened TimerRuns

  datatype Command = StartOrReset(sent: Instant) | StopIt | ChangeIt(p: Period) | Delete

  /** A command for timer `t` and the time at which the daemon comes to process it. */
  datatype Message = Message(t: nat, command: Command, now: Instant)

  /** What a command does; a timer that is deleted is never heard of again. */
  function Process(d: Daemon, m: Message): Daemon {
    match m.command
    case StartOrReset(sent) => Start(d, m.t, sent, m.now)
    case StopIt => Stop(d, m.t, m.now)
    case ChangeIt(p) => ChangePeriod(d, m.t, p, m.now)
    case Delete => Stop(d, m.t, m.now)
  }

  function ProcessAll(d: Daemon, ms: seq<Message>): Daemon
  {
    if ms == [] then d else Process(ProcessAll(d, ms[..|ms| - 1]), ms[|ms| - 1])
  }

  lemma ProcessOneMore(d: Daemon, ms: seq<Message>, k: nat)
    requires k < |ms|
    ensures ProcessAll(d, ms[..k + 1]) == Process(ProcessAll(d, ms[..k]), ms[k])
  {
    assert ms[..k + 1][..k] == ms[..k];
  }

  /** The event of a daemon's run that a command is. */
  function EventOf(m: Message): Event {
    match m.command
    case StartOrReset(sent) => Starts(m.t, sent, m.now)
    case StopIt => Stops(m.t, m.now)
    case ChangeIt(p) => Changes(m.t, p, m.now)
    case Delete => Stops(m.t, m.now)
  }

  function Events(ms: seq<Message>): seq<Event> {
    if ms == [] then [] else [EventOf(ms[0])] + Events(ms[1..])
  }

  lemma {:induction false} RunOneMore(d: Daemon, ms: seq<Message>, m: Message)
    ensures TimerRuns.Run(d, Events(ms + [m])) == TimerRuns.Apply(TimerRuns.Run(d, Events(ms)), EventOf(m))
    decreases |ms|
  {
    hide TimerRuns.Apply, EventOf;
    if ms == [] {
      assert [] + [m] == [m] && [m][1..] == [] && [EventOf(m)][1..] == [];
    } else {
      var e, rest := EventOf(ms[0]), Events(ms[1..] + [m]);
      assert (ms + [m])[1..] == ms[1..] + [m];
      assert ([e] + rest)[1..] == rest && ([e] + Events(ms[1..]))[1..] == Events(ms[1..]);
      RunOneMore(TimerRuns.Apply(d, e), ms[1..], m);
    }
  }

  /** Working off the commands received is a run of the daemon, so what is proved of runs holds of it. */
  lemma {:induction false} CommandsAreRun(d: Daemon, ms: seq<Message>)
    ensures ProcessAll(d, ms) == TimerRuns.Run(d, Events(ms))
  {
    hide Process, TimerRuns.Apply, EventOf;
    if ms != [] {
      var k := |ms| - 1;
      CommandsAreRun(d, ms[..k]);
      RunOneMore(d, ms[..k], ms[k]);
      CommandIsEvent(ProcessAll(d, ms[..k]), ms[k]);
      hide Events, TimerRuns.Run;
      assert ms == ms[..k] + [ms[k]];
    }
  }

  lemma CommandIsEvent(d: Daemon, m: Message)
    ensures Process(d, m) == TimerRuns.Apply(d, EventOf(m))
  {
    hide Start, Stop, ChangePeriod;
  }

  class TimerTask {
    var currentTimerList: seq<Entry>
    var overflowTimerList: seq<Entry>
    var lastTime: Tick
    var timers: map<nat, TimerControl>
    /** The number of wraps so far, and the callbacks made with the expiries they are for. */
    ghost var epoch: nat
    ghost var log: seq<Timed>

    ghost function View(): Daemon
      reads this
    {
      Daemon(currentTimerList, overflowTimerList, epoch, lastTime, timers, log)
    }

    /** Stands for the timer's callback function, which may only send commands. */
    ghost method Callback(t: nat, expiry: nat)
      modifies this`log
      ensures View() == Call(old(View()), t, expiry)
    {
      log := log + [Timed(t, expiry)];
    }

    function PeriodOfTimer(t: nat): Period
      reads this`timers
    {
      if t in timers then timers[t].period else 1
    }

    method SetStatusActive(t: nat, active: bool)
      modifies this`timers
      ensures View() == SetActive(old(View()), t, active)
    {
      if t in timers {
        timers := timers[t := timers[t].(active := active)];
      }
    }

    method InsertTimerInActiveList(t: nat, nextExpiryTime: Tick, timeNow: Tick, commandTime: Tick)
      returns (processNow: bool)
      modifies this`currentTimerList, this`overflowTimerList
      ensures (View(), processNow) == InsertTimer(old(View()), t, nextExpiryTime, timeNow, commandTime)
    {
      processNow := false;
      if nextExpiryTime <= timeNow {
        if Sub(timeNow, commandTime) >= PeriodOfTimer(t) {
          processNow := true;
        } else {
          overflowTimerList := InsertSorted(overflowTimerList, Entry(t, nextExpiryTime));
        }
      } else {
        if timeNow < commandTime && nextExpiryTime >= commandTime {
          processNow := true;
        } else {
          currentTimerList := InsertSorted(currentTimerList, Entry(t, nextExpiryTime));
        }
      }
    }

    method ReloadTimer(t: nat, firstExpired: Tick, timeNow: Tick, ghost firstAt: nat)
      returns (ghost last: nat)
      modifies this`currentTimerList, this`overflowTimerList, this`log
      ensures (View(), last) == Reload(old(View()), t, firstExpired, firstAt, timeNow)
    {
      hide Reload, InsertTimer, Call;
      var expired := firstExpired;
      last := firstAt;
      ReloadUnrolled(View(), t, expired, last, timeNow);
      var again := InsertTimerInActiveList(t, Add(expired, PeriodOfTimer(t)), timeNow, expired);
      ghost var d := old(View());
      while again
        invariant timers == old(timers)
        invariant InsertTimer(d, t, Add(expired, PeriodOfTimer(t)), timeNow, expired) == (View(), again)
        invariant Reload(d, t, expired, last, timeNow) == Reload(old(View()), t, firstExpired, firstAt, timeNow)
        invariant d.timers == timers
        decreases Sub(timeNow, expired)
      {
        ReloadUnrolled(d, t, expired, last, timeNow);
        expired := Add(expired, PeriodOfTimer(t));
        Callback(t, last);
        last := last + PeriodOfTimer(t);
        d := View();
        again := InsertTimerInActiveList(t, Add(expired, PeriodOfTimer(t)), timeNow, expired);
      }
      ReloadUnrolled(d, t, expired, last, timeNow);
    }

    /** The part of processing an expiry that follows the removal from the list. */
    method ExpireTimer(t: nat, expired: Tick, timeNow: Tick, ghost at: nat)
      modifies this
      ensures View() == Expire(old(View()), t, expired, at, timeNow)
    {
      hide Reload;
      if t in timers && timers[t].autoReload {
        ghost var last := ReloadTimer(t, expired, timeNow, at);
        Callback(t, last);
      } else {
        SetStatusActive(t, false);
        Callback(t, at);
      }
    }

    method ProcessExpiredTimer(nextExpireTime: Tick, timeNow: Tick)
      requires currentTimerList != [] && nextExpireTime == currentTimerList[0].value
      modifies this
      ensures View() == ProcessExpired(old(View()), timeNow)
    {
      hide Expire;
      var t := currentTimerList[0].owner;
      currentTimerList := currentTimerList[1..];
      ExpireTimer(t, nextExpireTime, timeNow, At(epoch, nextExpireTime));
    }

    method SwitchLists()
      modifies this
      ensures View() == SwitchTimerLists(old(View()))
    {
      hide ProcessExpired, DrainCurrent;
      ghost var d := View();
      DrainUnrolled(d);
      while currentTimerList != []
        invariant DrainCurrent(View()) == DrainCurrent(d)
        decreases |currentTimerList|
      {
        DrainUnrolled(View());
        ProcessShrinks(View());
        var nextExpireTime := currentTimerList[0].value;
        ProcessExpiredTimer(nextExpireTime, MAX_DELAY);
      }
      DrainUnrolled(View());
      currentTimerList, overflowTimerList := overflowTimerList, currentTimerList;
    }

    /** `now` is the time at which the tick counter is read. */
    method SampleTimeNow(now: Instant) returns (listsWereSwitched: bool)
      modifies this
      ensures View() == Sample(old(View()), now) && listsWereSwitched == Wrapped(old(View()), now)
    {
      hide SwitchTimerLists;
      listsWereSwitched := false;
      if now.tick < lastTime {
        SwitchLists();
        listsWereSwitched := true;
      }
      lastTime := now.tick;
      epoch := now.epoch;
    }

    method GetNextExpireTime() returns (nextExpireTime: Tick, listWasEmpty: bool)
      ensures nextExpireTime == NextExpireTime(View()) && listWasEmpty == (currentTimerList == [])
    {
      listWasEmpty := currentTimerList == [];
      nextExpireTime := if listWasEmpty then 0 else currentTimerList[0].value;
    }

    /** One round of the daemon; `block` tells whether and for how long it then waits for a command,
        `forever` that it waits without limit. */
    method ProcessTimerOrBlock(now: Instant) returns (block: bool, ticks: Tick, forever: bool)
      modifies this
      ensures View() == Poll(old(View()), now)
      ensures block <==> !Wrapped(old(View()), now)
                         && (old(currentTimerList) == [] || now.tick < old(currentTimerList[0].value))
      ensures block ==> ticks == BlockTime(View(), now)
                        && (forever <==> currentTimerList == [] && overflowTimerList == [])
    {
      hide ProcessExpired, SwitchTimerLists;
      var nextExpireTime, listWasEmpty := GetNextExpireTime();
      var switched := SampleTimeNow(now);
      block, ticks, forever := false, 0, false;
      if !switched {
        if !listWasEmpty && nextExpireTime <= now.tick {
          ProcessExpiredTimer(nextExpireTime, now.tick);
        } else {
          if listWasEmpty {
            listWasEmpty := overflowTimerList == [];
          }
          block, ticks, forever := true, Sub(nextExpireTime, now.tick), listWasEmpty;
        }
      }
    }

    method RemoveFromList(t: nat)
      modifies this`currentTimerList, this`overflowTimerList
      ensures View() == Unlist(old(View()), t)
    {
      currentTimerList := WithoutOwner(currentTimerList, t);
      overflowTimerList := WithoutOwner(overflowTimerList, t);
    }

    method ProcessCommand(m: Message)
      modifies this
      ensures View() == Process(old(View()), m)
    {
      hide Sample, Unlist, Expire, InsertTimer, SetActive;
      RemoveFromList(m.t);
      var switched := SampleTimeNow(m.now);
      match m.command
      case StartOrReset(sent) =>
        SetStatusActive(m.t, true);
        var next := Add(sent.tick, PeriodOfTimer(m.t));
        ghost var at := sent.Time() + PeriodOfTimer(m.t);
        var passed := InsertTimerInActiveList(m.t, next, m.now.tick, sent.tick);
        if passed {
          ExpireTimer(m.t, next, m.now.tick, at);
        }
      case StopIt =>
        SetStatusActive(m.t, false);
      case ChangeIt(p) =>
        SetStatusActive(m.t, true);
        if m.t in timers {
          timers := timers[m.t := timers[m.t].(period := p)];
        }
        var passed := InsertTimerInActiveList(m.t, Add(m.now.tick, p), m.now.tick, m.now.tick);
      case Delete =>
        SetStatusActive(m.t, false);
    }

    /** Empty the command queue. */
    method ProcessReceivedCommands(ms: seq<Message>)
      modifies this
      ensures View() == ProcessAll(old(View()), ms)
    {
      hide Process;
      var k := 0;
      while k < |ms|
        invariant 0 <= k <= |ms|
        invariant View() == ProcessAll(old(View()), ms[..k])
      {
        ProcessCommand(ms[k]);
        ProcessOneMore(old(View()), ms, k);
        k := k + 1;
      }
      assert ms[..k] == ms;
    }
  }

  lemma ReloadUnrolled(d: Daemon, t: nat, expired: Tick, at: nat, now: Tick)
    ensures var p := PeriodOf(d, t);
            var (d1, again) := InsertTimer(d, t, Add(expired, p), now, expired);
            && (again ==> d1 == d
                          && Reload(d, t, expired, at, now)
                             == Reload(Call(d, t, at), t, Add(expired, p), at + p, now)
                          && Sub(now, Add(expired, p)) < Sub(now, expired))
            && (!again ==> Reload(d, t, expired, at, now) == (d1, at))
            && d1.timers == d.timers
  {
    ProcessedNow(d, t, now, expired);
  }

  lemma DrainUnrolled(d: Daemon)
    ensures DrainCurrent(d) == if d.cur == [] then d else DrainCurrent(ProcessExpired(d, MAX_DELAY))
  {
  }
}
