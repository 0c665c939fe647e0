/** The delayed-task lists of tasks.c against unbounded time.

    Wake times are 32-bit words kept in two sorted lists: the current list for deadlines of this
    epoch, the overflow list for those of the next.  The lists swap when the counter wraps, and a
    cached "next unblock time" lets most ticks skip the scan.  The specification knows none of
    this: an absolute clock and one list of absolute deadlines. */
module Delays {
  import opened Ticks
  import opened Lists

  datatype Delay = Delay(tick: Tick, epoch: nat, next: Tick, cur: seq<Entry>, ovf: seq<Entry>)

  /** A task and the absolute instant it sleeps until. */
  datatype Timed = Timed(owner: nat, due: nat)

  function Now(d: Delay): nat { At(d.epoch, d.tick) }

  // ---------------------------------------------------------------- the kernel's operations

  function NextOf(cur: seq<Entry>): Tick {
    if cur == [] then MAX_DELAY else cur[0].value
  }

  /** Re-read the next unblock time from the head of the current list. */
  function Rescan(d: Delay): Delay {
    d.(next := NextOf(d.cur))
  }

  /** The counter wrapped: exchange the lists. */
  function SwitchLists(d: Delay): Delay {
    Rescan(d.(epoch := d.epoch + 1, cur := d.ovf, ovf := d.cur))
  }

  /** Release the tasks at the head of the current list whose time has come, unless the cached time
      says there are none. */
  function ReleaseDue(d: Delay): (Delay, seq<nat>) {
    if d.tick >= d.next
    then (Rescan(d.(cur := Trailing(d.cur, d.tick))), Owners(Leading(d.cur, d.tick)))
    else (d, [])
  }

  /** One tick: advance the counter, exchange the lists on a wrap, and release those due. */
  function IncrementTick(d: Delay): (Delay, seq<nat>) {
    var t := Add(d.tick, 1);
    ReleaseDue(if t == 0 then SwitchLists(d.(tick := t)) else d.(tick := t))
  }

  /** The running task goes to sleep for `n` ticks. */
  function Sleep(d: Delay, task: nat, n: Tick): Delay {
    var wake := Add(d.tick, n);
    var e := Entry(task, wake);
    if wake < d.tick then d.(ovf := InsertSorted(d.ovf, e))
    else d.(cur := InsertSorted(d.cur, e), next := if wake < d.next then wake else d.next)
  }

  /** Something other than time takes the task off the lists; the cached time is left alone. */
  function Cancel(d: Delay, task: nat): Delay {
    d.(cur := WithoutOwner(d.cur, task), ovf := WithoutOwner(d.ovf, task))
  }

  // ---------------------------------------------------------------- the specification

  function Dated(s: seq<Entry>, epoch: nat): (r: seq<Timed>)
    ensures |r| == |s|
  {
    if s == [] then [] else [Timed(s[0].owner, At(epoch, s[0].value))] + Dated(s[1..], epoch)
  }

  /** Who is asleep, and until when. */
  function Waiting(d: Delay): seq<Timed> {
    Dated(d.cur, d.epoch) + Dated(d.ovf, d.epoch + 1)
  }

  /** The leading sleepers due by `limit`, and the others. */
  function DueFirst(w: seq<Timed>, limit: nat): seq<Timed> {
    if w == [] || limit < w[0].due then [] else [w[0]] + DueFirst(w[1..], limit)
  }

  function DueLater(w: seq<Timed>, limit: nat): seq<Timed> {
    if w == [] || limit < w[0].due then w else DueLater(w[1..], limit)
  }

  /** File a sleeper behind everyone due no later. */
  function InsertDue(w: seq<Timed>, x: Timed): seq<Timed> {
    if w == [] || x.due < w[0].due then [x] + w else [w[0]] + InsertDue(w[1..], x)
  }

  function Sleepers(w: seq<Timed>): seq<nat> {
    if w == [] then [] else [w[0].owner] + Sleepers(w[1..])
  }

  function WithoutSleeper(w: seq<Timed>, t: nat): seq<Timed> {
    if w == [] then []
    else if w[0].owner == t then WithoutSleeper(w[1..], t)
    else [w[0]] + WithoutSleeper(w[1..], t)
  }

  // ---------------------------------------------------------------- the invariant

  /** Both lists are in order, and everything in the current list is still to come and no earlier
      than the cached time. */
  predicate Inv(d: Delay) {
    && Sorted(d.cur) && Sorted(d.ovf)
    && (d.cur != [] ==> d.tick < d.cur[0].value && d.next <= d.cur[0].value)
  }

  /** At a wrap the current list is empty, as the kernel asserts. */
  lemma EmptyAtWrap(d: Delay)
    requires Inv(d) && d.tick == MAX_DELAY
    ensures d.cur == []
  {
  }

  // ---------------------------------------------------------------- a tick

  lemma {:induction false} ReleaseDated(s: seq<Entry>, epoch: nat, t: Tick)
    ensures Dated(Trailing(s, t), epoch) == DueLater(Dated(s, epoch), At(epoch, t))
    ensures Owners(Leading(s, t)) == Sleepers(DueFirst(Dated(s, epoch), At(epoch, t)))
  {
    if s != [] && s[0].value <= t {
      ReleaseDated(s[1..], epoch, t);
      assert Dated(s, epoch)[1..] == Dated(s[1..], epoch);
      assert Leading(s, t)[1..] == Leading(s[1..], t);
      var w := Dated(s, epoch);
      assert DueFirst(w, At(epoch, t))[1..] == DueFirst(w[1..], At(epoch, t));
    }
  }

  /** A list none of whose members is due adds nothing to a release. */
  lemma {:induction false} DueInConcat(a: seq<Timed>, b: seq<Timed>, limit: nat)
    requires b != [] ==> limit < b[0].due
    ensures DueFirst(a + b, limit) == DueFirst(a, limit)
    ensures DueLater(a + b, limit) == DueLater(a, limit) + b
  {
    if a == [] {
      assert a + b == b;
    } else {
      DueInConcat(a[1..], b, limit);
      assert (a + b)[1..] == a[1..] + b;
    }
  }

  lemma ReleaseRefines(d: Delay)
    requires Sorted(d.cur) && Sorted(d.ovf)
    requires d.cur != [] ==> d.next <= d.cur[0].value
    ensures var (d', woken) := ReleaseDue(d);
            && Inv(d') && Now(d') == Now(d)
            && Waiting(d') == DueLater(Waiting(d), Now(d))
            && woken == Sleepers(DueFirst(Waiting(d), Now(d)))
  {
    hide Dated, DueFirst, DueLater, Sleepers, Sorted, Leading, Trailing;
    var b := Dated(d.ovf, d.epoch + 1);
    DatedWithin(d.ovf, d.epoch + 1);
    assert b != [] ==> b[0] in b;
    DueInConcat(Dated(d.cur, d.epoch), b, Now(d));
    ReleaseDated(d.cur, d.epoch, d.tick);
    TrailingKeepsSorted(d.cur, d.tick);
    if d.tick < d.next {
      NothingDue(d);
    }
  }

  /** When the cached time is still ahead, so is every deadline. */
  lemma NothingDue(d: Delay)
    requires d.cur != [] ==> d.next <= d.cur[0].value
    requires d.tick < d.next
    ensures DueLater(Waiting(d), Now(d)) == Waiting(d) && DueFirst(Waiting(d), Now(d)) == []
    ensures Sleepers([]) == []
  {
    DatedWithin(d.ovf, d.epoch + 1);
    var b := Dated(d.ovf, d.epoch + 1);
    assert b != [] ==> b[0] in b;
  }

  lemma SwitchRefines(d: Delay)
    requires Inv(d) && d.tick == MAX_DELAY
    ensures var d1 := SwitchLists(d.(tick := 0));
            && Sorted(d1.cur) && Sorted(d1.ovf) && (d1.cur != [] ==> d1.next <= d1.cur[0].value)
            && Waiting(d1) == Waiting(d) && Now(d1) == Now(d) + 1
  {
    EmptyAtWrap(d);
    var d1 := SwitchLists(d.(tick := 0));
    assert Waiting(d1) == Dated(d.ovf, d.epoch + 1) + [];
  }

  /** One tick of the kernel is one tick of absolute time: it releases exactly the sleepers due by
      then, in order of deadline and of arrival among equals, and keeps the rest. */
  lemma TickRefines(d: Delay)
    requires Inv(d)
    ensures var (d', woken) := IncrementTick(d);
            && Inv(d') && Now(d') == Now(d) + 1
            && Waiting(d') == DueLater(Waiting(d), Now(d) + 1)
            && woken == Sleepers(DueFirst(Waiting(d), Now(d) + 1))
  {
    hide Dated, DueFirst, DueLater, Sleepers, ReleaseDue, Sorted;
    if d.tick == MAX_DELAY {
      SwitchRefines(d);
      ReleaseRefines(SwitchLists(d.(tick := 0)));
    } else {
      ReleaseRefines(d.(tick := d.tick + 1));
    }
  }

  // ---------------------------------------------------------------- going to sleep, being woken

  lemma {:induction false} InsertDated(s: seq<Entry>, epoch: nat, e: Entry)
    ensures Dated(InsertSorted(s, e), epoch)
         == InsertDue(Dated(s, epoch), Timed(e.owner, At(epoch, e.value)))
  {
    var w := Dated(s, epoch);
    if s != [] && s[0].value <= e.value {
      InsertDated(s[1..], epoch, e);
      assert w[1..] == Dated(s[1..], epoch);
      assert InsertSorted(s, e)[1..] == InsertSorted(s[1..], e);
    } else {
      assert InsertSorted(s, e)[1..] == s;
    }
  }

  lemma {:induction false} InsertLeft(a: seq<Timed>, b: seq<Timed>, x: Timed)
    requires b != [] ==> x.due < b[0].due
    ensures InsertDue(a + b, x) == InsertDue(a, x) + b
  {
    InsertDueUnrolled(a, x);
    InsertDueUnrolled(a + b, x);
    hide InsertDue;
    if a == [] {
      assert a + b == b;
    } else {
      InsertLeft(a[1..], b, x);
      HeadAndTail(a, b);
      if x.due < a[0].due {
        assert [x] + (a + b) == [x] + a + b;
      } else {
        assert [a[0]] + (InsertDue(a[1..], x) + b) == [a[0]] + InsertDue(a[1..], x) + b;
      }
    }
  }

  lemma HeadAndTail(a: seq<Timed>, b: seq<Timed>)
    requires a != []
    ensures (a + b)[0] == a[0] && (a + b)[1..] == a[1..] + b
  {
  }

  lemma InsertDueUnrolled(w: seq<Timed>, x: Timed)
    ensures InsertDue(w, x) == if w == [] || x.due < w[0].due then [x] + w else [w[0]] + InsertDue(w[1..], x)
  {
  }

  lemma {:induction false} InsertRight(a: seq<Timed>, b: seq<Timed>, x: Timed)
    requires forall y :: y in a ==> y.due <= x.due
    ensures InsertDue(a + b, x) == a + InsertDue(b, x)
  {
    if a == [] {
      assert a + b == b;
    } else {
      InsertRight(a[1..], b, x);
      assert (a + b)[1..] == a[1..] + b;
      assert a[0] in a;
    }
  }

  lemma {:induction false} DatedWithin(s: seq<Entry>, epoch: nat)
    ensures forall x :: x in Dated(s, epoch) ==> At(epoch, 0) <= x.due < At(epoch + 1, 0)
  {
    if s != [] {
      DatedWithin(s[1..], epoch);
    }
  }

  /** Going to sleep files the absolute deadline, whichever list the word lands in. */
  lemma SleepRefines(d: Delay, task: nat, n: Tick)
    ensures Waiting(Sleep(d, task, n)) == InsertDue(Waiting(d), Timed(task, Now(d) + n))
    ensures Now(Sleep(d, task, n)) == Now(d)
  {
    hide InsertSorted, InsertDue, Dated;
    var e := Entry(task, Add(d.tick, n));
    var x := Timed(task, Now(d) + n);
    DatedWithin(d.cur, d.epoch);
    DatedWithin(d.ovf, d.epoch + 1);
    var b := Dated(d.ovf, d.epoch + 1);
    assert b != [] ==> b[0] in b;
    if e.value < d.tick {
      InsertDated(d.ovf, d.epoch + 1, e);
      InsertRight(Dated(d.cur, d.epoch), b, x);
    } else {
      InsertDated(d.cur, d.epoch, e);
      InsertLeft(Dated(d.cur, d.epoch), b, x);
    }
  }

  lemma SleepKeepsInv(d: Delay, task: nat, n: Tick)
    requires Inv(d) && n > 0
    ensures Inv(Sleep(d, task, n))
  {
    var e := Entry(task, Add(d.tick, n));
    InsertKeepsSorted(d.ovf, e);
    InsertKeepsSorted(d.cur, e);
  }

  lemma {:induction false} DatedWithout(s: seq<Entry>, epoch: nat, t: nat)
    ensures Dated(WithoutOwner(s, t), epoch) == WithoutSleeper(Dated(s, epoch), t)
  {
    if s != [] {
      DatedWithout(s[1..], epoch, t);
      assert Dated(s, epoch)[1..] == Dated(s[1..], epoch);
      var r := WithoutOwner(s[1..], t);
      assert ([s[0]] + r)[1..] == r;
    }
  }

  lemma {:induction false} WithoutSleeperConcat(a: seq<Timed>, b: seq<Timed>, t: nat)
    ensures WithoutSleeper(a + b, t) == WithoutSleeper(a, t) + WithoutSleeper(b, t)
  {
    if a == [] {
      assert a + b == b;
    } else {
      WithoutSleeperConcat(a[1..], b, t);
      assert (a + b)[0] == a[0] && (a + b)[1..] == a[1..] + b;
    }
  }

  /** Being woken by something else forgets the deadline and disturbs no other. */
  lemma CancelRefines(d: Delay, t: nat)
    requires Inv(d)
    ensures Inv(Cancel(d, t)) && Now(Cancel(d, t)) == Now(d)
    ensures Waiting(Cancel(d, t)) == WithoutSleeper(Waiting(d), t)
  {
    WithoutKeepsSorted(d.cur, t);
    WithoutKeepsSorted(d.ovf, t);
    DatedWithout(d.cur, d.epoch, t);
    DatedWithout(d.ovf, d.epoch + 1, t);
    WithoutSleeperConcat(Dated(d.cur, d.epoch), Dated(d.ovf, d.epoch + 1), t);
  }

  // ---------------------------------------------------------------- whole runs

  datatype Step = Tick | Sleeps(task: nat, ticks: Tick) | Woken(task: nat) | Rescans

  function Apply(d: Delay, s: Step): Delay {
    match s
    case Tick => IncrementTick(d).0
    case Sleeps(t, n) => Sleep(d, t, n)
    case Woken(t) => Cancel(d, t)
    case Rescans => Rescan(d)
  }

  function Run(d: Delay, steps: seq<Step>): Delay
    decreases |steps|
  {
    if steps == [] then d else Run(Apply(d, steps[0]), steps[1..])
  }

  /** The instants at which a tick of the run releases `t`. */
  function WakeTimes(d: Delay, steps: seq<Step>, t: nat): seq<nat>
    decreases |steps|
  {
    if steps == [] then []
    else
      var d' := Apply(d, steps[0]);
      (if steps[0].Tick? && t in IncrementTick(d).1 then [Now(d')] else []) + WakeTimes(d', steps[1..], t)
  }

  /** Every block in the run is for at least one tick, as all the kernel's callers ensure. */
  predicate Proper(s: Step) {
    s.Sleeps? ==> s.ticks > 0
  }

  /** Nothing but time touches `t`. */
  predicate Undisturbed(steps: seq<Step>, t: nat)
    decreases |steps|
  {
    steps == [] || (LeavesAlone(steps[0], t) && Undisturbed(steps[1..], t))
  }

  predicate LeavesAlone(s: Step, t: nat) {
    Proper(s) && s != Woken(t) && (s.Sleeps? ==> s.task != t)
  }

  /** `t` sleeps, and only until `due`. */
  ghost predicate SleepsUntil(d: Delay, t: nat, due: nat) {
    && Timed(t, due) in Waiting(d)
    && (forall x :: x in Waiting(d) && x.owner == t ==> x.due == due)
  }

  ghost predicate Awake(d: Delay, t: nat) {
    forall x :: x in Waiting(d) ==> x.owner != t
  }

  predicate Ordered(w: seq<Timed>) {
    |w| < 2 || (w[0].due <= w[1].due && Ordered(w[1..]))
  }

  lemma {:induction false} OrderedHead(w: seq<Timed>)
    requires Ordered(w) && w != []
    ensures forall x :: x in w ==> w[0].due <= x.due
  {
    if |w| > 1 {
      OrderedHead(w[1..]);
      assert w == [w[0]] + w[1..];
    }
  }

  /** In a list in deadline order, the leading part is those due and the rest those not. */
  lemma {:induction false} DueMembers(w: seq<Timed>, limit: nat)
    requires Ordered(w)
    ensures forall x :: x in DueFirst(w, limit) <==> x in w && x.due <= limit
    ensures forall x :: x in DueLater(w, limit) <==> x in w && limit < x.due
  {
    if w != [] {
      if limit < w[0].due {
        OrderedHead(w);
      } else {
        DueMembers(w[1..], limit);
        assert w == [w[0]] + w[1..];
      }
    }
  }

  lemma {:induction false} SleepersMembers(w: seq<Timed>, t: nat)
    ensures t in Sleepers(w) <==> exists x :: x in w && x.owner == t
  {
    if w != [] {
      SleepersMembers(w[1..], t);
      assert w == [w[0]] + w[1..];
    }
  }

  lemma {:induction false} InsertDueMembers(w: seq<Timed>, x: Timed)
    ensures forall y :: y in InsertDue(w, x) <==> y == x || y in w
  {
    if w != [] && w[0].due <= x.due {
      InsertDueMembers(w[1..], x);
      assert w == [w[0]] + w[1..];
    }
  }

  lemma {:induction false} WithoutMembers(w: seq<Timed>, t: nat)
    ensures forall x :: x in WithoutSleeper(w, t) <==> x in w && x.owner != t
  {
    if w != [] {
      WithoutMembers(w[1..], t);
      assert w == [w[0]] + w[1..];
    }
  }

  lemma {:induction false} DatedOrdered(s: seq<Entry>, epoch: nat)
    requires Sorted(s)
    ensures Ordered(Dated(s, epoch))
  {
    if |s| > 1 {
      DatedOrdered(s[1..], epoch);
      assert Dated(s, epoch)[1..] == Dated(s[1..], epoch);
    }
  }

  lemma {:induction false} OrderedConcat(a: seq<Timed>, b: seq<Timed>, mid: nat)
    requires Ordered(a) && Ordered(b)
    requires (forall x :: x in a ==> x.due <= mid) && (forall x :: x in b ==> mid <= x.due)
    ensures Ordered(a + b)
  {
    if a == [] {
      assert a + b == b;
    } else {
      assert a[0] in a && (b != [] ==> b[0] in b);
      OrderedConcat(a[1..], b, mid);
      assert (a + b)[1..] == a[1..] + b;
    }
  }

  /** Every deadline is still to come, and the whole list is in deadline order. */
  lemma WaitingOrdered(d: Delay)
    requires Inv(d)
    ensures Ordered(Waiting(d))
    ensures forall x :: x in Waiting(d) ==> Now(d) < x.due
  {
    var a, b := Dated(d.cur, d.epoch), Dated(d.ovf, d.epoch + 1);
    DatedOrdered(d.cur, d.epoch);
    DatedOrdered(d.ovf, d.epoch + 1);
    DatedWithin(d.cur, d.epoch);
    DatedWithin(d.ovf, d.epoch + 1);
    OrderedConcat(a, b, At(d.epoch + 1, 0));
    if a != [] {
      OrderedHead(a);
    }
  }

  /** A tick releases a sleeper when it reaches the deadline, and not before. */
  lemma TickAndSleeper(d: Delay, t: nat, due: nat)
    requires Inv(d) && SleepsUntil(d, t, due)
    ensures Now(d) < due
    ensures var (d', woken) := IncrementTick(d);
            if Now(d) + 1 == due then t in woken && Awake(d', t)
            else t !in woken && SleepsUntil(d', t, due)
  {
    TickRefines(d);
    WaitingOrdered(d);
    DueMembers(Waiting(d), Now(d) + 1);
    SleepersMembers(DueFirst(Waiting(d), Now(d) + 1), t);
    assert Timed(t, due) in Waiting(d) && Timed(t, due).owner == t;
  }

  /** Any other step leaves a sleeper, or an absentee, as it is. */
  lemma StepOnOthers(d: Delay, s: Step, t: nat)
    requires Inv(d) && LeavesAlone(s, t) && !s.Tick?
    ensures Inv(Apply(d, s)) && Now(Apply(d, s)) == Now(d)
    ensures forall x: Timed :: x.owner == t ==> (x in Waiting(Apply(d, s)) <==> x in Waiting(d))
  {
    match s
    case Sleeps(u, n) =>
      SleepRefines(d, u, n);
      SleepKeepsInv(d, u, n);
      InsertDueMembers(Waiting(d), Timed(u, Now(d) + n));
    case Woken(u) =>
      CancelRefines(d, u);
      WithoutMembers(Waiting(d), u);
    case Rescans =>
  }

  lemma AwakeThroughTick(d: Delay, t: nat)
    requires Inv(d) && Awake(d, t)
    ensures Awake(IncrementTick(d).0, t) && t !in IncrementTick(d).1
    ensures Inv(IncrementTick(d).0) && Now(IncrementTick(d).0) == Now(d) + 1
  {
    TickRefines(d);
    WaitingOrdered(d);
    DueMembers(Waiting(d), Now(d) + 1);
    SleepersMembers(DueFirst(Waiting(d), Now(d) + 1), t);
  }

  lemma {:induction false} StaysAwake(d: Delay, steps: seq<Step>, t: nat)
    requires Inv(d) && Awake(d, t) && Undisturbed(steps, t)
    ensures Awake(Run(d, steps), t) && WakeTimes(d, steps, t) == []
    ensures Now(d) <= Now(Run(d, steps))
    decreases |steps|
  {
    if steps != [] {
      if steps[0].Tick? {
        AwakeThroughTick(d, t);
      } else {
        StepOnOthers(d, steps[0], t);
      }
      StaysAwake(Apply(d, steps[0]), steps[1..], t);
    }
  }

  /** Whatever else happens, across any number of wraps, the sleeper is released once, at its
      deadline. */
  lemma {:induction false} WokenAtDeadline(d: Delay, steps: seq<Step>, t: nat, due: nat)
    requires Inv(d) && SleepsUntil(d, t, due) && Undisturbed(steps, t)
    ensures var end := Run(d, steps);
            if Now(end) < due then SleepsUntil(end, t, due) && WakeTimes(d, steps, t) == []
            else Awake(end, t) && WakeTimes(d, steps, t) == [due]
    decreases |steps|
  {
    hide Waiting, IncrementTick, Inv;
    if steps == [] {
      WaitingOrdered(d);
    } else {
      var s := steps[0];
      var d' := Apply(d, s);
      if s.Tick? {
        TickRefines(d);
        TickAndSleeper(d, t, due);
        if Now(d) + 1 == due {
          StaysAwake(d', steps[1..], t);
        } else {
          WokenAtDeadline(d', steps[1..], t, due);
        }
      } else {
        StepOnOthers(d, s, t);
        assert Timed(t, due).owner == t;
        WokenAtDeadline(d', steps[1..], t, due);
      }
    }
  }

  /** A task that goes to sleep for `n` ticks, and that nothing else wakes, becomes ready in the one
      tick that brings absolute time to its sleep instant plus `n`. */
  lemma SleepsExactly(d: Delay, t: nat, n: Tick, steps: seq<Step>)
    requires Inv(d) && Awake(d, t) && n > 0 && Undisturbed(steps, t)
    ensures var d1 := Sleep(d, t, n);
            var end := Run(d1, steps);
            if Now(end) < Now(d) + n then SleepsUntil(end, t, Now(d) + n) && WakeTimes(d1, steps, t) == []
            else Awake(end, t) && WakeTimes(d1, steps, t) == [Now(d) + n]
  {
    hide Sleep, Run, WakeTimes, Inv, InsertDue, Waiting, Now, Undisturbed;
    var d1 := Sleep(d, t, n);
    SleepRefines(d, t, n);
    SleepKeepsInv(d, t, n);
    InsertDueMembers(Waiting(d), Timed(t, Now(d) + n));
    WokenAtDeadline(d1, steps, t, Now(d) + n);
  }

  /** Why callers must not block for zero ticks: at any other count the task comes back with the
      next tick, but at the last count before a wrap it does not - its entry is still in the current
      list at the exchange, against the kernel's assertion, and goes to the overflow list. */
  lemma ZeroSleep(d: Delay, t: nat)
    requires Inv(d) && Awake(d, t)
    ensures t in IncrementTick(Sleep(d, t, 0)).1 <==> d.tick != MAX_DELAY
    ensures d.tick == MAX_DELAY ==>
              var d1 := Sleep(d, t, 0);
              Entry(t, MAX_DELAY) in d1.cur && Entry(t, MAX_DELAY) in SwitchLists(d1.(tick := 0)).ovf
  {
    var d1 := Sleep(d, t, 0);
    var e := Entry(t, d.tick);
    InsertKeepsSorted(d.cur, e);
    if d.tick == MAX_DELAY {
      var d2 := SwitchLists(d1.(tick := 0));
      TickRefines(d);
      AwakeThroughTick(d, t);
      assert d2.cur == SwitchLists(d.(tick := 0)).cur;
    } else {
      assert Leading(d1.cur, d.tick + 1)[0] == e;
    }
  }
}
