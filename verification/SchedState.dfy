/** The scheduler state of tasks.c: one ready ring per priority, the delayed lists, the suspended,
    pending-ready and termination lists, and the counters that summarise them.

    Every task owns one state item, which the list functions find through its container pointer; a
    value-level model finds it by membership, which `Inv` makes the same thing. */
module SchedState {
  import opened Ticks
  import opened Lists
  import opened Delays

  const MAX_PRIORITIES: nat := 32

  type Priority = p: nat | p < MAX_PRIORITIES

  type ReadyList = l: Ring<nat> | l.index <= |l.items| witness Ring([], 0)

  /** One ready list per priority. */
  type ReadyLists = r: seq<ReadyList> | |r| == MAX_PRIORITIES witness EmptyLists(MAX_PRIORITIES)

  function EmptyLists(n: nat): (r: seq<ReadyList>)
    ensures |r| == n
  {
    if n == 0 then [] else [Ring([], 0)] + EmptyLists(n - 1)
  }

  datatype Tcb = Tcb(priority: Priority, base: Priority, mutexesHeld: nat)

  datatype Sched = Sched(
    tasks: map<nat, Tcb>,
    current: nat,
    ready: ReadyLists,
    top: Priority,
    delay: Delay,
    suspended: seq<nat>,
    terminating: seq<nat>,
    pending: seq<nat>,
    events: set<nat>,
    depth: nat,
    pended: nat,
    yieldPending: bool,
    count: nat)

  function PriorityOf(s: Sched, t: nat): Priority {
    if t in s.tasks then s.tasks[t].priority else 0
  }

  predicate InReady(s: Sched, t: nat) {
    t in s.ready[PriorityOf(s, t)].items
  }

  // ---------------------------------------------------------------- list moves

  function RemoveReady(s: Sched, t: nat): Sched {
    var p := PriorityOf(s, t);
    var l: ReadyList := s.ready[p].Remove(t);
    s.(ready := s.ready[p := l])
  }

  /** Take the task's state item off whichever list holds it. */
  function Unlink(s: Sched, t: nat): Sched {
    if InReady(s, t) then RemoveReady(s, t)
    else s.(delay := Cancel(s.delay, t), suspended := Without(s.suspended, t),
            terminating := Without(s.terminating, t))
  }

  /** Put the task at the end of the ready list of its priority. */
  function AddReady(s: Sched, t: nat): Sched {
    var p := PriorityOf(s, t);
    var l: ReadyList := s.ready[p].InsertEnd(t);
    s.(ready := s.ready[p := l], top := if p > s.top then p else s.top)
  }

  /** The task no longer waits for an event, nor to be moved off the pending-ready list. */
  function ClearEvent(s: Sched, t: nat): Sched {
    s.(events := s.events - {t}, pending := Without(s.pending, t))
  }

  function MakeReady(s: Sched, t: nat): Sched {
    AddReady(Unlink(ClearEvent(s, t), t), t)
  }

  // ---------------------------------------------------------------- the invariant

  function Occurrences(s: seq<nat>, t: nat): nat {
    multiset(s)[t]
  }

  /** How often the task's state item is on a list other than the ready lists. */
  function OtherHomes(s: Sched, t: nat): nat {
    Occurrences(Owners(s.delay.cur), t) + Occurrences(Owners(s.delay.ovf), t)
    + Occurrences(s.suspended, t) + Occurrences(s.terminating, t)
  }

  /** How often it is on any list; `ByPriority` says it can be on no other ready list. */
  function Homes(s: Sched, t: nat): nat
  {
    Occurrences(s.ready[PriorityOf(s, t)].items, t) + OtherHomes(s, t)
  }

  /** Every task's state item is on exactly one list, except that those in `loose` are on none. */
  ghost predicate Partition(s: Sched, loose: set<nat>)
  {
    && (forall t {:trigger Homes(s, t)} :: t in s.tasks ==> Homes(s, t) == if t in loose then 0 else 1)
    && (forall t {:trigger OtherHomes(s, t)} :: OtherHomes(s, t) > 0 ==> t in s.tasks)
  }

  /** A ready task is on the list of its current priority, and no list above the top is in use. */
  ghost predicate ByPriority(s: Sched) {
    && (forall p, t {:trigger t in s.ready[p].items} :: 0 <= p < |s.ready| && t in s.ready[p].items ==>
          t in s.tasks && s.tasks[t].priority == p)
    && (forall p :: s.top < p < |s.ready| ==> s.ready[p].items == [])
  }

  predicate Blocked(s: Sched, t: nat) {
    t in s.tasks && !InReady(s, t) && t !in s.terminating
  }

  /** Whoever waits for an event, or to be made ready, is on neither a ready nor the termination
      list, and nobody does both. */
  ghost predicate EventsMatch(s: Sched) {
    && (forall t :: t in s.events ==> Blocked(s, t))
    && (forall t :: t in s.pending ==> Blocked(s, t) && t !in s.events)
    && (forall t :: Occurrences(s.pending, t) <= 1)
  }

  ghost predicate Core(s: Sched, loose: set<nat>) {
    && Partition(s, loose) && ByPriority(s) && EventsMatch(s)
    && s.current in s.tasks && s.count == |s.tasks|
  }

  ghost predicate Inv(s: Sched) {
    && Core(s, {}) && Delays.Inv(s.delay)
    && (s.depth == 0 ==> s.pending == [] && s.pended == 0)
  }

  // ---------------------------------------------------------------- occurrences

  lemma InsertEndOccurrences(l: Ring<nat>, x: nat)
    requires l.Valid()
    ensures multiset(l.InsertEnd(x).items) == multiset(l.items) + multiset{x}
  {
    if l.index > 0 {
      assert l.items == l.items[..l.index - 1] + l.items[l.index - 1..];
    }
  }

  lemma RemoveOccurrences(l: Ring<nat>, x: nat)
    requires l.Valid() && x in l.items
    ensures multiset(l.Remove(x).items) == multiset(l.items) - multiset{x}
  {
    var p := l.Position(x);
    assert l.items == l.items[..p] + [x] + l.items[p + 1..];
  }

  lemma {:induction false} WithoutOccurrences(s: seq<nat>, t: nat, x: nat)
    ensures Occurrences(Without(s, t), x) == if x == t then 0 else Occurrences(s, x)
  {
    if s != [] {
      WithoutOccurrences(s[1..], t, x);
      assert s == [s[0]] + s[1..];
    }
  }

  lemma {:induction false} WithoutOwnerOccurrences(s: seq<Entry>, t: nat, x: nat)
    ensures Occurrences(Owners(WithoutOwner(s, t)), x) == if x == t then 0 else Occurrences(Owners(s), x)
  {
    if s != [] {
      WithoutOwnerOccurrences(s[1..], t, x);
      var r := WithoutOwner(s[1..], t);
      assert ([s[0]] + r)[1..] == r;
    }
  }

  lemma {:induction false} InsertedOccurrences(s: seq<Entry>, e: Entry)
    ensures multiset(Owners(InsertSorted(s, e))) == multiset(Owners(s)) + multiset{e.owner}
  {
    if s != [] && s[0].value <= e.value {
      InsertedOccurrences(s[1..], e);
      assert InsertSorted(s, e)[1..] == InsertSorted(s[1..], e);
    } else {
      assert InsertSorted(s, e)[1..] == s;
    }
  }

  // ---------------------------------------------------------------- what the list moves keep

  lemma UnlinkReadyHomes(s: Sched, t: nat, x: nat)
    requires InReady(s, t) && x in s.tasks
    ensures OtherHomes(Unlink(s, t), x) == OtherHomes(s, x)
    ensures Homes(Unlink(s, t), x) == if x == t then Homes(s, x) - 1 else Homes(s, x)
  {
    hide OtherHomes, Ring.Remove;
    RemoveOccurrences(s.ready[PriorityOf(s, t)], t);
    SameOtherHomes(s, RemoveReady(s, t), x);
  }

  lemma SameOtherHomes(s: Sched, s': Sched, x: nat)
    requires s'.delay == s.delay && s'.suspended == s.suspended && s'.terminating == s.terminating
    ensures OtherHomes(s', x) == OtherHomes(s, x)
  {
  }

  lemma OtherHomesWithout(s: Sched, t: nat, x: nat)
    requires t in s.tasks && !InReady(s, t)
    ensures OtherHomes(Unlink(s, t), x) == if x == t then 0 else OtherHomes(s, x)
  {
    WithoutOwnerOccurrences(s.delay.cur, t, x);
    WithoutOwnerOccurrences(s.delay.ovf, t, x);
    WithoutOccurrences(s.suspended, t, x);
    WithoutOccurrences(s.terminating, t, x);
  }

  lemma UnlinkPartition(s: Sched, t: nat)
    requires Partition(s, {}) && t in s.tasks
    ensures Partition(Unlink(s, t), {t})
  {
    var s' := Unlink(s, t);
    assert Homes(s, t) == 1;
    forall x | x in s.tasks ensures Homes(s', x) == if x == t then 0 else 1 {
      assert Homes(s, x) == 1;
      if InReady(s, t) {
        UnlinkReadyHomes(s, t, x);
      } else {
        OtherHomesWithout(s, t, x);
      }
    }
    forall x | OtherHomes(s', x) > 0 ensures x in s.tasks {
      if !InReady(s, t) {
        OtherHomesWithout(s, t, x);
      }
      assert OtherHomes(s, x) > 0;
    }
  }

  lemma RingRemoveMembers(l: Ring<nat>, t: nat)
    requires l.Valid()
    ensures forall x :: x in l.Remove(t).items ==> x in l.items
  {
  }

  lemma RingInsertMembers(l: Ring<nat>, t: nat)
    requires l.Valid()
    ensures forall x :: x in l.InsertEnd(t).items <==> x == t || x in l.items
  {
    if l.index > 0 {
      assert l.items == l.items[..l.index - 1] + l.items[l.index - 1..];
    }
  }

  lemma UnlinkByPriority(s: Sched, t: nat)
    requires ByPriority(s)
    ensures ByPriority(Unlink(s, t))
  {
    RingRemoveMembers(s.ready[PriorityOf(s, t)], t);
  }

  lemma {:induction false} WithoutMembersOnly(s: seq<nat>, t: nat)
    ensures forall x :: x in Without(s, t) <==> x in s && x != t
  {
    if s != [] {
      WithoutMembersOnly(s[1..], t);
      assert s == [s[0]] + s[1..];
    }
  }

  /** Unlinking blocks nobody's event: whoever was off the ready and termination lists still is. */
  lemma UnlinkBlocked(s: Sched, t: nat, x: nat)
    ensures Blocked(s, x) ==> Blocked(Unlink(s, t), x)
  {
    RingRemoveMembers(s.ready[PriorityOf(s, t)], t);
    WithoutMembersOnly(s.terminating, t);
  }

  lemma UnlinkEvents(s: Sched, t: nat)
    requires EventsMatch(s)
    ensures EventsMatch(Unlink(s, t))
  {
    forall x | x in s.events || x in s.pending ensures Blocked(Unlink(s, t), x) {
      UnlinkBlocked(s, t, x);
    }
  }

  lemma UnlinkKeeps(s: Sched, t: nat)
    requires Core(s, {}) && t in s.tasks
    ensures Core(Unlink(s, t), {t})
    ensures Delays.Inv(s.delay) ==> Delays.Inv(Unlink(s, t).delay)
  {
    UnlinkPartition(s, t);
    UnlinkByPriority(s, t);
    UnlinkEvents(s, t);
    if Delays.Inv(s.delay) {
      CancelRefines(s.delay, t);
    }
  }

  /** A loose task is on no list. */
  lemma LooseIsNowhere(s: Sched, loose: set<nat>, t: nat)
    requires Partition(s, loose) && t in loose && t in s.tasks
    ensures !InReady(s, t) && t !in s.terminating && t !in s.suspended
  {
    assert Homes(s, t) == 0;
  }

  /** Where the loose task goes next: `t` gains one home and nobody else is moved. */
  lemma PartitionClosed(s: Sched, s': Sched, loose: set<nat>, t: nat)
    requires Partition(s, loose) && t in loose && t in s.tasks && s'.tasks == s.tasks
    requires forall x :: Homes(s', x) == if x == t then Homes(s, x) + 1 else Homes(s, x)
    requires forall x :: x != t ==> OtherHomes(s', x) == OtherHomes(s, x)
    ensures Partition(s', loose - {t})
  {
  }

  lemma AddReadyHomes(s: Sched, t: nat, x: nat)
    ensures Homes(AddReady(s, t), x) == if x == t then Homes(s, x) + 1 else Homes(s, x)
  {
    hide OtherHomes, Ring.InsertEnd;
    InsertEndOccurrences(s.ready[PriorityOf(s, t)], t);
    SameOtherHomes(s, AddReady(s, t), x);
  }

  lemma AddReadyPartition(s: Sched, loose: set<nat>, t: nat)
    requires Partition(s, loose) && t in loose && t in s.tasks
    ensures Partition(AddReady(s, t), loose - {t})
  {
    forall x { AddReadyHomes(s, t, x); }
    PartitionClosed(s, AddReady(s, t), loose, t);
  }

  lemma AddReadyByPriority(s: Sched, t: nat)
    requires ByPriority(s) && t in s.tasks
    ensures ByPriority(AddReady(s, t))
  {
    RingInsertMembers(s.ready[PriorityOf(s, t)], t);
  }

  lemma AddReadyReady(s: Sched, t: nat, x: nat)
    ensures InReady(AddReady(s, t), x) <==> x == t || InReady(s, x)
  {
    RingInsertMembers(s.ready[PriorityOf(s, t)], t);
  }

  lemma AddReadyEvents(s: Sched, t: nat)
    requires EventsMatch(s) && t !in s.events && t !in s.pending
    ensures EventsMatch(AddReady(s, t))
  {
    forall x | x in s.events || x in s.pending ensures Blocked(AddReady(s, t), x) {
      AddReadyReady(s, t, x);
    }
  }

  lemma AddReadyKeeps(s: Sched, loose: set<nat>, t: nat)
    requires Core(s, loose) && t in loose && t in s.tasks && t !in s.events && t !in s.pending
    ensures Core(AddReady(s, t), loose - {t})
  {
    AddReadyPartition(s, loose, t);
    AddReadyByPriority(s, t);
    AddReadyEvents(s, t);
  }

  function AddSuspended(s: Sched, t: nat): Sched {
    s.(suspended := s.suspended + [t])
  }

  function AddTerminating(s: Sched, t: nat): Sched {
    s.(terminating := s.terminating + [t])
  }

  function AddDelayed(s: Sched, t: nat, n: Tick): Sched {
    s.(delay := Sleep(s.delay, t, n))
  }

  /** Nothing but the non-ready lists differs, so everything said of the ready lists stays true. */
  lemma ReadySideKept(s: Sched, s': Sched)
    requires ByPriority(s) && EventsMatch(s)
    requires s' == s.(delay := s'.delay, suspended := s'.suspended, terminating := s'.terminating)
    requires forall x :: x in s'.terminating && x !in s.terminating ==> x !in s.events && x !in s.pending
    ensures ByPriority(s') && EventsMatch(s')
  {
    forall x | x in s.events || x in s.pending ensures Blocked(s', x) {
      assert Blocked(s, x);
    }
  }

  lemma AppendOccurrences(s: seq<nat>, t: nat, x: nat)
    ensures Occurrences(s + [t], x) == Occurrences(s, x) + if x == t then 1 else 0
  {
  }

  lemma SleepOccurrences(d: Delay, t: nat, n: Tick, x: nat)
    ensures var d' := Sleep(d, t, n);
            Occurrences(Owners(d'.cur), x) + Occurrences(Owners(d'.ovf), x)
            == Occurrences(Owners(d.cur), x) + Occurrences(Owners(d.ovf), x) + if x == t then 1 else 0
  {
    var e := Entry(t, Add(d.tick, n));
    if e.value < d.tick {
      InsertedOccurrences(d.ovf, e);
    } else {
      InsertedOccurrences(d.cur, e);
    }
  }

  /** The loose task goes to a list that is not a ready list. */
  lemma PartitionClosedElsewhere(s: Sched, s': Sched, loose: set<nat>, t: nat)
    requires Partition(s, loose) && t in loose && t in s.tasks && s'.tasks == s.tasks && s'.ready == s.ready
    requires forall x :: OtherHomes(s', x) == OtherHomes(s, x) + if x == t then 1 else 0
    ensures Partition(s', loose - {t})
  {
    forall x ensures Homes(s', x) == Homes(s, x) + if x == t then 1 else 0 {
      assert OtherHomes(s', x) == OtherHomes(s, x) + if x == t then 1 else 0;
    }
    PartitionClosed(s, s', loose, t);
  }

  lemma AddSuspendedKeeps(s: Sched, loose: set<nat>, t: nat)
    requires Core(s, loose) && t in loose && t in s.tasks
    ensures Core(AddSuspended(s, t), loose - {t})
  {
    var s' := AddSuspended(s, t);
    forall x ensures OtherHomes(s', x) == OtherHomes(s, x) + if x == t then 1 else 0 {
      AppendOccurrences(s.suspended, t, x);
    }
    PartitionClosedElsewhere(s, s', loose, t);
    ReadySideKept(s, s');
  }

  lemma AddTerminatingKeeps(s: Sched, loose: set<nat>, t: nat)
    requires Core(s, loose) && t in loose && t in s.tasks && t !in s.events && t !in s.pending
    ensures Core(AddTerminating(s, t), loose - {t})
  {
    var s' := AddTerminating(s, t);
    forall x ensures OtherHomes(s', x) == OtherHomes(s, x) + if x == t then 1 else 0 {
      AppendOccurrences(s.terminating, t, x);
    }
    PartitionClosedElsewhere(s, s', loose, t);
    ReadySideKept(s, s');
  }

  lemma AddDelayedKeeps(s: Sched, loose: set<nat>, t: nat, n: Tick)
    requires Core(s, loose) && t in loose && t in s.tasks
    ensures Core(AddDelayed(s, t, n), loose - {t})
  {
    var s' := AddDelayed(s, t, n);
    forall x ensures OtherHomes(s', x) == OtherHomes(s, x) + if x == t then 1 else 0 {
      SleepOccurrences(s.delay, t, n, x);
    }
    PartitionClosedElsewhere(s, s', loose, t);
    ReadySideKept(s, s');
  }

  lemma ClearEventKeeps(s: Sched, t: nat, loose: set<nat>)
    requires Core(s, loose)
    ensures Core(ClearEvent(s, t), loose)
    ensures t !in ClearEvent(s, t).events && t !in ClearEvent(s, t).pending
  {
    var s' := ClearEvent(s, t);
    WithoutMembersOnly(s.pending, t);
    forall x ensures Occurrences(s'.pending, x) <= 1 {
      WithoutOccurrences(s.pending, t, x);
    }
    EventsFewer(s, s');
    SameLists(s, s', loose);
  }

  /** The partition is a matter of the state lists only, and so is the order by priority. */
  lemma SameLists(s: Sched, s': Sched, loose: set<nat>)
    requires Partition(s, loose) && ByPriority(s)
    requires s'.tasks == s.tasks && s'.ready == s.ready && s'.top == s.top
    requires Owners(s'.delay.cur) == Owners(s.delay.cur) && Owners(s'.delay.ovf) == Owners(s.delay.ovf)
    requires s'.suspended == s.suspended && s'.terminating == s.terminating
    ensures Partition(s', loose) && ByPriority(s')
  {
    forall x ensures OtherHomes(s', x) == OtherHomes(s, x) {}
    forall x ensures Homes(s', x) == Homes(s, x) {
      assert OtherHomes(s', x) == OtherHomes(s, x);
    }
  }

  /** The other fields do not matter. */
  lemma CoreKept(s: Sched, s': Sched, loose: set<nat>)
    requires Core(s, loose)
    requires s' == s.(delay := s'.delay, depth := s'.depth, pended := s'.pended, yieldPending := s'.yieldPending)
    requires Owners(s'.delay.cur) == Owners(s.delay.cur) && Owners(s'.delay.ovf) == Owners(s.delay.ovf)
    ensures Core(s', loose)
  {
    SameLists(s, s', loose);
    forall x | x in s.events || x in s.pending ensures Blocked(s', x) {
      assert Blocked(s, x);
    }
  }

  lemma EventsFewer(s: Sched, s': Sched)
    requires EventsMatch(s) && s' == s.(events := s'.events, pending := s'.pending)
    requires s'.events <= s.events && (forall x :: x in s'.pending ==> x in s.pending)
    requires forall x :: Occurrences(s'.pending, x) <= 1
    ensures EventsMatch(s')
  {
    forall x | x in s'.events || x in s'.pending ensures Blocked(s', x) {
      assert Blocked(s, x);
    }
  }

  lemma MakeReadyKeeps(s: Sched, t: nat)
    requires Core(s, {}) && t in s.tasks
    ensures Core(MakeReady(s, t), {})
    ensures Delays.Inv(s.delay) ==> Delays.Inv(MakeReady(s, t).delay)
  {
    ClearEventKeeps(s, t, {});
    UnlinkKeeps(ClearEvent(s, t), t);
    AddReadyKeeps(Unlink(ClearEvent(s, t), t), {t}, t);
    assert {t} - {t} == {};
  }

  /** A task on none of the ready lists changes priority. */
  function SetPriority(s: Sched, t: nat, p: Priority): Sched
    requires t in s.tasks
  {
    s.(tasks := s.tasks[t := s.tasks[t].(priority := p)])
  }

  /** Another map of tasks that agrees on the priority of whoever is ready. */
  lemma OtherTasksSides(s: Sched, s': Sched)
    requires ByPriority(s) && EventsMatch(s)
    requires s' == s.(tasks := s'.tasks, count := s'.count)
    requires forall x :: InReady(s, x) ==> x in s'.tasks && s'.tasks[x] == s.tasks[x]
    requires forall x :: x in s.events || x in s.pending ==> x in s'.tasks
    ensures ByPriority(s') && EventsMatch(s')
  {
    forall p, x | 0 <= p < MAX_PRIORITIES && x in s'.ready[p].items ensures x in s'.tasks && s'.tasks[x].priority == p {
      assert x in s.tasks && s.tasks[x].priority == p && InReady(s, x);
    }
    forall x | x in s.events || x in s.pending ensures Blocked(s', x) {
      assert Blocked(s, x);
    }
  }

  lemma SetPriorityHomes(s: Sched, t: nat, p: Priority, x: nat)
    requires ByPriority(s) && t in s.tasks && !InReady(s, t)
    ensures Homes(SetPriority(s, t, p), x) == Homes(s, x)
    ensures OtherHomes(SetPriority(s, t, p), x) == OtherHomes(s, x)
  {
    assert t !in s.ready[p].items;
  }

  lemma SetPriorityKeeps(s: Sched, loose: set<nat>, t: nat, p: Priority)
    requires Core(s, loose) && t in s.tasks && !InReady(s, t)
    ensures Core(SetPriority(s, t, p), loose)
  {
    var s' := SetPriority(s, t, p);
    assert s'.tasks.Keys == s.tasks.Keys;
    assert Partition(s', loose) by {
      forall x { SetPriorityHomes(s, t, p, x); }
    }
    SetPrioritySides(s, t, p);
    SameKeysSameCount(s.tasks, s'.tasks);
  }

  lemma SameKeysSameCount(m: map<nat, Tcb>, m': map<nat, Tcb>)
    requires m.Keys == m'.Keys
    ensures |m| == |m'|
  {
    assert |m| == |m.Keys| && |m'| == |m'.Keys|;
  }

  lemma SetPrioritySides(s: Sched, t: nat, p: Priority)
    requires ByPriority(s) && EventsMatch(s) && t in s.tasks && !InReady(s, t)
    ensures ByPriority(SetPriority(s, t, p)) && EventsMatch(SetPriority(s, t, p))
  {
    forall x | x in s.events || x in s.pending ensures x in s.tasks {
      assert Blocked(s, x);
    }
    forall x | InReady(s, x) ensures x in s.tasks && x != t {
      assert x in s.ready[PriorityOf(s, x)].items;
    }
    OtherTasksSides(s, SetPriority(s, t, p));
  }

  /** A task's state item that is on no list disappears with its task ... */
  function DropTask(s: Sched, t: nat): Sched {
    s.(tasks := s.tasks - {t}, count := if s.count == 0 then 0 else s.count - 1)
  }

  /** ... and a new task starts on none. */
  function NewTask(s: Sched, t: nat, p: Priority): Sched {
    s.(tasks := s.tasks[t := Tcb(p, p, 0)], count := s.count + 1)
  }

  lemma DropTaskHomes(s: Sched, t: nat, x: nat)
    requires x != t
    ensures Homes(DropTask(s, t), x) == Homes(s, x)
    ensures OtherHomes(DropTask(s, t), x) == OtherHomes(s, x)
  {
  }

  lemma DropTaskPartition(s: Sched, t: nat)
    requires Partition(s, {t}) && t in s.tasks
    ensures Partition(DropTask(s, t), {})
  {
    var s' := DropTask(s, t);
    forall x | x != t ensures Homes(s', x) == Homes(s, x) && OtherHomes(s', x) == OtherHomes(s, x) {
      DropTaskHomes(s, t, x);
    }
    assert Homes(s, t) == 0 && OtherHomes(s', t) == OtherHomes(s, t);
  }

  lemma DropTaskSides(s: Sched, t: nat)
    requires ByPriority(s) && EventsMatch(s)
    requires t !in s.events && t !in s.pending && !InReady(s, t)
    ensures ByPriority(DropTask(s, t)) && EventsMatch(DropTask(s, t))
  {
    forall x | x in s.events || x in s.pending ensures x in s.tasks && x != t {
      assert Blocked(s, x);
    }
    forall x | InReady(s, x) ensures x in s.tasks && x != t {
      assert x in s.ready[PriorityOf(s, x)].items;
    }
    OtherTasksSides(s, DropTask(s, t));
  }

  lemma OneFewer(m: map<nat, Tcb>, t: nat)
    requires t in m
    ensures |m - {t}| + 1 == |m|
  {
    var m' := m - {t};
    assert m'.Keys == m.Keys - {t};
    assert |m'| == |m'.Keys| && |m| == |m.Keys|;
  }

  lemma OneMore(m: map<nat, Tcb>, t: nat, c: Tcb)
    requires t !in m
    ensures |m[t := c]| == |m| + 1
  {
    var m' := m[t := c];
    assert m'.Keys == m.Keys + {t};
    assert |m'| == |m'.Keys| && |m| == |m.Keys|;
  }

  lemma DropTaskKeeps(s: Sched, t: nat)
    requires Core(s, {t}) && t in s.tasks && t != s.current && t !in s.events && t !in s.pending
    ensures s.count > 0 && Core(DropTask(s, t), {})
  {
    OneFewer(s.tasks, t);
    LooseIsNowhere(s, {t}, t);
    DropTaskPartition(s, t);
    DropTaskSides(s, t);
  }

  lemma NewTaskHomes(s: Sched, t: nat, p: Priority, x: nat)
    requires Partition(s, {}) && ByPriority(s) && t !in s.tasks
    ensures x in s.tasks || x == t ==> Homes(NewTask(s, t, p), x) == if x == t then 0 else 1
    ensures OtherHomes(NewTask(s, t, p), x) == OtherHomes(s, x)
  {
    var s' := NewTask(s, t, p);
    assert OtherHomes(s', x) == OtherHomes(s, x);
    if x == t {
      assert t !in s.ready[p].items && OtherHomes(s, t) == 0;
    } else if x in s.tasks {
      assert Homes(s, x) == 1;
    }
  }

  lemma NewTaskPartition(s: Sched, t: nat, p: Priority)
    requires Partition(s, {}) && ByPriority(s) && t !in s.tasks
    ensures Partition(NewTask(s, t, p), {t})
  {
    forall x { NewTaskHomes(s, t, p, x); }
  }

  lemma NewTaskSides(s: Sched, t: nat, p: Priority)
    requires ByPriority(s) && EventsMatch(s) && t !in s.tasks
    ensures ByPriority(NewTask(s, t, p)) && EventsMatch(NewTask(s, t, p))
    ensures t !in s.events && t !in s.pending
  {
    forall x | x in s.events || x in s.pending ensures x in s.tasks && x != t {
      assert Blocked(s, x);
    }
    forall x | InReady(s, x) ensures x in s.tasks && x != t {
      assert x in s.ready[PriorityOf(s, x)].items;
    }
    OtherTasksSides(s, NewTask(s, t, p));
  }

  lemma NewTaskKeeps(s: Sched, t: nat, p: Priority)
    requires Core(s, {}) && t !in s.tasks
    ensures Core(NewTask(s, t, p), {t})
    ensures t !in s.events && t !in s.pending
  {
    OneMore(s.tasks, t, Tcb(p, p, 0));
    NewTaskPartition(s, t, p);
    NewTaskSides(s, t, p);
  }

  lemma AddEventKeeps(s: Sched, t: nat, loose: set<nat>)
    requires Core(s, loose) && Blocked(s, t) && t !in s.pending
    ensures Core(s.(events := s.events + {t}), loose)
  {
    var s' := s.(events := s.events + {t});
    SameLists(s, s', loose);
    forall x | x in s'.events || x in s'.pending ensures Blocked(s', x) {
      assert Blocked(s, x);
    }
  }

  lemma AddPendingKeeps(s: Sched, t: nat, loose: set<nat>)
    requires Core(s, loose) && Blocked(s, t) && t !in s.pending && t !in s.events
    ensures Core(s.(pending := s.pending + [t]), loose)
  {
    var s' := s.(pending := s.pending + [t]);
    SameLists(s, s', loose);
    forall x | x in s'.events || x in s'.pending ensures Blocked(s', x) {
      assert Blocked(s, x);
    }
    forall x ensures Occurrences(s'.pending, x) <= 1 {
      AppendOccurrences(s.pending, t, x);
    }
  }
}
