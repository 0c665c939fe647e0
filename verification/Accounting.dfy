/** Two conservation laws of the scheduler: the task count is the number of items on the lists, and
    ticks taken while the scheduler is suspended come to the same as ticks taken while it runs. */
module Accounting {
  import opened Lists
  import opened Delays
  import opened SchedState
  import opened Scheduler

  // ---------------------------------------------------------------- the task count

  /** The items of the first `n` ready lists. */
  function AllReady(rs: seq<ReadyList>, n: nat): seq<nat>
    requires n <= |rs|
  {
    if n == 0 then [] else AllReady(rs, n - 1) + rs[n - 1].items
  }

  function ReadyLength(rs: seq<ReadyList>, n: nat): nat
    requires n <= |rs|
  {
    if n == 0 then 0 else ReadyLength(rs, n - 1) + |rs[n - 1].items|
  }

  function AsleepOrStopped(s: Sched): seq<nat> {
    Owners(s.delay.cur) + Owners(s.delay.ovf) + s.suspended + s.terminating
  }

  /** The sum of the lengths of all the state lists. */
  function TotalLength(s: Sched): nat {
    ReadyLength(s.ready, MAX_PRIORITIES) + |s.delay.cur| + |s.delay.ovf| + |s.suspended| + |s.terminating|
  }

  lemma {:induction false} AllReadyLength(rs: seq<ReadyList>, n: nat)
    requires n <= |rs|
    ensures |AllReady(rs, n)| == ReadyLength(rs, n)
  {
    if n > 0 {
      AllReadyLength(rs, n - 1);
    }
  }

  /** A task found only on the list of priority `p` is found that often in all of them. */
  lemma {:induction false} AllReadyOccurrences(rs: seq<ReadyList>, n: nat, t: nat, p: nat)
    requires n <= |rs| && p < |rs|
    requires forall q :: 0 <= q < |rs| && q != p ==> t !in rs[q].items
    ensures Occurrences(AllReady(rs, n), t) == if p < n then Occurrences(rs[p].items, t) else 0
  {
    if n > 0 {
      AllReadyOccurrences(rs, n - 1, t, p);
    }
  }

  lemma OccurrencesConcat(a: seq<nat>, b: seq<nat>, t: nat)
    ensures Occurrences(a + b, t) == Occurrences(a, t) + Occurrences(b, t)
  {
  }

  lemma OtherItemsCounted(s: Sched, t: nat)
    ensures Occurrences(AsleepOrStopped(s), t) == OtherHomes(s, t)
  {
    var cur, ovf := Owners(s.delay.cur), Owners(s.delay.ovf);
    OccurrencesConcat(cur, ovf, t);
    OccurrencesConcat(cur + ovf, s.suspended, t);
    OccurrencesConcat(cur + ovf + s.suspended, s.terminating, t);
    hide Occurrences;
  }

  lemma ReadyItemsCounted(s: Sched, t: nat)
    requires ByPriority(s)
    ensures Occurrences(AllReady(s.ready, MAX_PRIORITIES), t) == Occurrences(s.ready[PriorityOf(s, t)].items, t)
    ensures t !in s.tasks ==> Occurrences(AllReady(s.ready, MAX_PRIORITIES), t) == 0
  {
    forall q | 0 <= q < MAX_PRIORITIES && q != PriorityOf(s, t) ensures t !in s.ready[q].items {}
    assert t in s.ready[PriorityOf(s, t)].items ==> t in s.tasks;
    AllReadyOccurrences(s.ready, MAX_PRIORITIES, t, PriorityOf(s, t));
  }

  lemma EveryItemCounted(s: Sched, t: nat)
    requires Partition(s, {}) && ByPriority(s)
    ensures Occurrences(AllReady(s.ready, MAX_PRIORITIES) + AsleepOrStopped(s), t) == if t in s.tasks then 1 else 0
  {
    hide AllReady, AsleepOrStopped, OtherHomes, ByPriority, Occurrences;
    ReadyItemsCounted(s, t);
    OccurrencesConcat(AllReady(s.ready, MAX_PRIORITIES), AsleepOrStopped(s), t);
    OtherItemsCounted(s, t);
    assert t in s.tasks ==> Homes(s, t) == 1;
  }

  lemma EachOnce(q: seq<nat>, ts: set<nat>)
    requires forall t :: Occurrences(q, t) == if t in ts then 1 else 0
    ensures |q| == |ts|
  {
    forall t ensures multiset(q)[t] == multiset(ts)[t] {
      assert multiset(q)[t] == Occurrences(q, t);
    }
    assert multiset(q) == multiset(ts);
  }

  /** The kernel's task count is the sum of the lengths of its lists, tasks that have deleted
      themselves but not yet been cleaned up included. */
  lemma CountIsTotalLength(s: Sched)
    requires Core(s, {})
    ensures s.count == TotalLength(s)
  {
    var q := AllReady(s.ready, MAX_PRIORITIES) + AsleepOrStopped(s);
    forall t ensures Occurrences(q, t) == if t in s.tasks.Keys then 1 else 0 {
      EveryItemCounted(s, t);
    }
    EachOnce(q, s.tasks.Keys);
    AllReadyLength(s.ready, MAX_PRIORITIES);
    SameKeysSameCount(s.tasks, s.tasks);
    assert |s.tasks| == |s.tasks.Keys|;
  }

  // ---------------------------------------------------------------- ticks while suspended

  /** `k` ticks while the scheduler is not suspended, whatever switches they call for. */
  function RunningTicks(s: Sched, k: nat): Sched {
    if k == 0 then s else RunningTick(RunningTicks(s, k - 1)).0
  }

  /** `k` tick interrupts, whether or not the scheduler is suspended. */
  function TickInterrupts(s: Sched, k: nat): Sched {
    if k == 0 then s else TickInterrupt(TickInterrupts(s, k - 1)).0
  }

  /** The same state, but for the note that a switch is wanted. */
  predicate SameButYield(s: Sched, s': Sched) {
    s' == s.(yieldPending := s'.yieldPending)
  }

  lemma {:induction false} ReadyAllIgnoresYield(s: Sched, s': Sched, ts: seq<nat>)
    requires SameButYield(s, s')
    ensures SameButYield(ReadyAll(s, ts), ReadyAll(s', ts))
    decreases |ts|
  {
    if ts != [] {
      var a, a' := AddReady(ClearEvent(s, ts[0]), ts[0]), AddReady(ClearEvent(s', ts[0]), ts[0]);
      assert SameButYield(a, a');
      ReadyAllIgnoresYield(a, a', ts[1..]);
    }
  }

  lemma TickIgnoresYield(s: Sched, s': Sched)
    requires SameButYield(s, s')
    ensures SameButYield(RunningTick(s).0, CatchUpOne(s'))
  {
    var (d, woken) := IncrementTick(s.delay);
    ReadyAllIgnoresYield(s.(delay := d), s'.(delay := d), woken);
    hide ReadyAll, IncrementTick;
  }

  lemma {:induction false} CatchUpIsRunning(s: Sched, k: nat)
    ensures SameButYield(RunningTicks(s, k), CatchUp(s, k))
  {
    hide SameButYield, RunningTick, CatchUpOne;
    if k == 0 {
      SameIsSame(s);
    } else {
      CatchUpIsRunning(s, k - 1);
      TickIgnoresYield(RunningTicks(s, k - 1), CatchUp(s, k - 1));
    }
  }

  lemma SameIsSame(s: Sched)
    ensures SameButYield(s, s)
  {
  }

  lemma {:induction false} SuspendedTicks(s: Sched, k: nat)
    requires s.depth > 0
    ensures TickInterrupts(s, k) == s.(pended := s.pended + k)
  {
    if k > 0 {
      SuspendedTicks(s, k - 1);
    }
  }

  lemma {:induction false} UnsuspendedTicks(s: Sched, k: nat)
    requires s.depth == 0
    ensures TickInterrupts(s, k) == RunningTicks(s, k) && RunningTicks(s, k).depth == 0
  {
    hide RunningTick;
    if k > 0 {
      UnsuspendedTicks(s, k - 1);
      TickKeepsDepth(RunningTicks(s, k - 1));
    }
  }

  lemma {:induction false} ReadyAllKeepsDepth(s: Sched, ts: seq<nat>)
    ensures ReadyAll(s, ts).depth == s.depth && ReadyAll(s, ts).pended == s.pended
    decreases |ts|
  {
    if ts != [] {
      ReadyAllKeepsDepth(AddReady(ClearEvent(s, ts[0]), ts[0]), ts[1..]);
    }
  }

  lemma TickKeepsDepth(s: Sched)
    ensures RunningTick(s).0.depth == s.depth && RunningTick(s).0.pended == s.pended
  {
    var (d, woken) := IncrementTick(s.delay);
    ReadyAllKeepsDepth(s.(delay := d), woken);
    hide IncrementTick;
  }

  lemma {:induction false} CatchUpKeepsPended(s: Sched, k: nat)
    ensures CatchUp(s, k).pended == s.pended
  {
    hide RunningTick;
    if k > 0 {
      CatchUpKeepsPended(s, k - 1);
      TickKeepsDepth(CatchUp(s, k - 1));
    }
  }

  /** Ticks taken while the scheduler is suspended, once it is resumed, have done exactly what they
      would have done had it been running: the same count, the same lists in the same order. */
  lemma SuspensionLosesNoTick(s: Sched, k: nat)
    requires s.depth == 0 && s.pending == [] && s.pended == 0
    ensures SameButYield(TickInterrupts(s, k), ResumeAll(TickInterrupts(SuspendAll(s), k)))
  {
    var held := SuspendAll(s).(pended := k);
    SuspendedTicks(SuspendAll(s), k);
    UnsuspendedTicks(s, k);
    assert Reopened(held) == s.(pended := k);
    CatchUpIgnoresPended(s, k, k);
    CatchUpIsRunning(s, k);
    CatchUpKeepsPended(s, k);
    hide CatchUp, RunningTicks, TickInterrupts, Reopened;
  }

  lemma {:induction false} ReadyAllIgnoresPended(s: Sched, ts: seq<nat>, n: nat)
    ensures ReadyAll(s.(pended := n), ts) == ReadyAll(s, ts).(pended := n)
    decreases |ts|
  {
    if ts != [] {
      var a := AddReady(ClearEvent(s, ts[0]), ts[0]);
      assert AddReady(ClearEvent(s.(pended := n), ts[0]), ts[0]) == a.(pended := n);
      ReadyAllIgnoresPended(a, ts[1..], n);
    }
  }

  lemma {:induction false} AnyIgnoresPended(s: Sched, ts: seq<nat>, n: nat)
    ensures AnyAsUrgent(s.(pended := n), ts) == AnyAsUrgent(s, ts)
    decreases |ts|
  {
    if ts != [] {
      AnyIgnoresPended(s, ts[1..], n);
    }
  }

  lemma CatchUpOneIgnoresPended(s: Sched, n: nat)
    ensures CatchUpOne(s.(pended := n)) == CatchUpOne(s).(pended := n)
  {
    var (d, woken) := IncrementTick(s.delay);
    ReadyAllIgnoresPended(s.(delay := d), woken, n);
    AnyIgnoresPended(s, woken, n);
    assert s.(pended := n).(delay := d) == s.(delay := d).(pended := n);
    hide ReadyAll, AnyAsUrgent, IncrementTick;
  }

  lemma {:induction false} CatchUpIgnoresPended(s: Sched, k: nat, n: nat)
    ensures CatchUp(s.(pended := n), k) == CatchUp(s, k).(pended := n)
  {
    hide CatchUpOne;
    if k > 0 {
      CatchUpIgnoresPended(s, k - 1, n);
      CatchUpOneIgnoresPended(CatchUp(s, k - 1), n);
    }
  }
}
