/** Priority inheritance over whole runs: the mutexes of queue.c and the three priority functions of
    tasks.c, with the restriction the kernel documents - no task waits for a mutex while it holds
    another - and takes made by the task the scheduler selects. */
module Mutexes {
  import opened Ticks
  import opened Lists
  import opened SchedState
  import Scheduler

  datatype Owner = NoHolder | Holder(t: nat)

  /** `waiters` is the event list, in the order of its values; `woken` are the tasks taken off it that
      have not yet tried again. */
  datatype Mutex = Mutex(owner: Owner, waiters: seq<Entry>, woken: set<nat>)

  datatype State = State(tasks: seq<Tcb>, ready: set<nat>, mutexes: seq<Mutex>)

  // ---------------------------------------------------------------- the three priority functions

  /** The holder of a mutex inherits from a task about to wait. */
  function Inherited(holder: Tcb, p: Priority): Tcb {
    if holder.priority < p then holder.(priority := p) else holder
  }

  /** A mutex is given back; what was inherited goes with the last one. */
  function Disinherited(c: Tcb): Tcb {
    var left := if c.mutexesHeld == 0 then 0 else c.mutexesHeld - 1;
    if c.priority != c.base && left == 0 then c.(mutexesHeld := left, priority := c.base)
    else c.(mutexesHeld := left)
  }

  /** A waiter gave up: the holder drops to its own priority or that of the most urgent who still
      waits, but only if it holds just the one mutex. */
  function Lowered(c: Tcb, highest: Priority): Tcb {
    var p := if c.base < highest then highest else c.base;
    if c.priority != p && c.mutexesHeld == 1 then c.(priority := p) else c
  }

  // ---------------------------------------------------------------- steps

  /** The value of a waiter's event item; the list puts the most urgent first. */
  function EventValue(p: Priority): Tick { MAX_PRIORITIES - p }

  function HighestWaiting(q: Mutex): Priority {
    if q.waiters != [] && 1 <= q.waiters[0].value <= MAX_PRIORITIES then MAX_PRIORITIES - q.waiters[0].value else 0
  }

  function Take(s: State, t: nat, m: nat): State
    requires t < |s.tasks| && m < |s.mutexes|
  {
    var q, c := s.mutexes[m], s.tasks[t];
    s.(mutexes := s.mutexes[m := q.(owner := Holder(t), woken := q.woken - {t})],
       tasks := s.tasks[t := c.(mutexesHeld := c.mutexesHeld + 1)])
  }

  function Give(s: State, t: nat, m: nat): State
    requires t < |s.tasks| && m < |s.mutexes|
  {
    var q := s.mutexes[m];
    var s1 := s.(tasks := s.tasks[t := Disinherited(s.tasks[t])]);
    if q.waiters == [] then s1.(mutexes := s.mutexes[m := q.(owner := NoHolder)])
    else
      var w := q.waiters[0].owner;
      s1.(mutexes := s.mutexes[m := Mutex(NoHolder, q.waiters[1..], q.woken + {w})], ready := s.ready + {w})
  }

  function WaitOn(s: State, t: nat, m: nat): State
    requires t < |s.tasks| && m < |s.mutexes| && s.mutexes[m].owner.Holder? && s.mutexes[m].owner.t < |s.tasks|
  {
    var q, p := s.mutexes[m], s.tasks[t].priority;
    var h := q.owner.t;
    State(s.tasks[h := Inherited(s.tasks[h], p)], s.ready - {t},
          s.mutexes[m := q.(waiters := InsertSorted(q.waiters, Entry(t, EventValue(p))), woken := q.woken - {t})])
  }

  /** The tick finds that the wait of `t` has timed out. */
  function TimeOut(s: State, t: nat, m: nat): State
    requires m < |s.mutexes|
  {
    var q := s.mutexes[m];
    s.(mutexes := s.mutexes[m := q.(waiters := WithoutOwner(q.waiters, t))], ready := s.ready + {t})
  }

  /** A task that has timed out withdraws the priority it lent. */
  function Expire(s: State, m: nat): State
    requires m < |s.mutexes|
  {
    var q := s.mutexes[m];
    if q.owner.Holder? && q.owner.t < |s.tasks| then
      s.(tasks := s.tasks[q.owner.t := Lowered(s.tasks[q.owner.t], HighestWaiting(q))])
    else s
  }

  /** A woken task finds the mutex taken again. */
  function TryInVain(s: State, t: nat, m: nat): State
    requires m < |s.mutexes|
  {
    s.(mutexes := s.mutexes[m := s.mutexes[m].(woken := s.mutexes[m].woken - {t})])
  }

  datatype Step =
    | Takes(t: nat, m: nat) | Gives(t: nat, m: nat) | Waits(t: nat, m: nat)
    | TimesOut(t: nat, m: nat) | Expires(m: nat) | TriesInVain(t: nat, m: nat)
    | Blocks(t: nat) | Unblocks(t: nat)

  function Prio(s: State, t: nat): Priority {
    if t < |s.tasks| then s.tasks[t].priority else 0
  }

  function Held(s: State, t: nat): nat {
    if t < |s.tasks| then s.tasks[t].mutexesHeld else 0
  }

  /** No ready task is more urgent. */
  ghost predicate Selected(s: State, t: nat) {
    t in s.ready && t < |s.tasks| && forall r :: r in s.ready ==> Prio(s, r) <= Prio(s, t)
  }

  /** A task woken from the list of one mutex next tries that one. */
  ghost predicate WokenOnlyBy(s: State, t: nat, m: nat) {
    forall i :: 0 <= i < |s.mutexes| && i != m ==> t !in s.mutexes[i].woken
  }

  ghost predicate Possible(s: State, e: Step) {
    match e
    case Takes(t, m) => m < |s.mutexes| && s.mutexes[m].owner == NoHolder && Selected(s, t) && WokenOnlyBy(s, t, m)
    case Gives(t, m) => m < |s.mutexes| && s.mutexes[m].owner == Holder(t) && t in s.ready
    case Waits(t, m) =>
      m < |s.mutexes| && s.mutexes[m].owner.Holder? && t in s.ready && t < |s.tasks| && Held(s, t) == 0
      && WokenOnlyBy(s, t, m)
    case TimesOut(t, m) => m < |s.mutexes| && t in Owners(s.mutexes[m].waiters)
    case Expires(m) => m < |s.mutexes|
    case TriesInVain(t, m) => m < |s.mutexes| && s.mutexes[m].owner.Holder?
    case Blocks(t) => t in s.ready && (forall i :: 0 <= i < |s.mutexes| ==> t !in s.mutexes[i].woken)
    case Unblocks(t) => t < |s.tasks| && (forall i :: 0 <= i < |s.mutexes| ==> t !in Owners(s.mutexes[i].waiters))
  }

  // ---------------------------------------------------------------- the invariant

  /** How many mutexes name `t` as their holder. */
  function Holdings(ms: seq<Mutex>, t: nat): nat {
    if ms == [] then 0 else (if ms[0].owner == Holder(t) then 1 else 0) + Holdings(ms[1..], t)
  }

  /** How many places `t` has on waiting lists. */
  function Waitings(ms: seq<Mutex>, t: nat): nat {
    if ms == [] then 0 else Occurrences(Owners(ms[0].waiters), t) + Waitings(ms[1..], t)
  }

  predicate IsReady(s: State, t: nat) { t in s.ready }

  /** The books of one task. */
  predicate TaskOk(s: State, t: nat) {
    && Held(s, t) == Holdings(s.mutexes, t)
    && Waitings(s.mutexes, t) + (if IsReady(s, t) then 1 else 0) <= 1
    && (t < |s.tasks| ==>
          && s.tasks[t].base <= s.tasks[t].priority
          && (s.tasks[t].mutexesHeld == 0 ==> s.tasks[t].priority == s.tasks[t].base))
    && (t >= |s.tasks| ==> !IsReady(s, t) && Waitings(s.mutexes, t) == 0)
  }

  /** Every waiter is filed under its priority, and holds nothing. */
  predicate WaitersOk(s: State, w: seq<Entry>) {
    w == [] ||
    (w[0].owner < |s.tasks| && Held(s, w[0].owner) == 0 && w[0].value == EventValue(Prio(s, w[0].owner))
     && WaitersOk(s, w[1..]))
  }

  /** No waiter is more urgent than `p`. */
  predicate WaitersBelow(s: State, w: seq<Entry>, p: Priority) {
    w == [] || (Prio(s, w[0].owner) <= p && WaitersBelow(s, w[1..], p))
  }

  ghost predicate WokenOk(s: State, q: Mutex) {
    forall t :: t in q.woken ==> t in s.ready && t < |s.tasks| && Held(s, t) == 0
  }

  /** A free mutex that is waited for is about to be tried by someone at least as urgent as all. */
  ghost predicate Contended(s: State, q: Mutex) {
    q.owner == NoHolder && q.waiters != [] ==> exists w :: w in q.woken && WaitersBelow(s, q.waiters, Prio(s, w))
  }

  /** The books of one mutex; the holder is at least as urgent as every waiter. */
  ghost predicate MutexOk(s: State, q: Mutex) {
    && Sorted(q.waiters) && WaitersOk(s, q.waiters) && WokenOk(s, q) && Contended(s, q)
    && (q.owner.Holder? ==> q.owner.t < |s.tasks| && WaitersBelow(s, q.waiters, Prio(s, q.owner.t)))
  }

  ghost predicate Inv(s: State) {
    && (forall t :: TaskOk(s, t))
    && (forall m :: 0 <= m < |s.mutexes| ==> MutexOk(s, s.mutexes[m]))
  }

  // ---------------------------------------------------------------- counting

  lemma {:induction false} HoldingsAfter(ms: seq<Mutex>, m: nat, q: Mutex, t: nat)
    requires m < |ms|
    ensures Holdings(ms[m := q], t) + (if ms[m].owner == Holder(t) then 1 else 0)
         == Holdings(ms, t) + (if q.owner == Holder(t) then 1 else 0)
  {
    if m > 0 {
      HoldingsAfter(ms[1..], m - 1, q, t);
      assert ms[m := q][1..] == ms[1..][m - 1 := q];
    } else {
      assert ms[m := q][1..] == ms[1..];
    }
  }

  lemma {:induction false} WaitingsAfter(ms: seq<Mutex>, m: nat, q: Mutex, t: nat)
    requires m < |ms|
    ensures Waitings(ms[m := q], t) + Occurrences(Owners(ms[m].waiters), t)
         == Waitings(ms, t) + Occurrences(Owners(q.waiters), t)
  {
    if m > 0 {
      WaitingsAfter(ms[1..], m - 1, q, t);
      assert ms[m := q][1..] == ms[1..][m - 1 := q];
    } else {
      assert ms[m := q][1..] == ms[1..];
    }
  }

  /** A holder named by the mutex at `m` holds something; a waiter on it has a place. */
  lemma {:induction false} CountedAt(ms: seq<Mutex>, m: nat, t: nat)
    requires m < |ms|
    ensures ms[m].owner == Holder(t) ==> Holdings(ms, t) >= 1
    ensures Occurrences(Owners(ms[m].waiters), t) <= Waitings(ms, t)
  {
    hide Occurrences, Owners;
    if m > 0 {
      CountedAt(ms[1..], m - 1, t);
      assert ms[1..][m - 1] == ms[m];
    }
  }

  /** A task named by just one mutex is named by no other. */
  lemma {:induction false} NamedOnce(ms: seq<Mutex>, m: nat, i: nat, t: nat)
    requires m < |ms| && i < |ms| && m != i && ms[m].owner == Holder(t) && ms[i].owner == Holder(t)
    ensures Holdings(ms, t) >= 2
  {
    if m == 0 {
      CountedAt(ms[1..], i - 1, t);
    } else if i == 0 {
      CountedAt(ms[1..], m - 1, t);
    } else {
      NamedOnce(ms[1..], m - 1, i - 1, t);
    }
  }

  // ---------------------------------------------------------------- mutexes that a step does not touch

  predicate Matters(q: Mutex, t: nat) {
    t in Owners(q.waiters) || t in q.woken
  }

  predicate SameTask(s: State, s': State, t: nat) {
    Prio(s', t) == Prio(s, t) && Held(s', t) == Held(s, t)
  }

  lemma {:induction false} WaitersKept(s: State, s': State, w: seq<Entry>)
    requires WaitersOk(s, w) && |s'.tasks| == |s.tasks|
    requires forall t :: t in Owners(w) ==> SameTask(s, s', t)
    ensures WaitersOk(s', w)
  {
    if w != [] {
      assert Owners(w) == [w[0].owner] + Owners(w[1..]);
      assert SameTask(s, s', w[0].owner);
      WaitersKept(s, s', w[1..]);
    }
  }

  lemma {:induction false} BelowKept(s: State, s': State, w: seq<Entry>, p: Priority, p': Priority)
    requires WaitersBelow(s, w, p) && p <= p'
    requires forall t :: t in Owners(w) ==> SameTask(s, s', t)
    ensures WaitersBelow(s', w, p')
  {
    if w != [] {
      assert Owners(w) == [w[0].owner] + Owners(w[1..]);
      assert SameTask(s, s', w[0].owner);
      BelowKept(s, s', w[1..], p, p');
    }
  }

  lemma MutexKept(s: State, s': State, q: Mutex)
    requires MutexOk(s, q) && |s'.tasks| == |s.tasks|
    requires forall t :: Matters(q, t) ==> SameTask(s, s', t)
    requires forall t :: t in q.woken ==> t in s'.ready
    requires q.owner.Holder? ==> Prio(s', q.owner.t) >= Prio(s, q.owner.t)
    ensures MutexOk(s', q)
  {
    forall t | t in Owners(q.waiters) ensures SameTask(s, s', t) { assert Matters(q, t); }
    WaitersKept(s, s', q.waiters);
    if q.owner.Holder? {
      BelowKept(s, s', q.waiters, Prio(s, q.owner.t), Prio(s', q.owner.t));
    } else if q.waiters != [] {
      var w :| w in q.woken && WaitersBelow(s, q.waiters, Prio(s, w));
      assert Matters(q, w);
      BelowKept(s, s', q.waiters, Prio(s, w), Prio(s', w));
    }
    WokenKept(s, s', q);
  }

  lemma WokenKept(s: State, s': State, q: Mutex)
    requires WokenOk(s, q) && |s'.tasks| == |s.tasks|
    requires forall t :: Matters(q, t) ==> SameTask(s, s', t)
    requires forall t :: t in q.woken ==> t in s'.ready
    ensures WokenOk(s', q)
  {
    forall t | t in q.woken ensures t in s'.ready && t < |s'.tasks| && Held(s', t) == 0 {
      assert Matters(q, t);
    }
  }

  /** Those who wait, or have just been woken, hold nothing. */
  lemma {:induction false} WaitersHoldNothing(s: State, w: seq<Entry>, t: nat)
    requires WaitersOk(s, w) && t in Owners(w)
    ensures t < |s.tasks| && Held(s, t) == 0
  {
    assert Owners(w) == [w[0].owner] + Owners(w[1..]);
    if t != w[0].owner {
      WaitersHoldNothing(s, w[1..], t);
    }
  }

  lemma HoldersDoNotMatter(s: State, q: Mutex, t: nat)
    requires MutexOk(s, q) && Held(s, t) > 0
    ensures !Matters(q, t)
  {
    if t in Owners(q.waiters) { WaitersHoldNothing(s, q.waiters, t); }
  }

  lemma OccursIfIn(w: seq<nat>, t: nat)
    ensures Occurrences(w, t) >= 1 <==> t in w
  {
  }

  /** A ready task waits nowhere. */
  lemma ReadyWaitsNowhere(s: State, i: nat, t: nat)
    requires TaskOk(s, t) && t in s.ready && i < |s.mutexes|
    ensures t !in Owners(s.mutexes[i].waiters)
  {
    CountedAt(s.mutexes, i, t);
    OccursIfIn(Owners(s.mutexes[i].waiters), t);
  }

  /** The records of one holder change, and nobody leaves the ready set: mutexes that it does not hold,
      or that find it no less urgent, are as they were. */
  lemma OtherMutexKept(s: State, s': State, x: nat, i: nat)
    requires Inv(s) && i < |s.mutexes| && |s'.tasks| == |s.tasks| && Held(s, x) > 0
    requires forall t :: t != x ==> SameTask(s, s', t)
    requires forall t :: t in s.mutexes[i].woken ==> t in s'.ready
    requires s.mutexes[i].owner == Holder(x) ==> Prio(s', x) >= Prio(s, x)
    ensures MutexOk(s', s.mutexes[i])
  {
    var q := s.mutexes[i];
    HoldersDoNotMatter(s, q, x);
    assert q.owner.Holder? && q.owner.t != x ==> SameTask(s, s', q.owner.t);
    hide MutexOk;
    MutexKept(s, s', q);
  }

  // ---------------------------------------------------------------- order on the waiting lists

  /** The head of the list is the most urgent. */
  lemma {:induction false} HeadIsHighest(s: State, w: seq<Entry>)
    requires Sorted(w) && WaitersOk(s, w) && w != []
    ensures WaitersBelow(s, w, Prio(s, w[0].owner))
  {
    if |w| > 1 {
      HeadIsHighest(s, w[1..]);
      BelowMore(s, w[1..], Prio(s, w[1].owner), Prio(s, w[0].owner));
    }
  }

  lemma {:induction false} BelowMore(s: State, w: seq<Entry>, p: Priority, p': Priority)
    requires WaitersBelow(s, w, p) && p <= p'
    ensures WaitersBelow(s, w, p')
  {
    if w != [] {
      BelowMore(s, w[1..], p, p');
    }
  }

  lemma {:induction false} InsertedOk(s: State, w: seq<Entry>, e: Entry, p: Priority)
    requires WaitersOk(s, w) && WaitersBelow(s, w, p)
    requires e.owner < |s.tasks| && Held(s, e.owner) == 0 && e.value == EventValue(Prio(s, e.owner))
    requires Prio(s, e.owner) <= p
    ensures WaitersOk(s, InsertSorted(w, e)) && WaitersBelow(s, InsertSorted(w, e), p)
  {
    if w != [] && w[0].value <= e.value {
      InsertedOk(s, w[1..], e, p);
      assert InsertSorted(w, e)[1..] == InsertSorted(w[1..], e);
    } else {
      assert InsertSorted(w, e)[1..] == w;
    }
  }

  lemma {:induction false} RemovedOk(s: State, w: seq<Entry>, t: nat, p: Priority)
    requires WaitersOk(s, w)
    ensures WaitersOk(s, WithoutOwner(w, t))
    ensures WaitersBelow(s, w, p) ==> WaitersBelow(s, WithoutOwner(w, t), p)
  {
    if w != [] {
      RemovedOk(s, w[1..], t, p);
      var r := WithoutOwner(w[1..], t);
      assert ([w[0]] + r)[1..] == r;
    }
  }

  /** The value of the head gives back its priority. */
  lemma HighestIsHead(s: State, q: Mutex)
    requires MutexOk(s, q)
    ensures WaitersBelow(s, q.waiters, HighestWaiting(q))
  {
    if q.waiters != [] {
      HeadIsHighest(s, q.waiters);
    }
  }

  // ---------------------------------------------------------------- taking

  lemma TakeTasks(s: State, t: nat, m: nat, x: nat)
    requires Inv(s) && Possible(s, Takes(t, m))
    ensures TaskOk(Take(s, t, m), x)
  {
    hide MutexOk, Holdings, Waitings, Owners;
    assert TaskOk(s, x) && TaskOk(s, t);
    var q := s.mutexes[m].(owner := Holder(t), woken := s.mutexes[m].woken - {t});
    HoldingsAfter(s.mutexes, m, q, x);
    WaitingsAfter(s.mutexes, m, q, x);
  }

  /** Whoever takes a mutex that is waited for is at least as urgent as those who wait, because one at
      least as urgent as they has been woken and is ready. */
  lemma TakerIsUrgent(s: State, q: Mutex, t: nat)
    requires MutexOk(s, q) && q.owner == NoHolder && Selected(s, t)
    ensures WaitersBelow(s, q.waiters, Prio(s, t))
  {
    if q.waiters != [] {
      var w :| w in q.woken && WaitersBelow(s, q.waiters, Prio(s, w));
      BelowMore(s, q.waiters, Prio(s, w), Prio(s, t));
    }
  }

  lemma TakeMutex(s: State, t: nat, m: nat, i: nat)
    requires Inv(s) && Possible(s, Takes(t, m)) && i < |s.mutexes|
    ensures MutexOk(Take(s, t, m), Take(s, t, m).mutexes[i])
  {
    hide Holdings, Waitings, Owners, WaitersOk, WaitersBelow, Sorted;
    var s' := Take(s, t, m);
    var q := s'.mutexes[i];
    assert MutexOk(s, s.mutexes[i]) && TaskOk(s, t);
    ReadyWaitsNowhere(s, i, t);
    if i == m {
      TakerIsUrgent(s, s.mutexes[m], t);
      assert MutexOk(s, q);
    }
    hide MutexOk;
    forall x | Matters(q, x) ensures SameTask(s, s', x) {}
    MutexKept(s, s', q);
  }

  // ---------------------------------------------------------------- giving

  function AfterGive(s: State, m: nat): Mutex
    requires m < |s.mutexes|
  {
    var q := s.mutexes[m];
    if q.waiters == [] then q.(owner := NoHolder)
    else Mutex(NoHolder, q.waiters[1..], q.woken + {q.waiters[0].owner})
  }

  function ReadyAfterGive(s: State, m: nat): set<nat>
    requires m < |s.mutexes|
  {
    var q := s.mutexes[m];
    if q.waiters == [] then s.ready else s.ready + {q.waiters[0].owner}
  }

  lemma GiveIs(s: State, t: nat, m: nat)
    requires t < |s.tasks| && m < |s.mutexes|
    ensures Give(s, t, m) == State(s.tasks[t := Disinherited(s.tasks[t])], ReadyAfterGive(s, m),
                                   s.mutexes[m := AfterGive(s, m)])
  {
  }

  lemma OwnerHolds(s: State, m: nat)
    requires Inv(s) && m < |s.mutexes| && s.mutexes[m].owner.Holder?
    ensures var t := s.mutexes[m].owner.t; t < |s.tasks| && Held(s, t) >= 1 && Held(s, t) == Holdings(s.mutexes, t)
  {
    var t := s.mutexes[m].owner.t;
    assert TaskOk(s, t) && MutexOk(s, s.mutexes[m]);
    CountedAt(s.mutexes, m, t);
  }

  lemma GiveTasks(s: State, t: nat, m: nat, x: nat)
    requires Inv(s) && Possible(s, Gives(t, m)) && t < |s.tasks|
    ensures TaskOk(Give(s, t, m), x)
  {
    hide MutexOk, Give, Waitings, Holdings;
    OwnerHolds(s, m);
    assert TaskOk(s, x);
    GiveIs(s, t, m);
    HoldingsAfter(s.mutexes, m, AfterGive(s, m), x);
    WaitingsAfter(s.mutexes, m, AfterGive(s, m), x);
    CountedAt(s.mutexes, m, x);
    FirstOccurrence(s.mutexes[m].waiters, x);
    assert MutexOk(s, s.mutexes[m]);
    HeadIsTask(s, s.mutexes[m]);
  }

  lemma FirstOccurrence(w: seq<Entry>, x: nat)
    ensures w != [] ==>
              Occurrences(Owners(w), x) == Occurrences(Owners(w[1..]), x) + if w[0].owner == x then 1 else 0
  {
    if w != [] { assert Owners(w) == [w[0].owner] + Owners(w[1..]); }
  }

  lemma HeadIsTask(s: State, q: Mutex)
    requires MutexOk(s, q)
    ensures q.waiters != [] ==> q.waiters[0].owner < |s.tasks|
  {
  }

  /** The woken head of the list is at least as urgent as those left on it. */
  lemma GivenMutexOk(s: State, m: nat)
    requires Inv(s) && m < |s.mutexes|
    ensures MutexOk(s.(ready := ReadyAfterGive(s, m)), AfterGive(s, m))
  {
    var q, s0 := s.mutexes[m], s.(ready := ReadyAfterGive(s, m));
    assert MutexOk(s, q);
    if q.waiters != [] {
      var w := q.waiters[0].owner;
      HeadIsHighest(s, q.waiters);
      SameWaiters(s, s0, q.waiters[1..], Prio(s, w));
      assert w in AfterGive(s, m).woken;
    }
  }

  lemma {:induction false} SameWaiters(s: State, s': State, w: seq<Entry>, p: Priority)
    requires s'.tasks == s.tasks
    ensures WaitersOk(s', w) == WaitersOk(s, w) && WaitersBelow(s', w, p) == WaitersBelow(s, w, p)
  {
    if w != [] {
      SameWaiters(s, s', w[1..], p);
    }
  }

  lemma GiveMutex(s: State, t: nat, m: nat, i: nat)
    requires Inv(s) && Possible(s, Gives(t, m)) && i < |s.mutexes| && t < |s.tasks|
    ensures MutexOk(Give(s, t, m), Give(s, t, m).mutexes[i])
  {
    hide MutexOk, Holdings, Give, TaskOk;
    GiveIs(s, t, m);
    OwnerHolds(s, m);
    var s' := Give(s, t, m);
    if i == m {
      var s0, q := s.(ready := ReadyAfterGive(s, m)), AfterGive(s, m);
      GivenMutexOk(s, m);
      HoldersDoNotMatter(s0, q, t);
      WokenAreReady(s0, q);
      MutexKept(s0, s', q);
    } else {
      if s.mutexes[i].owner == Holder(t) { NamedOnce(s.mutexes, m, i, t); }
      WokenAreReady(s, s.mutexes[i]);
      OtherMutexKept(s, s', t, i);
    }
  }

  lemma WokenAreReady(s: State, q: Mutex)
    requires MutexOk(s, q)
    ensures forall t :: t in q.woken ==> t in s.ready
  {
  }

  // ---------------------------------------------------------------- waiting

  function AfterWait(s: State, t: nat, m: nat): Mutex
    requires t < |s.tasks| && m < |s.mutexes|
  {
    var q := s.mutexes[m];
    q.(waiters := InsertSorted(q.waiters, Entry(t, EventValue(s.tasks[t].priority))), woken := q.woken - {t})
  }

  lemma WaitTasks(s: State, t: nat, m: nat, x: nat)
    requires Inv(s) && Possible(s, Waits(t, m)) && s.mutexes[m].owner.t < |s.tasks|
    ensures TaskOk(WaitOn(s, t, m), x)
  {
    hide MutexOk, Waitings, Holdings;
    OwnerHolds(s, m);
    assert TaskOk(s, x);
    var q := AfterWait(s, t, m);
    HoldingsAfter(s.mutexes, m, q, x);
    WaitingsAfter(s.mutexes, m, q, x);
    InsertedOccurrences(s.mutexes[m].waiters, Entry(t, EventValue(s.tasks[t].priority)));
  }

  /** The holder's priority as the waiter leaves it. */
  function Lent(s: State, t: nat, h: nat): State
    requires t < |s.tasks| && h < |s.tasks|
  {
    s.(tasks := s.tasks[h := Inherited(s.tasks[h], s.tasks[t].priority)])
  }

  /** The priority lent is enough for everyone who waits, the newcomer included. */
  lemma WaitedMutexOk(s: State, t: nat, m: nat)
    requires Inv(s) && Possible(s, Waits(t, m)) && s.mutexes[m].owner.t < |s.tasks|
    requires s.mutexes[m].owner.t != t
    ensures MutexOk(WaitOn(s, t, m), AfterWait(s, t, m))
  {
    var q, h := s.mutexes[m], s.mutexes[m].owner.t;
    var s1, s' := Lent(s, t, h), WaitOn(s, t, m);
    var e := Entry(t, EventValue(s.tasks[t].priority));
    OwnerHolds(s, m);
    OtherMutexKept(s, s1, h, m);
    SameWaiters(s1, s', q.waiters, Prio(s', h));
    InsertedOk(s', q.waiters, e, Prio(s', h));
    InsertKeepsSorted(q.waiters, e);
    hide WaitersOk, WaitersBelow, Sorted, InsertSorted;
  }

  lemma WaitMutex(s: State, t: nat, m: nat, i: nat)
    requires Inv(s) && Possible(s, Waits(t, m)) && i < |s.mutexes| && s.mutexes[m].owner.t < |s.tasks|
    ensures MutexOk(WaitOn(s, t, m), WaitOn(s, t, m).mutexes[i])
  {
    hide MutexOk, Holdings, TaskOk;
    OwnerHolds(s, m);
    var s' := WaitOn(s, t, m);
    if i == m {
      WaitedMutexOk(s, t, m);
    } else {
      WokenAreReady(s, s.mutexes[i]);
      OtherMutexKept(s, s', s.mutexes[m].owner.t, i);
    }
  }

  // ---------------------------------------------------------------- timing out

  lemma TimeOutTasks(s: State, t: nat, m: nat, x: nat)
    requires Inv(s) && Possible(s, TimesOut(t, m))
    ensures TaskOk(TimeOut(s, t, m), x)
  {
    hide MutexOk, Waitings, Holdings, Occurrences, Owners, WithoutOwner;
    assert TaskOk(s, x) && MutexOk(s, s.mutexes[m]);
    hide Inv;
    var q := TimeOut(s, t, m).mutexes[m];
    HoldingsAfter(s.mutexes, m, q, x);
    WaitingsAfter(s.mutexes, m, q, x);
    WithoutOwnerOccurrences(s.mutexes[m].waiters, t, x);
    CountedAt(s.mutexes, m, x);
    OccursIfIn(Owners(s.mutexes[m].waiters), t);
  }

  lemma TimeOutMutex(s: State, t: nat, m: nat, i: nat)
    requires Inv(s) && Possible(s, TimesOut(t, m)) && i < |s.mutexes|
    ensures MutexOk(TimeOut(s, t, m), TimeOut(s, t, m).mutexes[i])
  {
    var s', q := TimeOut(s, t, m), s.mutexes[m];
    assert MutexOk(s, s.mutexes[i]);
    if i == m {
      FewerWaitersOk(s, q, t);
    }
    hide MutexOk;
    WokenAreReady(s, s.mutexes[i]);
    MutexKept(s, s', s'.mutexes[i]);
  }

  lemma FewerWaitersOk(s: State, q: Mutex, t: nat)
    requires MutexOk(s, q)
    ensures MutexOk(s, q.(waiters := WithoutOwner(q.waiters, t)))
  {
    WithoutKeepsSorted(q.waiters, t);
    if q.owner.Holder? {
      RemovedOk(s, q.waiters, t, Prio(s, q.owner.t));
    } else {
      RemovedOk(s, q.waiters, t, 0);
      if WithoutOwner(q.waiters, t) != [] {
        var w :| w in q.woken && WaitersBelow(s, q.waiters, Prio(s, w));
        RemovedOk(s, q.waiters, t, Prio(s, w));
      }
    }
    hide WaitersOk, WaitersBelow, Sorted;
  }

  // ---------------------------------------------------------------- withdrawing a lent priority

  lemma ExpireTasks(s: State, m: nat, x: nat)
    requires Inv(s) && m < |s.mutexes|
    ensures TaskOk(Expire(s, m), x)
  {
    assert TaskOk(s, x);
    hide MutexOk, Waitings, Holdings;
  }

  lemma ExpireMutex(s: State, m: nat, i: nat)
    requires Inv(s) && i < |s.mutexes| && m < |s.mutexes|
    ensures MutexOk(Expire(s, m), Expire(s, m).mutexes[i])
  {
    var s', q := Expire(s, m), s.mutexes[m];
    assert MutexOk(s, s.mutexes[i]);
    if s' != s {
      hide MutexOk, TaskOk;
      OwnerHolds(s, m);
      var h := q.owner.t;
      WokenAreReady(s, s.mutexes[i]);
      if i == m {
        LoweredMutexOk(s, m);
      } else {
        if s.mutexes[i].owner == Holder(h) { NamedOnce(s.mutexes, m, i, h); }
        OtherMutexKept(s, s', h, i);
      }
    }
  }

  /** What is left to the holder is enough for everyone who still waits. */
  lemma LoweredMutexOk(s: State, m: nat)
    requires Inv(s) && m < |s.mutexes| && Expire(s, m) != s
    ensures MutexOk(Expire(s, m), s.mutexes[m])
  {
    var s', q := Expire(s, m), s.mutexes[m];
    var h := q.owner.t;
    assert MutexOk(s, q);
    OwnerHolds(s, m);
    HoldersDoNotMatter(s, q, h);
    HighestIsHead(s, q);
    forall t | t in Owners(q.waiters) ensures SameTask(s, s', t) { assert Matters(q, t); }
    WaitersKept(s, s', q.waiters);
    BelowKept(s, s', q.waiters, HighestWaiting(q), Prio(s', h));
    forall t | Matters(q, t) ensures SameTask(s, s', t) {}
    WokenKept(s, s', q);
    hide WaitersOk, WaitersBelow, Sorted, WokenOk;
  }

  // ---------------------------------------------------------------- the other steps

  lemma TryMutex(s: State, t: nat, m: nat, i: nat)
    requires Inv(s) && Possible(s, TriesInVain(t, m)) && i < |s.mutexes|
    ensures MutexOk(TryInVain(s, t, m), TryInVain(s, t, m).mutexes[i])
  {
    var s', q := TryInVain(s, t, m), s.mutexes[i];
    assert MutexOk(s, q);
    var q' := if i == m then q.(woken := q.woken - {t}) else q;
    assert MutexOk(s, q');
    hide MutexOk;
    WokenAreReady(s, q');
    MutexKept(s, s', q');
  }

  lemma TryTasks(s: State, t: nat, m: nat, x: nat)
    requires Inv(s) && m < |s.mutexes|
    ensures TaskOk(TryInVain(s, t, m), x)
  {
    hide MutexOk, Waitings, Holdings;
    assert TaskOk(s, x);
    var q := s.mutexes[m].(woken := s.mutexes[m].woken - {t});
    HoldingsAfter(s.mutexes, m, q, x);
    WaitingsAfter(s.mutexes, m, q, x);
  }

  lemma ReadyMutex(s: State, ready: set<nat>, i: nat)
    requires Inv(s) && i < |s.mutexes| && forall t :: t in s.mutexes[i].woken ==> t in ready
    ensures MutexOk(s.(ready := ready), s.mutexes[i])
  {
    assert MutexOk(s, s.mutexes[i]);
    hide MutexOk;
    MutexKept(s, s.(ready := ready), s.mutexes[i]);
  }

  lemma {:induction false} NotWaiting(ms: seq<Mutex>, t: nat)
    requires forall i :: 0 <= i < |ms| ==> t !in Owners(ms[i].waiters)
    ensures Waitings(ms, t) == 0
  {
    if ms != [] {
      OccursIfIn(Owners(ms[0].waiters), t);
      forall i | 0 <= i < |ms| - 1 ensures t !in Owners(ms[1..][i].waiters) {
        assert ms[1..][i] == ms[i + 1];
      }
      NotWaiting(ms[1..], t);
    }
  }

  lemma UnblockTasks(s: State, t: nat, x: nat)
    requires Inv(s) && Possible(s, Unblocks(t))
    ensures TaskOk(s.(ready := s.ready + {t}), x)
  {
    assert TaskOk(s, x);
    NotWaiting(s.mutexes, t);
    hide MutexOk, Waitings, Holdings;
  }

  lemma BlockTasks(s: State, t: nat, x: nat)
    requires Inv(s)
    ensures TaskOk(s.(ready := s.ready - {t}), x)
  {
    assert TaskOk(s, x);
    hide MutexOk, Waitings, Holdings;
  }

  // ---------------------------------------------------------------- whole runs

  ghost function Apply(s: State, e: Step): State
    requires Inv(s) && Possible(s, e)
  {
    match e
    case Takes(t, m) => Take(s, t, m)
    case Gives(t, m) => OwnerHolds(s, m); Give(s, t, m)
    case Waits(t, m) => OwnerHolds(s, m); WaitOn(s, t, m)
    case TimesOut(t, m) => TimeOut(s, t, m)
    case Expires(m) => Expire(s, m)
    case TriesInVain(t, m) => TryInVain(s, t, m)
    case Blocks(t) => s.(ready := s.ready - {t})
    case Unblocks(t) => s.(ready := s.ready + {t})
  }

  lemma StepTasks(s: State, e: Step, x: nat)
    requires Inv(s) && Possible(s, e)
    ensures TaskOk(Apply(s, e), x)
  {
    hide Inv, TaskOk, Take, Give, WaitOn, TimeOut, Expire, TryInVain;
    match e
    case Takes(t, m) => TakeTasks(s, t, m, x);
    case Gives(t, m) => OwnerHolds(s, m); GiveTasks(s, t, m, x);
    case Waits(t, m) => OwnerHolds(s, m); WaitTasks(s, t, m, x);
    case TimesOut(t, m) => TimeOutTasks(s, t, m, x);
    case Expires(m) => ExpireTasks(s, m, x);
    case TriesInVain(t, m) => TryTasks(s, t, m, x);
    case Blocks(t) => BlockTasks(s, t, x);
    case Unblocks(t) => UnblockTasks(s, t, x);
  }

  lemma StepMutexes(s: State, e: Step, i: nat)
    requires Inv(s) && Possible(s, e) && i < |s.mutexes|
    ensures |Apply(s, e).mutexes| == |s.mutexes| && MutexOk(Apply(s, e), Apply(s, e).mutexes[i])
  {
    hide Inv, MutexOk;
    match e
    case Takes(t, m) => TakeMutex(s, t, m, i);
    case Gives(t, m) => OwnerHolds(s, m); GiveMutex(s, t, m, i);
    case Waits(t, m) => OwnerHolds(s, m); WaitMutex(s, t, m, i);
    case TimesOut(t, m) => TimeOutMutex(s, t, m, i);
    case Expires(m) => ExpireMutex(s, m, i);
    case TriesInVain(t, m) => TryMutex(s, t, m, i);
    case Blocks(t) => MutexOfInv(s, i); ReadyMutex(s, s.ready - {t}, i);
    case Unblocks(t) => MutexOfInv(s, i); ReadyMutex(s, s.ready + {t}, i);
  }

  lemma MutexOfInv(s: State, i: nat)
    requires Inv(s) && i < |s.mutexes|
    ensures forall t :: t in s.mutexes[i].woken ==> t in s.ready
  {
    assert MutexOk(s, s.mutexes[i]);
    WokenAreReady(s, s.mutexes[i]);
  }

  lemma StepKeeps(s: State, e: Step)
    requires Inv(s) && Possible(s, e)
    ensures Inv(Apply(s, e))
  {
    hide TaskOk, MutexOk, Apply, Possible;
    forall x { StepTasks(s, e, x); }
    StepCount(s, e);
    forall i | 0 <= i < |Apply(s, e).mutexes| ensures MutexOk(Apply(s, e), Apply(s, e).mutexes[i]) {
      StepMutexes(s, e, i);
    }
  }

  lemma StepCount(s: State, e: Step)
    requires Inv(s) && Possible(s, e)
    ensures |Apply(s, e).mutexes| == |s.mutexes|
  {
    hide Inv;
  }

  ghost predicate PossibleRun(s: State, es: seq<Step>)
    requires Inv(s)
    decreases |es|
  {
    es == [] || (Possible(s, es[0]) && (StepKeeps(s, es[0]); PossibleRun(Apply(s, es[0]), es[1..])))
  }

  ghost function Run(s: State, es: seq<Step>): State
    requires Inv(s) && PossibleRun(s, es)
    decreases |es|
  {
    if es == [] then s
    else
      StepKeeps(s, es[0]);
      Run(Apply(s, es[0]), es[1..])
  }

  lemma {:induction false} RunKeeps(s: State, es: seq<Step>)
    requires Inv(s) && PossibleRun(s, es)
    ensures Inv(Run(s, es))
    decreases |es|
  {
    hide Inv, Possible, Apply;
    if es != [] {
      StepKeeps(s, es[0]);
      RunKeeps(Apply(s, es[0]), es[1..]);
    }
  }

  /** To begin with, no mutex is held or waited for and every task runs at its own priority. */
  predicate Fresh(s: State) {
    && (forall t :: 0 <= t < |s.tasks| ==> s.tasks[t].mutexesHeld == 0 && s.tasks[t].priority == s.tasks[t].base)
    && (forall t :: t in s.ready ==> t < |s.tasks|)
    && (forall m :: 0 <= m < |s.mutexes| ==> s.mutexes[m] == Mutex(NoHolder, [], {}))
  }

  lemma {:induction false} NothingCounted(ms: seq<Mutex>, t: nat)
    requires forall m :: 0 <= m < |ms| ==> ms[m] == Mutex(NoHolder, [], {})
    ensures Holdings(ms, t) == 0 && Waitings(ms, t) == 0
  {
    if ms != [] {
      assert ms[0] == Mutex(NoHolder, [], {});
      NothingCounted(ms[1..], t);
    }
  }

  lemma FreshIsGood(s: State)
    requires Fresh(s)
    ensures Inv(s)
  {
    forall t ensures TaskOk(s, t) { NothingCounted(s.mutexes, t); }
  }

  /** In every reachable state the holder of a mutex is at least as urgent as its own priority and as
      every task that waits for the mutex; a task that holds nothing runs at its own priority; and
      the count of mutexes held is the number of mutexes that name the task. */
  lemma InheritanceHolds(s: State, es: seq<Step>, m: nat, t: nat, w: nat)
    requires Fresh(s) && (FreshIsGood(s); PossibleRun(s, es))
    ensures (FreshIsGood(s);
             var s' := Run(s, es);
             && (m < |s'.mutexes| && s'.mutexes[m].owner == Holder(t) && w in Owners(s'.mutexes[m].waiters) ==>
                  Prio(s', w) <= Prio(s', t))
             && (t < |s'.tasks| ==> s'.tasks[t].base <= s'.tasks[t].priority)
             && (t < |s'.tasks| && s'.tasks[t].mutexesHeld == 0 ==> s'.tasks[t].priority == s'.tasks[t].base)
             && Held(s', t) == Holdings(s'.mutexes, t))
  {
    FreshIsGood(s);
    RunKeeps(s, es);
    var s' := Run(s, es);
    hide Run;
    assert TaskOk(s', t);
    if m < |s'.mutexes| && s'.mutexes[m].owner == Holder(t) && w in Owners(s'.mutexes[m].waiters) {
      assert MutexOk(s', s'.mutexes[m]);
      WaiterBelow(s', s'.mutexes[m].waiters, Prio(s', t), w);
    }
  }

  lemma {:induction false} WaiterBelow(s: State, ws: seq<Entry>, p: Priority, w: nat)
    requires WaitersBelow(s, ws, p) && w in Owners(ws)
    ensures Prio(s, w) <= p
  {
    assert Owners(ws) == [ws[0].owner] + Owners(ws[1..]);
    if w != ws[0].owner {
      WaiterBelow(s, ws[1..], p, w);
    }
  }

  // ---------------------------------------------------------------- the scheduler's side

  lemma ReprioritiseTasks(s: Sched, t: nat, p: Priority)
    requires t in s.tasks
    ensures Scheduler.Reprioritise(s, t, p).tasks == s.tasks[t := s.tasks[t].(priority := p)]
  {
    Scheduler.UnlinkKeepsEvents(s, t);
    hide Unlink;
  }

  /** The operations on scheduler states change the task records as the three functions here say. */
  lemma SchedulerAgrees(s: Sched, h: nat, highest: Priority)
    requires h in s.tasks && s.current in s.tasks
    ensures Scheduler.Inherit(s, h).tasks == s.tasks[h := Inherited(s.tasks[h], PriorityOf(s, s.current))]
    ensures Scheduler.DisinheritAfterTimeout(s, h, highest).tasks == s.tasks[h := Lowered(s.tasks[h], highest)]
    ensures Scheduler.HeldBy(s, s.current) > 0 ==>
              Scheduler.Disinherit(s).tasks == s.tasks[s.current := Disinherited(s.tasks[s.current])]
  {
    hide Scheduler.Reprioritise;
    ReprioritiseTasks(s, h, PriorityOf(s, s.current));
    ReprioritiseTasks(s, h, if s.tasks[h].base < highest then highest else s.tasks[h].base);
    if Scheduler.HeldBy(s, s.current) > 0 {
      var s1 := Scheduler.SetHeld(s, s.current, Scheduler.HeldBy(s, s.current) - 1);
      ReprioritiseTasks(s1, s.current, Scheduler.BaseOf(s, s.current));
    }
  }
}
