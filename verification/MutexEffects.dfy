/** What each step on a mutex does to its owner, to those who wait for it and to their priorities. */
module MutexEffects {
  import opened Lists
  import opened SchedState
  import opened Mutexes

  function Base(s: State, t: nat): Priority {
    if t < |s.tasks| then s.tasks[t].base else 0
  }

  /** `t` waits for the mutex `m`. */
  predicate WaitsFor(s: State, t: nat, m: nat) {
    m < |s.mutexes| && t in Owners(s.mutexes[m].waiters)
  }

  // ---------------------------------------------------------------- lending and withdrawing

  /** The holder of one mutex that somebody has given up waiting for is left exactly as urgent as the most
      urgent of its own priority and those of the tasks that still wait: at least each of them, and equal
      to one.  The holder of several mutexes keeps what it has, and nobody else is touched. */
  lemma ExpireMeans(s: State, m: nat, h: nat)
    requires Mutexes.Inv(s) && m < |s.mutexes| && s.mutexes[m].owner == Holder(h)
    ensures var s' := Expire(s, m);
            && s'.mutexes == s.mutexes && s'.ready == s.ready
            && (forall x :: x != h ==> Prio(s', x) == Prio(s, x))
            && (if Held(s, h) == 1 then
                  && Base(s, h) <= Prio(s', h)
                  && (forall w :: WaitsFor(s, w, m) ==> Prio(s', w) <= Prio(s', h))
                  && (Prio(s', h) == Base(s, h) || exists w :: WaitsFor(s, w, m) && Prio(s', w) == Prio(s', h))
                else Prio(s', h) == Prio(s, h))
  {
    var s', q := Expire(s, m), s.mutexes[m];
    OwnerHolds(s, m);
    assert MutexOk(s, q);
    hide Mutexes.Inv, WokenOk, Contended;
    MostUrgentWaits(s, m);
    hide MutexOk, HighestWaiting;
    forall w | WaitsFor(s, w, m) ensures w != h && Prio(s, w) <= HighestWaiting(q) {
      WaitersHoldNothing(s, q.waiters, w);
      WaiterBelow(s, q.waiters, HighestWaiting(q), w);
    }
  }

  /** What the kernel reads off the head of the list is the priority of the most urgent who waits. */
  lemma MostUrgentWaits(s: State, m: nat)
    requires m < |s.mutexes| && MutexOk(s, s.mutexes[m])
    ensures var q := s.mutexes[m];
            && WaitersOk(s, q.waiters) && WaitersBelow(s, q.waiters, HighestWaiting(q))
            && (if q.waiters == [] then HighestWaiting(q) == 0
                else WaitsFor(s, q.waiters[0].owner, m) && Prio(s, q.waiters[0].owner) == HighestWaiting(q))
  {
    var w := s.mutexes[m].waiters;
    HighestIsHead(s, s.mutexes[m]);
    assert w != [] ==> Owners(w) == [w[0].owner] + Owners(w[1..]);
  }

  /** A task that waits is on the list and not ready; the holder comes to be exactly as urgent as the more
      urgent of the two, and nobody else is touched. */
  lemma WaitMeans(s: State, t: nat, m: nat, h: nat)
    requires Mutexes.Inv(s) && Mutexes.Possible(s, Waits(t, m)) && s.mutexes[m].owner == Holder(h) && h < |s.tasks|
    ensures var s' := WaitOn(s, t, m);
            && s'.ready == s.ready - {t} && t !in s'.mutexes[m].woken && s'.mutexes[m].owner == Holder(h)
            && (forall x :: WaitsFor(s', x, m) <==> WaitsFor(s, x, m) || x == t)
            && Prio(s', h) == (if Prio(s, h) < Prio(s, t) then Prio(s, t) else Prio(s, h))
            && (forall x :: x != h ==> Prio(s', x) == Prio(s, x)) && Base(s', h) == Base(s, h)
  {
    var e := Entry(t, EventValue(s.tasks[t].priority));
    hide Mutexes.Inv, InsertSorted, Owners;
    var w := s.mutexes[m].waiters;
    forall x ensures x in Owners(InsertSorted(w, e)) <==> x in Owners(w) || x == t {
      InsertedMember(w, e, x);
    }
  }

  lemma {:induction false} InsertedMember(w: seq<Entry>, e: Entry, x: nat)
    ensures x in Owners(InsertSorted(w, e)) <==> x in Owners(w) || x == e.owner
  {
    if w != [] && w[0].value <= e.value {
      InsertedMember(w[1..], e, x);
      assert InsertSorted(w, e)[1..] == InsertSorted(w[1..], e);
    } else {
      assert InsertSorted(w, e)[1..] == w;
    }
  }

  // ---------------------------------------------------------------- taking and giving

  lemma TakeMeans(s: State, t: nat, m: nat)
    requires t < |s.tasks| && m < |s.mutexes|
    ensures var s' := Take(s, t, m);
            && s'.mutexes[m].owner == Holder(t) && t !in s'.mutexes[m].woken && Held(s', t) == Held(s, t) + 1
            && (forall x :: WaitsFor(s', x, m) <==> WaitsFor(s, x, m))
            && (forall x :: Prio(s', x) == Prio(s, x)) && (forall x :: x != t ==> Held(s', x) == Held(s, x))
  {
  }

  /** The mutex is free; its giver holds one less, and with the last one drops to its own priority.  The most
      urgent who waits, if anyone does, is taken off the list and made ready. */
  lemma GiveMeans(s: State, t: nat, m: nat)
    requires Mutexes.Inv(s) && Mutexes.Possible(s, Gives(t, m)) && t < |s.tasks|
    ensures var s', q := Give(s, t, m), s.mutexes[m];
            && s'.mutexes[m].owner == NoHolder && Held(s', t) == Held(s, t) - 1 && Base(s', t) == Base(s, t)
            && Prio(s', t) == (if Held(s', t) == 0 then Base(s, t) else Prio(s, t))
            && (forall x :: x != t ==> Prio(s', x) == Prio(s, x) && Held(s', x) == Held(s, x))
            && (if q.waiters == [] then s'.mutexes[m].woken == q.woken && s'.ready == s.ready
                else
                  var w := q.waiters[0].owner;
                  && s'.mutexes[m].waiters == q.waiters[1..] && s'.mutexes[m].woken == q.woken + {w}
                  && s'.ready == s.ready + {w}
                  && forall x :: WaitsFor(s, x, m) ==> Prio(s, x) <= Prio(s, w))
  {
    OwnerHolds(s, m);
    assert TaskOk(s, t) && MutexOk(s, s.mutexes[m]);
    hide Mutexes.Inv, WokenOk, Contended, TaskOk, Owners;
    var q := s.mutexes[m];
    if q.waiters != [] {
      MostUrgentWaits(s, m);
      hide MutexOk, HighestWaiting;
      forall x | WaitsFor(s, x, m) ensures Prio(s, x) <= Prio(s, q.waiters[0].owner) {
        WaiterBelow(s, q.waiters, HighestWaiting(q), x);
      }
    }
  }

  /** A task whose wait times out is off the list and ready, and nobody else is touched. */
  lemma TimeOutMeans(s: State, t: nat, m: nat)
    requires m < |s.mutexes|
    ensures var s' := TimeOut(s, t, m);
            && t in s'.ready && (forall x :: WaitsFor(s', x, m) <==> WaitsFor(s, x, m) && x != t)
            && (forall x :: x != t ==> (x in s'.ready <==> x in s.ready))
            && s'.tasks == s.tasks && s'.mutexes[m].owner == s.mutexes[m].owner
            && s'.mutexes[m].woken == s.mutexes[m].woken
  {
    var w := s.mutexes[m].waiters;
    hide Owners, WithoutOwner;
    forall x ensures x in Owners(WithoutOwner(w, t)) <==> x in Owners(w) && x != t {
      WithoutMember(w, t, x);
    }
  }

  lemma {:induction false} WithoutMember(w: seq<Entry>, t: nat, x: nat)
    ensures x in Owners(WithoutOwner(w, t)) <==> x in Owners(w) && x != t
  {
    if w != [] {
      WithoutMember(w[1..], t, x);
      var r := WithoutOwner(w[1..], t);
      assert ([w[0]] + r)[1..] == r;
    }
  }

  lemma TryInVainMeans(s: State, t: nat, m: nat)
    requires m < |s.mutexes|
    ensures var s' := TryInVain(s, t, m);
            && s'.mutexes[m].woken == s.mutexes[m].woken - {t} && s'.tasks == s.tasks && s'.ready == s.ready
            && forall x :: WaitsFor(s', x, m) <==> WaitsFor(s, x, m)
  {
  }

  // ---------------------------------------------------------------- nobody is forgotten

  /** `t` waits for the mutex `m`, or has been woken for it and has not tried again. */
  predicate Concerned(s: State, t: nat, m: nat) {
    m < |s.mutexes| && (WaitsFor(s, t, m) || t in s.mutexes[m].woken)
  }

  /** The step is `t` trying again, or its wait timing out. */
  predicate GoesOn(e: Step, t: nat, m: nat) {
    e == Takes(t, m) || e == Waits(t, m) || e == TriesInVain(t, m) || e == TimesOut(t, m)
  }

  /** A task that waits for a mutex is forgotten by no step of anybody else. */
  lemma StepForgetsNobody(s: State, e: Step, t: nat, m: nat)
    requires Mutexes.Inv(s) && Mutexes.Possible(s, e) && Concerned(s, t, m) && !GoesOn(e, t, m)
    ensures Concerned(Apply(s, e), t, m)
  {
    hide Mutexes.Inv, Owners;
    match e
    case Takes(u, i) =>
    case Gives(u, i) =>
      OwnerHolds(s, i);
      if i == m {
        HeadOrTail(s.mutexes[m].waiters, t);
      }
    case Waits(u, i) =>
      OwnerHolds(s, i);
      InsertedMember(s.mutexes[i].waiters, Entry(u, EventValue(s.tasks[u].priority)), t);
    case TimesOut(u, i) => WithoutMember(s.mutexes[i].waiters, u, t);
    case Expires(i) =>
    case TriesInVain(u, i) =>
    case Blocks(u) =>
    case Unblocks(u) =>
  }

  lemma HeadOrTail(w: seq<Entry>, t: nat)
    ensures t in Owners(w) ==> w != [] && (t == w[0].owner || t in Owners(w[1..]))
  {
    if w != [] { assert Owners(w) == [w[0].owner] + Owners(w[1..]); }
  }

  predicate KeepsWaiting(es: seq<Step>, t: nat, m: nat)
    decreases |es|
  {
    es == [] || (!GoesOn(es[0], t, m) && KeepsWaiting(es[1..], t, m))
  }

  /** So over any run, until it tries again or its wait times out, it is on the list or on its way. */
  lemma {:induction false} NobodyForgotten(s: State, es: seq<Step>, t: nat, m: nat)
    requires Mutexes.Inv(s) && Mutexes.PossibleRun(s, es) && Concerned(s, t, m) && KeepsWaiting(es, t, m)
    ensures Concerned(Run(s, es), t, m)
    decreases |es|
  {
    hide Mutexes.Inv, Mutexes.Possible, Apply, Concerned, GoesOn;
    if es != [] {
      StepForgetsNobody(s, es[0], t, m);
      StepKeeps(s, es[0]);
      NobodyForgotten(Apply(s, es[0]), es[1..], t, m);
    }
  }
}
