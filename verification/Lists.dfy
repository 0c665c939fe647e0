/** What the kernel's lists mean, independently of their links.

    A sorted list (delayed tasks, event lists, timers) is a sequence of entries in value order, ties
    in arrival order.  A ready list is a ring: a sequence and a moving index, where index 0 is the
    end marker and index k + 1 is the item at position k. */
module Lists {
  import opened Ticks

  datatype Entry = Entry(owner: nat, value: Tick)

  // ---------------------------------------------------------------- sorted lists

  predicate Sorted(s: seq<Entry>) {
    |s| < 2 || (s[0].value <= s[1].value && Sorted(s[1..]))
  }

  ghost predicate Distinct<T(!new)>(s: seq<T>) {
    forall i, j :: 0 <= i < j < |s| ==> s[i] != s[j]
  }

  /** Insertion in value order, behind the equals. */
  function InsertSorted(s: seq<Entry>, e: Entry): (r: seq<Entry>)
    ensures r != []
  {
    if s == [] || e.value < s[0].value then [e] + s else [s[0]] + InsertSorted(s[1..], e)
  }

  lemma {:induction false} InsertKeepsSorted(s: seq<Entry>, e: Entry)
    requires Sorted(s)
    ensures Sorted(InsertSorted(s, e))
    ensures InsertSorted(s, e)[0] == if s == [] || e.value < s[0].value then e else s[0]
  {
    if s != [] && s[0].value <= e.value {
      InsertKeepsSorted(s[1..], e);
      assert InsertSorted(s, e)[1..] == InsertSorted(s[1..], e);
    } else {
      assert InsertSorted(s, e)[1..] == s;
    }
  }

  lemma {:induction false} InsertAddsOne(s: seq<Entry>, e: Entry)
    ensures multiset(InsertSorted(s, e)) == multiset(s) + multiset{e}
  {
    if s != [] && s[0].value <= e.value {
      InsertAddsOne(s[1..], e);
      assert s == [s[0]] + s[1..];
    }
  }

  /** The newcomer lands at position `n` when everything before is not above it and the rest is. */
  lemma {:induction false} InsertLandsAt(s: seq<Entry>, e: Entry, n: nat)
    requires n <= |s|
    requires forall i :: 0 <= i < n ==> s[i].value <= e.value
    requires n < |s| ==> e.value < s[n].value
    ensures InsertSorted(s, e) == s[..n] + [e] + s[n..]
  {
    InsertUnrolled(s, e);
    hide InsertSorted;
    if n > 0 {
      assert s[0].value <= e.value;
      var r := s[1..];
      assert forall i :: 0 <= i < n - 1 ==> r[i].value == s[i + 1].value;
      InsertLandsAt(r, e, n - 1);
      OneFurther(s, e, n);
    }
  }

  lemma InsertUnrolled(s: seq<Entry>, e: Entry)
    ensures InsertSorted(s, e)
         == if s == [] || e.value < s[0].value then [e] + s else [s[0]] + InsertSorted(s[1..], e)
  {
  }

  lemma OneFurther(s: seq<Entry>, e: Entry, n: nat)
    requires 0 < n <= |s|
    ensures [s[0]] + (s[1..][..n - 1] + [e] + s[1..][n - 1..]) == s[..n] + [e] + s[n..]
  {
    assert s[..n] == [s[0]] + s[1..][..n - 1] && s[1..][n - 1..] == s[n..];
  }

  /** The leading entries not above `v`, and the rest. */
  function Leading(s: seq<Entry>, v: Tick): seq<Entry> {
    if s == [] || v < s[0].value then [] else [s[0]] + Leading(s[1..], v)
  }

  function Trailing(s: seq<Entry>, v: Tick): seq<Entry> {
    if s == [] || v < s[0].value then s else Trailing(s[1..], v)
  }

  lemma {:induction false} TrailingKeepsSorted(s: seq<Entry>, v: Tick)
    requires Sorted(s)
    ensures Sorted(Trailing(s, v)) && (Trailing(s, v) != [] ==> v < Trailing(s, v)[0].value)
  {
    if s != [] && s[0].value <= v {
      TrailingKeepsSorted(s[1..], v);
    }
  }

  lemma {:induction false} LeadingThenTrailing(s: seq<Entry>, v: Tick)
    ensures Leading(s, v) + Trailing(s, v) == s
  {
    if s != [] && s[0].value <= v {
      LeadingThenTrailing(s[1..], v);
      assert s == [s[0]] + s[1..];
    }
  }

  // ---------------------------------------------------------------- owners

  function Owners(s: seq<Entry>): (r: seq<nat>)
    ensures |r| == |s|
  {
    if s == [] then [] else [s[0].owner] + Owners(s[1..])
  }

  lemma {:induction false} OwnersConcat(a: seq<Entry>, b: seq<Entry>)
    ensures Owners(a + b) == Owners(a) + Owners(b)
  {
    if a == [] {
      assert a + b == b;
    } else {
      OwnersConcat(a[1..], b);
      assert (a + b)[1..] == a[1..] + b;
    }
  }

  lemma {:induction false} OwnersMembers(s: seq<Entry>, t: nat)
    ensures t in Owners(s) <==> exists e :: e in s && e.owner == t
  {
    if s != [] {
      OwnersMembers(s[1..], t);
      assert s == [s[0]] + s[1..];
    }
  }

  /** Everything but the entries owned by `t`. */
  function WithoutOwner(s: seq<Entry>, t: nat): (r: seq<Entry>)
    ensures |r| <= |s|
  {
    if s == [] then []
    else if s[0].owner == t then WithoutOwner(s[1..], t)
    else [s[0]] + WithoutOwner(s[1..], t)
  }

  /** Dropping entries keeps the order, and the head does not get earlier. */
  lemma {:induction false} WithoutKeepsSorted(s: seq<Entry>, t: nat)
    requires Sorted(s)
    ensures Sorted(WithoutOwner(s, t))
    ensures WithoutOwner(s, t) != [] ==> s[0].value <= WithoutOwner(s, t)[0].value
  {
    if s != [] {
      WithoutKeepsSorted(s[1..], t);
      var r := WithoutOwner(s[1..], t);
      assert ([s[0]] + r)[1..] == r;
    }
  }

  function Without(s: seq<nat>, t: nat): (r: seq<nat>)
    ensures forall x :: x in r <==> x in s && x != t
    ensures t !in s ==> r == s
  {
    if s == [] then [] else (if s[0] == t then [] else [s[0]]) + Without(s[1..], t)
  }

  // ---------------------------------------------------------------- rings

  datatype Ring<T(==)> = Ring(items: seq<T>, index: nat) {
    predicate Valid() { index <= |items| }

    /** The order in which the items will next be selected if nothing else changes. */
    function Upcoming(): seq<T>
      requires Valid()
    {
      items[index..] + items[..index]
    }

    /** Insert just before the index. */
    function InsertEnd(x: T): (r: Ring<T>)
      requires Valid()
      ensures r.Valid()
    {
      if index == 0 then Ring(items + [x], 0)
      else Ring(items[..index - 1] + [x] + items[index - 1..], index + 1)
    }

    /** Unlink the item at position `p`; an index on it steps back to its predecessor. */
    function RemoveAt(p: nat): (r: Ring<T>)
      requires Valid() && p < |items|
      ensures r.Valid()
    {
      Ring(items[..p] + items[p + 1..], if index > p then index - 1 else index)
    }

    function Position(x: T): (p: nat)
      requires x in items
      ensures p < |items| && items[p] == x
      ensures forall i :: 0 <= i < p ==> items[i] != x
    {
      PositionIn(items, x)
    }

    function Remove(x: T): (r: Ring<T>)
      requires Valid()
      ensures r.Valid()
    {
      if x in items then RemoveAt(Position(x)) else this
    }

    /** Step the index to the next item, skipping the end marker. */
    function Advance(): (r: Ring<T>)
      requires Valid() && items != []
      ensures r.Valid() && r.index > 0 && r.items == items
    {
      Ring(items, if index == |items| then 1 else index + 1)
    }

    /** The item the index rests on. */
    function Selected(): T
      requires Valid() && index > 0
    {
      items[index - 1]
    }
  }

  function PositionIn<T(==)>(s: seq<T>, x: T): (p: nat)
    requires x in s
    ensures p < |s| && s[p] == x
    ensures forall i :: 0 <= i < p ==> s[i] != x
  {
    if s[0] == x then 0 else 1 + PositionIn(s[1..], x)
  }

  /** Selecting takes the head of the upcoming order and sends it to the back. */
  lemma AdvanceRotates<T>(l: Ring<T>)
    requires l.Valid() && l.items != []
    ensures l.Advance().Selected() == l.Upcoming()[0]
    ensures l.Advance().Upcoming() == l.Upcoming()[1..] + [l.Upcoming()[0]]
  {
    if l.index == |l.items| {
      assert l.Upcoming() == l.items;
    } else {
      assert l.items[..l.index + 1] == l.items[..l.index] + [l.items[l.index]];
    }
  }

  /** A newcomer waits behind everyone except the item the index rests on. */
  lemma InsertEndUpcoming<T>(l: Ring<T>, x: T)
    requires l.Valid()
    ensures var u, u' := l.Upcoming(), l.InsertEnd(x).Upcoming();
            u' == if l.index == 0 then u + [x] else u[..|u| - 1] + [x] + u[|u| - 1..]
  {
    var k := l.index;
    if k > 0 {
      var r := l.InsertEnd(x);
      assert r.items[k + 1..] == l.items[k..];
      assert r.items[..k + 1] == l.items[..k - 1] + [x] + [l.items[k - 1]];
      assert l.Upcoming()[..|l.items| - 1] == l.items[k..] + l.items[..k - 1];
    }
  }

  /** When the item at position `p` will be selected, counting from 0. */
  function Turn<T>(l: Ring<T>, p: nat): (q: nat)
    requires l.Valid() && p < |l.items|
    ensures q < |l.items|
  {
    if p >= l.index then p - l.index else p + |l.items| - l.index
  }

  lemma UpcomingAt<T>(l: Ring<T>, p: nat)
    requires l.Valid() && p < |l.items|
    ensures l.Upcoming()[Turn(l, p)] == l.items[p]
  {
  }

  /** Removing an item takes it out of the upcoming order and moves nothing else. */
  lemma RemoveUpcoming<T>(l: Ring<T>, p: nat)
    requires l.Valid() && p < |l.items|
    ensures var u, q := l.Upcoming(), Turn(l, p);
            l.RemoveAt(p).Upcoming() == u[..q] + u[q + 1..]
  {
    var k, s := l.index, l.items;
    if p >= k {
      SliceCut(s, k, p);
    } else {
      SliceCutFront(s, k, p);
    }
  }

  lemma SliceCut<T>(s: seq<T>, k: nat, p: nat)
    requires k <= p < |s|
    ensures var r, u := s[..p] + s[p + 1..], s[k..] + s[..k];
            r[k..] + r[..k] == u[..p - k] + u[p - k + 1..]
  {
    var r, u := s[..p] + s[p + 1..], s[k..] + s[..k];
    assert r[k..] == s[k..p] + s[p + 1..];
    assert r[..k] == s[..k];
    assert u[..p - k] == s[k..p];
    assert u[p - k + 1..] == s[p + 1..] + s[..k];
  }

  lemma SliceCutFront<T>(s: seq<T>, k: nat, p: nat)
    requires p < k <= |s|
    ensures var r, u, q := s[..p] + s[p + 1..], s[k..] + s[..k], p + |s| - k;
            r[k - 1..] + r[..k - 1] == u[..q] + u[q + 1..]
  {
    var r, u, q := s[..p] + s[p + 1..], s[k..] + s[..k], p + |s| - k;
    assert r[k - 1..] == s[k..];
    assert r[..k - 1] == s[..p] + s[p + 1..k];
    assert u[..q] == s[k..] + s[..p];
    assert u[q + 1..] == s[p + 1..k];
  }

  // ---------------------------------------------------------------- round-robin fairness

  /** What can happen to one ready list. */
  datatype RingEvent = Select | Arrive(x: nat) | Leave(x: nat)

  predicate Possible(l: Ring<nat>, e: RingEvent)
    requires l.Valid()
  {
    match e
    case Select => l.items != []
    case Arrive(x) => x !in l.items
    case Leave(x) => x in l.items
  }

  function After(l: Ring<nat>, e: RingEvent): (r: Ring<nat>)
    requires l.Valid() && Possible(l, e)
    ensures r.Valid()
  {
    match e
    case Select => l.Advance()
    case Arrive(x) => l.InsertEnd(x)
    case Leave(x) => l.Remove(x)
  }

  predicate PossibleRun(l: Ring<nat>, es: seq<RingEvent>)
    requires l.Valid()
    decreases |es|
  {
    es == [] || (Possible(l, es[0]) && PossibleRun(After(l, es[0]), es[1..]))
  }

  function RunRing(l: Ring<nat>, es: seq<RingEvent>): (r: Ring<nat>)
    requires l.Valid() && PossibleRun(l, es)
    ensures r.Valid()
    decreases |es|
  {
    if es == [] then l else RunRing(After(l, es[0]), es[1..])
  }

  /** The items selected during a run, in order. */
  function Selections(l: Ring<nat>, es: seq<RingEvent>): seq<nat>
    requires l.Valid() && PossibleRun(l, es)
    decreases |es|
  {
    if es == [] then []
    else (if es[0].Select? then [l.Advance().Selected()] else []) + Selections(After(l, es[0]), es[1..])
  }

  ghost predicate Before(s: seq<nat>, a: nat, b: nat) {
    exists i, j :: 0 <= i < j < |s| && s[i] == a && s[j] == b
  }

  ghost predicate Untouched(es: seq<RingEvent>, a: nat) {
    Arrive(a) !in es && Leave(a) !in es
  }

  lemma MakeBefore(s: seq<nat>, i: nat, j: nat, a: nat, b: nat)
    requires i < j < |s| && s[i] == a && s[j] == b
    ensures Before(s, a, b)
  {
  }

  lemma ArriveKeepsOrder(l: Ring<nat>, x: nat, a: nat, b: nat)
    requires l.Valid() && Before(l.Upcoming(), a, b)
    ensures Before(l.InsertEnd(x).Upcoming(), a, b)
  {
    var u := l.Upcoming();
    var i, j :| 0 <= i < j < |u| && u[i] == a && u[j] == b;
    InsertEndUpcoming(l, x);
    var i' := if l.index > 0 && i == |u| - 1 then i + 1 else i;
    var j' := if l.index > 0 && j == |u| - 1 then j + 1 else j;
    MakeBefore(l.InsertEnd(x).Upcoming(), i', j', a, b);
  }

  lemma CutKeepsOrder(u: seq<nat>, q: nat, i: nat, j: nat, a: nat, b: nat)
    requires i < j < |u| && u[i] == a && u[j] == b && q < |u| && q != i && q != j
    ensures Before(u[..q] + u[q + 1..], a, b)
  {
    MakeBefore(u[..q] + u[q + 1..], if i > q then i - 1 else i, if j > q then j - 1 else j, a, b);
  }

  lemma LeaveKeepsOrder(l: Ring<nat>, x: nat, a: nat, b: nat)
    requires l.Valid() && x in l.items && x != a && x != b && Before(l.Upcoming(), a, b)
    ensures Before(l.Remove(x).Upcoming(), a, b)
  {
    hide Ring.Remove, Ring.Upcoming;
    var u := l.Upcoming();
    var i, j :| 0 <= i < j < |u| && u[i] == a && u[j] == b;
    var q := RemoveCuts(l, x);
    CutKeepsOrder(u, q, i, j, a, b);
  }

  /** The item goes from the place in the upcoming order where it is. */
  lemma RemoveCuts(l: Ring<nat>, x: nat) returns (q: nat)
    requires l.Valid() && x in l.items
    ensures var u := l.Upcoming();
            q < |u| && u[q] == x && l.Remove(x).Upcoming() == u[..q] + u[q + 1..]
  {
    hide Ring.RemoveAt, Ring.Upcoming, Turn;
    var p := l.Position(x);
    RemoveUpcoming(l, p);
    UpcomingAt(l, p);
    q := Turn(l, p);
    UpcomingLength(l);
  }

  lemma UpcomingLength(l: Ring<nat>)
    requires l.Valid()
    ensures |l.Upcoming()| == |l.items|
  {
  }

  lemma SelectKeepsOrder(l: Ring<nat>, a: nat, b: nat)
    requires l.Valid() && l.items != [] && Before(l.Upcoming(), a, b)
    requires l.Advance().Selected() != a
    ensures Before(l.Advance().Upcoming(), a, b)
  {
    var u := l.Upcoming();
    var i, j :| 0 <= i < j < |u| && u[i] == a && u[j] == b;
    AdvanceRotates(l);
    MakeBefore(l.Advance().Upcoming(), i - 1, j - 1, a, b);
  }

  lemma DistinctKept(l: Ring<nat>, e: RingEvent)
    requires l.Valid() && Distinct(l.items) && Possible(l, e)
    ensures Distinct(After(l, e).items)
  {
  }

  /** One event that neither selects, inserts nor removes `a` or `b` keeps their relative order. */
  lemma OrderKept(l: Ring<nat>, e: RingEvent, a: nat, b: nat)
    requires l.Valid() && Possible(l, e) && Before(l.Upcoming(), a, b)
    requires e != Leave(a) && e != Leave(b)
    requires e.Select? ==> l.Advance().Selected() != a
    ensures Before(After(l, e).Upcoming(), a, b)
  {
    match e
    case Select => SelectKeepsOrder(l, a, b);
    case Arrive(x) => ArriveKeepsOrder(l, x, a, b);
    case Leave(x) => LeaveKeepsOrder(l, x, a, b);
  }

  /** Selecting `a` sends it behind `b`. */
  lemma SelectMovesBehind(l: Ring<nat>, a: nat, b: nat)
    requires l.Valid() && Distinct(l.items) && l.items != []
    requires a != b && Before(l.Upcoming(), a, b) && l.Advance().Selected() == a
    ensures Before(l.Advance().Upcoming(), b, a)
  {
    var u := l.Upcoming();
    var i, j :| 0 <= i < j < |u| && u[i] == a && u[j] == b;
    AdvanceRotates(l);
    UpcomingDistinct(l);
    MakeBefore(l.Advance().Upcoming(), j - 1, |u| - 1, b, a);
  }

  lemma UpcomingDistinct(l: Ring<nat>)
    requires l.Valid() && Distinct(l.items)
    ensures Distinct(l.Upcoming())
  {
  }

  lemma SelectionsStep(l: Ring<nat>, es: seq<RingEvent>)
    requires l.Valid() && PossibleRun(l, es) && es != []
    ensures var rest := Selections(After(l, es[0]), es[1..]);
            Selections(l, es) == if es[0].Select? then [l.Advance().Selected()] + rest else rest
  {
  }

  /** The next item selected is the head of the upcoming order, so not one with another before it. */
  lemma HeadIsFirst(l: Ring<nat>, a: nat, b: nat)
    requires l.Valid() && Distinct(l.items) && l.items != []
    requires a != b && Before(l.Upcoming(), a, b)
    ensures l.Advance().Selected() != b
  {
    AdvanceRotates(l);
    UpcomingDistinct(l);
  }

  /** Nobody already behind `a` is selected before `a` is. */
  lemma {:induction false} NotBefore(l: Ring<nat>, es: seq<RingEvent>, a: nat, b: nat)
    requires l.Valid() && Distinct(l.items) && PossibleRun(l, es)
    requires a != b && Untouched(es, a) && Untouched(es, b)
    requires Before(l.Upcoming(), a, b) && a !in Selections(l, es)
    ensures b !in Selections(l, es) && Before(RunRing(l, es).Upcoming(), a, b)
    decreases |es|
  {
    if es != [] {
      var e := es[0];
      SelectionsStep(l, es);
      if e.Select? {
        HeadIsFirst(l, a, b);
      }
      DistinctKept(l, e);
      OrderKept(l, e, a, b);
      NotBefore(After(l, e), es[1..], a, b);
    }
  }

  /** How often `b` was selected in a round says whether it is still ahead of `a`. */
  ghost predicate RoundStatus(log: seq<nat>, fin: seq<nat>, a: nat, b: nat) {
    || (multiset(log)[b] == 0 && Before(fin, b, a))
    || (multiset(log)[b] == 1 && Before(fin, a, b))
  }

  /** While `a` waits, each `b` ahead of it is selected once, which is when it falls behind. */
  lemma {:induction false} OncePerRound(l: Ring<nat>, es: seq<RingEvent>, a: nat, b: nat)
    requires l.Valid() && Distinct(l.items) && PossibleRun(l, es)
    requires a != b && Untouched(es, a) && Untouched(es, b)
    requires Before(l.Upcoming(), b, a) && a !in Selections(l, es)
    ensures RoundStatus(Selections(l, es), RunRing(l, es).Upcoming(), a, b)
    decreases |es|
  {
    if es != [] {
      var e := es[0];
      var l' := After(l, e);
      var rest := Selections(l', es[1..]);
      SelectionsStep(l, es);
      DistinctKept(l, e);
      if e.Select? && l.Advance().Selected() == b {
        SelectMovesBehind(l, b, a);
        NotBefore(l', es[1..], a, b);
      } else {
        OrderKept(l, e, b, a);
        OncePerRound(l', es[1..], a, b);
      }
    }
  }

  /** Everyone else comes before the item the index rests on. */
  lemma SelectedIsLast(l: Ring<nat>, a: nat, b: nat)
    requires l.Valid() && l.index > 0 && l.Selected() == a
    requires b in l.items && a != b
    ensures Before(l.Upcoming(), b, a)
  {
    var i := l.Position(b);
    UpcomingAt(l, i);
    UpcomingAt(l, l.index - 1);
    MakeBefore(l.Upcoming(), Turn(l, i), Turn(l, l.index - 1), b, a);
  }

  /** Round robin is fair: between two consecutive selections of `a`, every other item that stays
      in the list is selected exactly once, whatever else arrives or leaves, including at the
      moving index. */
  lemma SelectedExactlyOnceBetween(l: Ring<nat>, es: seq<RingEvent>, a: nat, b: nat)
    requires l.Valid() && Distinct(l.items) && l.index > 0 && l.Selected() == a
    requires b in l.items && a != b
    requires PossibleRun(l, es) && Untouched(es, a) && Untouched(es, b)
    requires a !in Selections(l, es)
    requires RunRing(l, es).items != [] && RunRing(l, es).Advance().Selected() == a
    ensures multiset(Selections(l, es))[b] == 1
  {
    SelectedIsLast(l, a, b);
    OncePerRound(l, es, a, b);
    var fin := RunRing(l, es);
    StaysDistinct(l, es);
    if Before(fin.Upcoming(), b, a) {
      HeadIsFirst(fin, b, a);
    }
  }

  lemma {:induction false} StaysDistinct(l: Ring<nat>, es: seq<RingEvent>)
    requires l.Valid() && Distinct(l.items) && PossibleRun(l, es)
    ensures Distinct(RunRing(l, es).items)
    decreases |es|
  {
    if es != [] {
      DistinctKept(l, es[0]);
      hide Distinct, After;
      StaysDistinct(After(l, es[0]), es[1..]);
    }
  }
}
