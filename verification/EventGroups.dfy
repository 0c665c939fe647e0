/** Event groups miss no wake-up.  A task that waits keeps the bits it waits for, and how, in one word
    in its event list item; setting bits walks the list once, and clears bits only at the end. */
module EventGroups {

  /** A word as the set of its bits that are 1: the source only ever combines these words bit by bit,
      so `+`, `*` and `-` are its or, and, and and-not. */
  type Word = set<nat>

  /** 0x01000000, 0x02000000 and 0x04000000; and 0x80000000, by which the kernel marks the item. */
  const CLEAR_ON_EXIT: Word := {24}
  const UNBLOCKED_DUE_TO_BIT_SET: Word := {25}
  const WAIT_FOR_ALL: Word := {26}
  const VALUE_IN_USE: Word := {31}
  /** 0xff000000. */
  const CONTROL_BYTES: Word := {24, 25, 26, 27, 28, 29, 30, 31}

  /** A waiting task and its event item's value; and a task on its way, with the value it was given. */
  datatype Item = Item(task: nat, value: Word)

  datatype Group = Group(bits: Word, waiting: seq<Item>, woken: seq<Item>)

  // ---------------------------------------------------------------- the source's tests

  predicate TestWaitCondition(bits: Word, waitFor: Word, all: bool) {
    if !all then bits * waitFor != {} else bits * waitFor == waitFor
  }

  /** The word that remembers a wait. */
  function ItemValue(waitFor: Word, clear: bool, all: bool): Word {
    waitFor + (if clear then CLEAR_ON_EXIT else {}) + (if all then WAIT_FOR_ALL else {}) + VALUE_IN_USE
  }

  function WaitedFor(v: Word): Word { v - CONTROL_BYTES }

  /** What the walk tests of each item. */
  predicate Match(v: Word, bits: Word) {
    if v * WAIT_FOR_ALL == {} then WaitedFor(v) * bits != {} else WaitedFor(v) * bits == WaitedFor(v)
  }

  predicate Clears(v: Word) { v * CLEAR_ON_EXIT != {} }

  // ---------------------------------------------------------------- setting bits

  /** Those whose items match, with the value they are given, in the order of the list. */
  function Released(w: seq<Item>, bits: Word): seq<Item> {
    if w == [] then []
    else if Match(w[0].value, bits) then [Item(w[0].task, bits + UNBLOCKED_DUE_TO_BIT_SET)] + Released(w[1..], bits)
    else Released(w[1..], bits)
  }

  function Remaining(w: seq<Item>, bits: Word): seq<Item> {
    if w == [] then []
    else if Match(w[0].value, bits) then Remaining(w[1..], bits)
    else [w[0]] + Remaining(w[1..], bits)
  }

  /** The bits that those released want cleared. */
  function ToClear(w: seq<Item>, bits: Word): Word {
    if w == [] then {} else Contribution(w[0].value, bits) + ToClear(w[1..], bits)
  }

  function Contribution(v: Word, bits: Word): Word {
    if Match(v, bits) && Clears(v) then WaitedFor(v) else {}
  }

  function BitsSet(g: Group, b: Word): Group {
    var bits := g.bits + b;
    Group(bits - ToClear(g.waiting, bits), Remaining(g.waiting, bits), g.woken + Released(g.waiting, bits))
  }

  function BitsCleared(g: Group, b: Word): Group {
    g.(bits := g.bits - b)
  }

  // ---------------------------------------------------------------- waiting

  /** The waiting list is unordered: a newcomer goes to its end. */
  function Waited(g: Group, t: nat, waitFor: Word, clear: bool, all: bool, blocks: bool): Group {
    if TestWaitCondition(g.bits, waitFor, all) then (if clear then BitsCleared(g, waitFor) else g)
    else if blocks then g.(waiting := g.waiting + [Item(t, ItemValue(waitFor, clear, all))])
    else g
  }

  /** A rendezvous: set bits, and wait for all of a set that is then cleared. */
  function Synced(g: Group, t: nat, b: Word, waitFor: Word, blocks: bool): Group {
    var g1 := BitsSet(g, b);
    if (g.bits + b) * waitFor == waitFor then BitsCleared(g1, waitFor)
    else if blocks then g1.(waiting := g1.waiting + [Item(t, ItemValue(waitFor, true, true))])
    else g1
  }

  /** A task that timed out looks once more when it runs. */
  function LateLook(g: Group, waitFor: Word, clear: bool, all: bool): Group {
    if TestWaitCondition(g.bits, waitFor, all) && clear then BitsCleared(g, waitFor) else g
  }

  // ---------------------------------------------------------------- words

  /** The walk tests what the wait asked for. */
  lemma MatchIsCondition(waitFor: Word, clear: bool, all: bool, bits: Word)
    requires waitFor * CONTROL_BYTES == {}
    ensures Match(ItemValue(waitFor, clear, all), bits) <==> TestWaitCondition(bits, waitFor, all)
    ensures Clears(ItemValue(waitFor, clear, all)) <==> clear
    ensures WaitedFor(ItemValue(waitFor, clear, all)) == waitFor
  {
    var v := ItemValue(waitFor, clear, all);
    forall x | x in waitFor ensures x !in CONTROL_BYTES {
      assert x !in waitFor * CONTROL_BYTES;
    }
    assert WaitedFor(v) == waitFor;
    assert v * WAIT_FOR_ALL == if all then WAIT_FOR_ALL else {};
    assert v * CLEAR_ON_EXIT == if clear then CLEAR_ON_EXIT else {};
    assert 26 in WAIT_FOR_ALL && 24 in CLEAR_ON_EXIT;
    assert waitFor * bits == bits * waitFor;
  }

  /** Clearing bits can satisfy nobody. */
  lemma ClearingSatisfiesNobody(v: Word, bits: Word, cleared: Word)
    requires !Match(v, bits)
    ensures !Match(v, bits - cleared)
  {
    var w := WaitedFor(v);
    assert w * (bits - cleared) <= w * bits;
  }

  // ---------------------------------------------------------------- who is woken

  /** Exactly the waiters whose condition the bits meet are released, each with those bits. */
  lemma {:induction false} ReleasedExactly(w: seq<Item>, bits: Word, t: nat)
    ensures (exists x :: x in Released(w, bits) && x.task == t)
       <==> (exists y :: y in w && y.task == t && Match(y.value, bits))
    ensures forall x :: x in Released(w, bits) ==> x.value == bits + UNBLOCKED_DUE_TO_BIT_SET
    ensures forall y :: y in Remaining(w, bits) <==> y in w && !Match(y.value, bits)
  {
    hide Match;
    if w != [] {
      ReleasedExactly(w[1..], bits, t);
      assert w == [w[0]] + w[1..];
      if Match(w[0].value, bits) {
        var first := Item(w[0].task, bits + UNBLOCKED_DUE_TO_BIT_SET);
        assert Released(w, bits) == [first] + Released(w[1..], bits);
        assert first in Released(w, bits);
      }
    }
  }

  // ---------------------------------------------------------------- the order of the list is irrelevant

  function Without(w: seq<Item>, i: nat): seq<Item>
    requires i < |w|
  {
    w[..i] + w[i + 1..]
  }

  lemma WithoutTail(w: seq<Item>, i: nat)
    requires 0 < i < |w|
    ensures Without(w, i) == [w[0]] + Without(w[1..], i - 1)
    ensures Without(w, i)[1..] == Without(w[1..], i - 1)
  {
  }

  lemma WithoutMembers(w: seq<Item>, i: nat)
    requires i < |w|
    ensures multiset(w) == multiset{w[i]} + multiset(Without(w, i))
  {
    assert w == w[..i] + [w[i]] + w[i + 1..];
  }

  function ReleasedOne(x: Item, bits: Word): multiset<Item> {
    if Match(x.value, bits) then multiset{Item(x.task, bits + UNBLOCKED_DUE_TO_BIT_SET)} else multiset{}
  }

  function RemainingOne(x: Item, bits: Word): multiset<Item> {
    if Match(x.value, bits) then multiset{} else multiset{x}
  }

  /** An item may as well have come first: for those released ... */
  lemma {:induction false} ReleasedTakenOut(w: seq<Item>, bits: Word, i: nat)
    requires i < |w|
    ensures multiset(Released(w, bits)) == ReleasedOne(w[i], bits) + multiset(Released(Without(w, i), bits))
  {
    hide Match;
    if i == 0 {
      assert Without(w, 0) == w[1..];
    } else {
      ReleasedTakenOut(w[1..], bits, i - 1);
      WithoutTail(w, i);
      hide Without;
    }
  }

  /** ... for those who remain ... */
  lemma {:induction false} RemainingTakenOut(w: seq<Item>, bits: Word, i: nat)
    requires i < |w|
    ensures multiset(Remaining(w, bits)) == RemainingOne(w[i], bits) + multiset(Remaining(Without(w, i), bits))
  {
    hide Match;
    if i == 0 {
      assert Without(w, 0) == w[1..];
    } else {
      RemainingTakenOut(w[1..], bits, i - 1);
      WithoutTail(w, i);
      hide Without;
    }
  }

  /** ... and for what is cleared. */
  lemma {:induction false} ToClearTakenOut(w: seq<Item>, bits: Word, i: nat)
    requires i < |w|
    ensures ToClear(w, bits) == Contribution(w[i].value, bits) + ToClear(Without(w, i), bits)
  {
    hide Match, Contribution;
    if i == 0 {
      assert Without(w, 0) == w[1..];
    } else {
      ToClearTakenOut(w[1..], bits, i - 1);
      WithoutTail(w, i);
    }
  }

  lemma FindItem(w: seq<Item>, x: Item) returns (i: nat)
    requires x in w
    ensures i < |w| && w[i] == x
  {
    i :| 0 <= i < |w| && w[i] == x;
  }

  lemma CancelOne(x: Item, a: multiset<Item>, b: multiset<Item>)
    requires multiset{x} + a == multiset{x} + b
    ensures a == b
  {
    assert a == (multiset{x} + a) - multiset{x} && b == (multiset{x} + b) - multiset{x};
  }

  /** Whatever the order of the waiters, the same are released and remain, and the same bits cleared. */
  lemma {:induction false} OrderIrrelevant(w: seq<Item>, v: seq<Item>, bits: Word)
    requires multiset(w) == multiset(v)
    ensures multiset(Released(w, bits)) == multiset(Released(v, bits))
    ensures multiset(Remaining(w, bits)) == multiset(Remaining(v, bits))
    ensures ToClear(w, bits) == ToClear(v, bits)
    decreases |w|
  {
    hide Match, Contribution, Released, Remaining, ToClear, ReleasedOne, RemainingOne;
    if w == [] {
      assert |multiset(v)| == 0;
    } else {
      assert w[0] in multiset(v);
      var i := FindItem(v, w[0]);
      WithoutMembers(v, i);
      WithoutMembers(w, 0);
      ReleasedTakenOut(w, bits, 0);
      ReleasedTakenOut(v, bits, i);
      RemainingTakenOut(w, bits, 0);
      RemainingTakenOut(v, bits, i);
      ToClearTakenOut(w, bits, 0);
      ToClearTakenOut(v, bits, i);
      CancelOne(w[0], multiset(Without(w, 0)), multiset(Without(v, i)));
      OrderIrrelevant(Without(w, 0), Without(v, i), bits);
    }
  }

  /** So a set wakes the same tasks and leaves the same bits whoever came first. */
  lemma SetIgnoresOrder(g: Group, h: Group, b: Word)
    requires g.bits == h.bits && multiset(g.waiting) == multiset(h.waiting) && multiset(g.woken) == multiset(h.woken)
    ensures var g', h' := BitsSet(g, b), BitsSet(h, b);
            && g'.bits == h'.bits && multiset(g'.waiting) == multiset(h'.waiting)
            && multiset(g'.woken) == multiset(h'.woken)
  {
    OrderIrrelevant(g.waiting, h.waiting, g.bits + b);
    hide Released, Remaining, ToClear;
  }

  // ---------------------------------------------------------------- the invariant

  /** Nobody waits for what is already there. */
  predicate NobodyMissed(w: seq<Item>, bits: Word) {
    w == [] || (!Match(w[0].value, bits) && NobodyMissed(w[1..], bits))
  }

  predicate Inv(g: Group) {
    NobodyMissed(g.waiting, g.bits)
  }

  lemma {:induction false} RemainingMissed(w: seq<Item>, bits: Word)
    ensures NobodyMissed(Remaining(w, bits), bits)
  {
    hide Match;
    if w != [] {
      RemainingMissed(w[1..], bits);
    }
  }

  lemma {:induction false} FewerBits(w: seq<Item>, bits: Word, cleared: Word)
    requires NobodyMissed(w, bits)
    ensures NobodyMissed(w, bits - cleared)
  {
    hide Match;
    if w != [] {
      ClearingSatisfiesNobody(w[0].value, bits, cleared);
      FewerBits(w[1..], bits, cleared);
    }
  }

  lemma {:induction false} OneMore(w: seq<Item>, bits: Word, x: Item)
    requires NobodyMissed(w, bits) && !Match(x.value, bits)
    ensures NobodyMissed(w + [x], bits)
  {
    hide Match;
    if w == [] {
      assert w + [x] == [x];
    } else {
      OneMore(w[1..], bits, x);
      assert (w + [x])[1..] == w[1..] + [x];
    }
  }

  lemma {:induction false} OneFewer(w: seq<Item>, bits: Word, i: nat)
    requires NobodyMissed(w, bits) && i < |w|
    ensures NobodyMissed(Without(w, i), bits)
  {
    hide Match;
    if i == 0 {
      assert Without(w, 0) == w[1..];
    } else {
      OneFewer(w[1..], bits, i - 1);
      assert Without(w, i) == [w[0]] + Without(w[1..], i - 1);
      assert Without(w, i)[1..] == Without(w[1..], i - 1);
    }
  }

  /** After a set nobody waits for what is there, whatever was so before. */
  lemma SetKeeps(g: Group, b: Word)
    ensures Inv(BitsSet(g, b))
  {
    hide Match;
    RemainingMissed(g.waiting, g.bits + b);
    FewerBits(BitsSet(g, b).waiting, g.bits + b, ToClear(g.waiting, g.bits + b));
  }

  lemma ClearKeeps(g: Group, b: Word)
    requires Inv(g)
    ensures Inv(BitsCleared(g, b))
  {
    FewerBits(g.waiting, g.bits, b);
  }

  lemma WaitKeeps(g: Group, t: nat, waitFor: Word, clear: bool, all: bool, blocks: bool)
    requires Inv(g) && waitFor * CONTROL_BYTES == {}
    ensures Inv(Waited(g, t, waitFor, clear, all, blocks))
  {
    hide NobodyMissed, Match, ItemValue, TestWaitCondition;
    if TestWaitCondition(g.bits, waitFor, all) {
      ClearKeeps(g, waitFor);
    } else {
      MatchIsCondition(waitFor, clear, all, g.bits);
      OneMore(g.waiting, g.bits, Item(t, ItemValue(waitFor, clear, all)));
    }
  }

  lemma SyncKeeps(g: Group, t: nat, b: Word, waitFor: Word, blocks: bool)
    requires Inv(g) && waitFor * CONTROL_BYTES == {}
    ensures Inv(Synced(g, t, b, waitFor, blocks))
  {
    hide NobodyMissed, Match, ItemValue;
    var g1 := BitsSet(g, b);
    SetKeeps(g, b);
    if (g.bits + b) * waitFor == waitFor {
      ClearKeeps(g1, waitFor);
    } else {
      MatchIsCondition(waitFor, true, true, g.bits + b);
      ClearingSatisfiesNobody(ItemValue(waitFor, true, true), g.bits + b, ToClear(g.waiting, g.bits + b));
      OneMore(g1.waiting, g1.bits, Item(t, ItemValue(waitFor, true, true)));
    }
  }

  // ---------------------------------------------------------------- whole runs

  datatype Step =
    | Sets(b: Word)
    | ClearsBits(b: Word)
    | Waits(t: nat, waitFor: Word, clear: bool, all: bool, blocks: bool)
    | Syncs(t: nat, b: Word, waitFor: Word, blocks: bool)
    | TimesOut(i: nat)
    | LooksLate(waitFor: Word, clear: bool, all: bool)

  /** Tasks wait for event bits only, as the source asserts. */
  predicate Possible(g: Group, s: Step) {
    match s
    case Waits(_, waitFor, _, _, _) => waitFor * CONTROL_BYTES == {}
    case Syncs(_, _, waitFor, _) => waitFor * CONTROL_BYTES == {}
    case TimesOut(i) => i < |g.waiting|
    case _ => true
  }

  function Apply(g: Group, s: Step): Group
    requires Possible(g, s)
  {
    match s
    case Sets(b) => BitsSet(g, b)
    case ClearsBits(b) => BitsCleared(g, b)
    case Waits(t, waitFor, clear, all, blocks) => Waited(g, t, waitFor, clear, all, blocks)
    case Syncs(t, b, waitFor, blocks) => Synced(g, t, b, waitFor, blocks)
    case TimesOut(i) => g.(waiting := Without(g.waiting, i))
    case LooksLate(waitFor, clear, all) => LateLook(g, waitFor, clear, all)
  }

  lemma StepKeeps(g: Group, s: Step)
    requires Inv(g) && Possible(g, s)
    ensures Inv(Apply(g, s))
  {
    hide NobodyMissed, Match, BitsSet, Waited, Synced;
    match s
    case Sets(b) => SetKeeps(g, b);
    case ClearsBits(b) => ClearKeeps(g, b);
    case Waits(t, waitFor, clear, all, blocks) => WaitKeeps(g, t, waitFor, clear, all, blocks);
    case Syncs(t, b, waitFor, blocks) => SyncKeeps(g, t, b, waitFor, blocks);
    case TimesOut(i) => OneFewer(g.waiting, g.bits, i);
    case LooksLate(waitFor, clear, all) => ClearKeeps(g, waitFor);
  }

  predicate PossibleRun(g: Group, ss: seq<Step>)
    decreases |ss|
  {
    ss == [] || (Possible(g, ss[0]) && PossibleRun(Apply(g, ss[0]), ss[1..]))
  }

  function Run(g: Group, ss: seq<Step>): Group
    requires PossibleRun(g, ss)
    decreases |ss|
  {
    if ss == [] then g else Run(Apply(g, ss[0]), ss[1..])
  }

  /** In every reachable state, no task on the waiting list has its condition met. */
  lemma {:induction false} RunMissesNobody(g: Group, ss: seq<Step>)
    requires Inv(g) && PossibleRun(g, ss)
    ensures Inv(Run(g, ss))
    decreases |ss|
  {
    hide Inv, Possible, Apply;
    if ss != [] {
      StepKeeps(g, ss[0]);
      RunMissesNobody(Apply(g, ss[0]), ss[1..]);
    }
  }

  /** In particular, of a task that waits for any, or for all, of some bits. */
  lemma {:induction false} NobodyMissedMeans(w: seq<Item>, bits: Word, t: nat, waitFor: Word, clear: bool, all: bool)
    requires NobodyMissed(w, bits) && Item(t, ItemValue(waitFor, clear, all)) in w && waitFor * CONTROL_BYTES == {}
    ensures !TestWaitCondition(bits, waitFor, all)
  {
    hide Match, ItemValue, TestWaitCondition;
    if w[0] == Item(t, ItemValue(waitFor, clear, all)) {
      MatchIsCondition(waitFor, clear, all, bits);
    } else {
      assert w == [w[0]] + w[1..];
      NobodyMissedMeans(w[1..], bits, t, waitFor, clear, all);
    }
  }

  /** The value a task is released with tells it so, and the bits it then returns meet its condition;
      the value it waited with does not. */
  lemma ReleasedWaitIsMet(waitFor: Word, clear: bool, all: bool, bits: Word)
    requires waitFor * CONTROL_BYTES == {}
    ensures var v := ItemValue(waitFor, clear, all);
            var given := bits + UNBLOCKED_DUE_TO_BIT_SET;
            && v * UNBLOCKED_DUE_TO_BIT_SET == {} && given * UNBLOCKED_DUE_TO_BIT_SET != {}
            && (Match(v, bits) ==> TestWaitCondition(given - CONTROL_BYTES, waitFor, all))
  {
    forall x | x in waitFor ensures x !in CONTROL_BYTES {
      assert x !in waitFor * CONTROL_BYTES;
    }
    var given := bits + UNBLOCKED_DUE_TO_BIT_SET;
    MatchIsCondition(waitFor, clear, all, bits);
    assert 25 in given * UNBLOCKED_DUE_TO_BIT_SET;
    assert (given - CONTROL_BYTES) * waitFor == bits * waitFor;
    hide Match;
  }

  // ---------------------------------------------------------------- in place

  class EventGroup {
    var eventBits: Word
    var tasksWaitingForBits: seq<Item>
    ghost var woken: seq<Item>

    ghost function View(): Group
      reads this
    {
      Group(eventBits, tasksWaitingForBits, woken)
    }

    constructor ()
      ensures View() == Group({}, [], []) && Inv(View())
    {
      eventBits, tasksWaitingForBits, woken := {}, [], [];
    }

    /** Take the item at position `i` off the list and let its task go on with `value`. */
    method RemoveFromUnorderedEventList(i: nat, value: Word)
      requires i < |tasksWaitingForBits|
      modifies this`tasksWaitingForBits, this`woken
      ensures tasksWaitingForBits == old(Without(tasksWaitingForBits, i))
      ensures woken == old(woken) + [Item(old(tasksWaitingForBits[i].task), value)]
    {
      woken := woken + [Item(tasksWaitingForBits[i].task, value)];
      tasksWaitingForBits := tasksWaitingForBits[..i] + tasksWaitingForBits[i + 1..];
    }

    method Matches(value: Word, bits: Word) returns (matchFound: bool)
      ensures matchFound == Match(value, bits)
    {
      var bitsWaitedFor, controlBits := value - CONTROL_BYTES, value * CONTROL_BYTES;
      WordSplit(value);
      matchFound := false;
      if controlBits * WAIT_FOR_ALL == {} {
        if bitsWaitedFor * bits != {} {
          matchFound := true;
        }
      } else if bitsWaitedFor * bits == bitsWaitedFor {
        matchFound := true;
      }
    }

    method SetBits(bitsToSet: Word) returns (result: Word)
      modifies this
      ensures View() == BitsSet(old(View()), bitsToSet)
      ensures result == eventBits
    {
      hide Match, Clears, Contribution;
      var bitsToClear: Word := {};
      var i := 0;
      eventBits := eventBits + bitsToSet;
      ghost var w, bits := tasksWaitingForBits, eventBits;
      ghost var done := 0;
      assert w[0..] == w;
      while i < |tasksWaitingForBits|
        invariant 0 <= i <= |tasksWaitingForBits| && 0 <= done <= |w|
        invariant tasksWaitingForBits[i..] == w[done..]
        invariant tasksWaitingForBits[..i] + Remaining(w[done..], bits) == Remaining(w, bits)
        invariant woken + Released(w[done..], bits) == old(woken) + Released(w, bits)
        invariant bitsToClear + ToClear(w[done..], bits) == ToClear(w, bits)
        invariant eventBits == bits
        decreases |w| - done
      {
        var item := tasksWaitingForBits[i];
        assert item == tasksWaitingForBits[i..][0] == w[done];
        WalkStep(w, done, bits, bitsToClear);
        ghost var list, gone := tasksWaitingForBits, woken;
        var matchFound := Matches(item.value, eventBits);
        if matchFound {
          if ClearOnExit(item.value) {
            bitsToClear := bitsToClear + (item.value - CONTROL_BYTES);
          }
          RemoveFromUnorderedEventList(i, eventBits + UNBLOCKED_DUE_TO_BIT_SET);
          WalkedOver(list, i, gone, Item(item.task, bits + UNBLOCKED_DUE_TO_BIT_SET), Released(w[done + 1..], bits));
        } else {
          WalkedPast(list, i, Remaining(w[done + 1..], bits));
          i := i + 1;
        }
        done := done + 1;
      }
      WalkEnd(w, done, tasksWaitingForBits, i, bits, bitsToClear, woken);
      eventBits := eventBits - bitsToClear;
      result := eventBits;
    }

    method ClearBits(bitsToClear: Word) returns (before: Word)
      modifies this
      ensures View() == BitsCleared(old(View()), bitsToClear) && before == old(eventBits)
    {
      before := eventBits;
      eventBits := eventBits - bitsToClear;
    }

    /** Up to the point where the task blocks, if it does. */
    method WaitBits(t: nat, waitFor: Word, clear: bool, all: bool, canBlock: bool) returns (blocked: bool, bits: Word)
      modifies this
      ensures View() == Waited(old(View()), t, waitFor, clear, all, canBlock)
      ensures blocked <==> !TestWaitCondition(old(eventBits), waitFor, all) && canBlock
      ensures !blocked ==> bits == old(eventBits)
    {
      blocked, bits := false, eventBits;
      if TestWaitCondition(eventBits, waitFor, all) {
        if clear {
          eventBits := eventBits - waitFor;
        }
      } else if !canBlock {
      } else {
        var controlBits: Word := {};
        if clear {
          controlBits := controlBits + CLEAR_ON_EXIT;
        }
        if all {
          controlBits := controlBits + WAIT_FOR_ALL;
        }
        ControlWord(waitFor, controlBits, clear, all);
        tasksWaitingForBits := tasksWaitingForBits + [Item(t, waitFor + controlBits + VALUE_IN_USE)];
        blocked := true;
      }
    }

    /** Up to the point where the task blocks, if it does. */
    method Sync(t: nat, bitsToSet: Word, waitFor: Word, canBlock: bool) returns (blocked: bool, bits: Word)
      modifies this
      ensures View() == Synced(old(View()), t, bitsToSet, waitFor, canBlock)
      ensures blocked <==> (old(eventBits) + bitsToSet) * waitFor != waitFor && canBlock
      ensures !blocked ==> bits == if (old(eventBits) + bitsToSet) * waitFor == waitFor
                                   then old(eventBits) + bitsToSet else eventBits
    {
      hide BitsSet;
      var original := eventBits;
      bits := SetBits(bitsToSet);
      blocked := false;
      if (original + bitsToSet) * waitFor == waitFor {
        bits := original + bitsToSet;
        eventBits := eventBits - waitFor;
      } else if canBlock {
        ControlWord(waitFor, CLEAR_ON_EXIT + WAIT_FOR_ALL, true, true);
        tasksWaitingForBits := tasksWaitingForBits
                               + [Item(t, waitFor + (CLEAR_ON_EXIT + WAIT_FOR_ALL) + VALUE_IN_USE)];
        blocked := true;
      }
    }

    /** What a task that blocked does when it runs again, `value` being what its event item then holds;
        a rendezvous asks for all bits and clears them. */
    method LookAfterBlocking(value: Word, waitFor: Word, clear: bool, all: bool) returns (bits: Word)
      modifies this
      ensures View() == if value * UNBLOCKED_DUE_TO_BIT_SET == {} then LateLook(old(View()), waitFor, clear, all)
                        else old(View())
      ensures bits == (if value * UNBLOCKED_DUE_TO_BIT_SET == {} then old(eventBits) else value) - CONTROL_BYTES
    {
      bits := value;
      if bits * UNBLOCKED_DUE_TO_BIT_SET == {} {
        bits := eventBits;
        if TestWaitCondition(bits, waitFor, all) {
          if clear {
            eventBits := eventBits - waitFor;
          }
        }
      }
      bits := bits - CONTROL_BYTES;
    }
  }

  predicate ClearOnExit(v: Word) {
    (v * CONTROL_BYTES) * CLEAR_ON_EXIT != {}
  }

  lemma WordSplit(v: Word)
    ensures v - CONTROL_BYTES == WaitedFor(v)
    ensures (v * CONTROL_BYTES) * WAIT_FOR_ALL == v * WAIT_FOR_ALL
    ensures ClearOnExit(v) <==> Clears(v)
  {
  }

  lemma ControlWord(waitFor: Word, control: Word, clear: bool, all: bool)
    requires control == (if clear then CLEAR_ON_EXIT else {}) + (if all then WAIT_FOR_ALL else {})
    ensures waitFor + control + VALUE_IN_USE == ItemValue(waitFor, clear, all)
  {
  }

  /** What one item adds to the walk. */
  lemma WalkStep(w: seq<Item>, k: nat, bits: Word, c: Word)
    requires k < |w|
    ensures var v := w[k].value;
            && w[k..][1..] == w[k + 1..]
            && Released(w[k..], bits)
               == (if Match(v, bits) then [Item(w[k].task, bits + UNBLOCKED_DUE_TO_BIT_SET)] else [])
                  + Released(w[k + 1..], bits)
            && Remaining(w[k..], bits) == (if Match(v, bits) then [] else [w[k]]) + Remaining(w[k + 1..], bits)
            && c + ToClear(w[k..], bits)
               == (if Match(v, bits) && ClearOnExit(v) then c + (v - CONTROL_BYTES) else c) + ToClear(w[k + 1..], bits)
  {
    assert w[k..][1..] == w[k + 1..];
    WordSplit(w[k].value);
    hide Match, WaitedFor, Clears, ClearOnExit;
  }

  lemma WalkedOver(list: seq<Item>, i: nat, gone: seq<Item>, x: Item, rest: seq<Item>)
    requires i < |list|
    ensures Without(list, i)[i..] == list[i..][1..] && Without(list, i)[..i] == list[..i]
    ensures gone + ([x] + rest) == (gone + [x]) + rest
  {
  }

  lemma WalkedPast(list: seq<Item>, i: nat, rest: seq<Item>)
    requires i < |list|
    ensures list[i + 1..] == list[i..][1..]
    ensures list[..i] + ([list[i]] + rest) == list[..i + 1] + rest
  {
  }

  lemma WalkEnd(w: seq<Item>, done: nat, list: seq<Item>, i: nat, bits: Word, c: Word, gone: seq<Item>)
    requires done <= |w| && i == |list| && list[i..] == w[done..]
    ensures w[done..] == [] && list[..i] + Remaining(w[done..], bits) == list
    ensures c + ToClear(w[done..], bits) == c && gone + Released(w[done..], bits) == gone
  {
  }
}
