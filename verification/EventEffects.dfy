/** What each call on an event group does to its bits and to those who wait, told in terms of the waits
    themselves. */
module EventEffects {
  import opened EventGroups

  /** What a task asked for when it began to wait. */
  datatype Wait = Wait(task: nat, waitFor: Word, clear: bool, all: bool)

  predicate Proper(y: Wait) { y.waitFor * CONTROL_BYTES == {} }

  predicate Met(y: Wait, bits: Word) { TestWaitCondition(bits, y.waitFor, y.all) }

  /** The items that stand for these waits, in order. */
  function ItemOf(y: Wait): Item {
    Item(y.task, ItemValue(y.waitFor, y.clear, y.all))
  }

  function Items(ys: seq<Wait>): seq<Item> {
    if ys == [] then [] else [ItemOf(ys[0])] + Items(ys[1..])
  }

  predicate AllProper(ys: seq<Wait>) {
    ys == [] || (Proper(ys[0]) && AllProper(ys[1..]))
  }

  // ---------------------------------------------------------------- setting bits

  /** The bits that someone released asked to have cleared. */
  ghost predicate ClearedFor(ys: seq<Wait>, bits: Word, x: nat) {
    exists i :: 0 <= i < |ys| && Met(ys[i], bits) && ys[i].clear && x in ys[i].waitFor
  }

  lemma {:induction false} ToClearIs(w: seq<Item>, bits: Word, x: nat)
    ensures x in ToClear(w, bits)
       <==> exists i :: 0 <= i < |w| && Match(w[i].value, bits) && Clears(w[i].value) && x in WaitedFor(w[i].value)
  {
    hide Match, Clears, WaitedFor;
    if w != [] {
      ToClearIs(w[1..], bits, x);
      assert forall i :: 0 <= i < |w| - 1 ==> w[1..][i] == w[i + 1];
      assert forall i :: 0 < i < |w| ==> w[i] == w[1..][i - 1];
    }
  }

  /** A set leaves exactly the bits there were and the bits set, without those that a task it releases
      waited for and asked to have cleared. */
  lemma SetLeaves(g: Group, b: Word, x: nat)
    ensures x in BitsSet(g, b).bits <==>
              && (x in g.bits || x in b)
              && !exists i :: 0 <= i < |g.waiting| && Match(g.waiting[i].value, g.bits + b)
                                && Clears(g.waiting[i].value) && x in WaitedFor(g.waiting[i].value)
  {
    hide Match, Clears, WaitedFor, Remaining, Released, ToClear;
    ToClearIs(g.waiting, g.bits + b, x);
  }

  lemma {:induction false} ItemsAre(ys: seq<Wait>)
    ensures |Items(ys)| == |ys|
    ensures forall i :: 0 <= i < |ys| ==> Items(ys)[i] == ItemOf(ys[i])
  {
    hide ItemValue;
    if ys != [] {
      ItemsAre(ys[1..]);
    }
  }

  lemma {:induction false} ProperAt(ys: seq<Wait>, i: nat)
    requires AllProper(ys) && i < |ys|
    ensures Proper(ys[i])
  {
    if i > 0 {
      ProperAt(ys[1..], i - 1);
    }
  }

  /** The same of the waits. */
  lemma SetLeavesOfWaits(ys: seq<Wait>, g: Group, b: Word, x: nat)
    requires g.waiting == Items(ys) && AllProper(ys)
    ensures x in BitsSet(g, b).bits <==> (x in g.bits || x in b) && !ClearedFor(ys, g.bits + b, x)
  {
    var bits, w := g.bits + b, g.waiting;
    SetLeaves(g, b, x);
    ItemsAre(ys);
    hide Match, Clears, WaitedFor, ItemValue, Items, BitsSet, TestWaitCondition;
    forall i | 0 <= i < |ys|
      ensures Match(w[i].value, bits) && Clears(w[i].value) && x in WaitedFor(w[i].value)
         <==> Met(ys[i], bits) && ys[i].clear && x in ys[i].waitFor {
      ProperAt(ys, i);
      MatchIsCondition(ys[i].waitFor, ys[i].clear, ys[i].all, bits);
    }
  }

  /** Who still waits after a set, and who has been released with which bits. */
  function StillWaiting(ys: seq<Wait>, bits: Word): seq<Wait> {
    if ys == [] then [] else (if Met(ys[0], bits) then [] else [ys[0]]) + StillWaiting(ys[1..], bits)
  }

  function LetGo(ys: seq<Wait>, bits: Word): seq<Item> {
    if ys == [] then []
    else (if Met(ys[0], bits) then [Item(ys[0].task, bits + UNBLOCKED_DUE_TO_BIT_SET)] else [])
         + LetGo(ys[1..], bits)
  }

  /** A set releases exactly the waits that the old bits or those set meet, first come first served, each
      with those bits; the others wait on in the same order. */
  lemma SetReleases(ys: seq<Wait>, g: Group, b: Word)
    requires g.waiting == Items(ys) && AllProper(ys)
    ensures var g', bits := BitsSet(g, b), g.bits + b;
            g'.waiting == Items(StillWaiting(ys, bits)) && g'.woken == g.woken + LetGo(ys, bits)
  {
    RemainingAre(ys, g.bits + b);
    hide Remaining, Released, ToClear;
  }

  lemma ItemsUnrolled(y: Wait, ys: seq<Wait>)
    ensures Items([y] + ys) == [ItemOf(y)] + Items(ys)
  {
    assert ([y] + ys)[1..] == ys;
  }

  lemma ReleaseUnrolled(x: Item, w: seq<Item>, bits: Word)
    ensures Remaining([x] + w, bits) == if Match(x.value, bits) then Remaining(w, bits) else [x] + Remaining(w, bits)
    ensures Released([x] + w, bits)
         == (if Match(x.value, bits) then [Item(x.task, bits + UNBLOCKED_DUE_TO_BIT_SET)] else []) + Released(w, bits)
  {
    assert ([x] + w)[1..] == w;
    hide Match;
  }

  lemma {:induction false} RemainingAre(ys: seq<Wait>, bits: Word)
    requires AllProper(ys)
    ensures Remaining(Items(ys), bits) == Items(StillWaiting(ys, bits))
    ensures Released(Items(ys), bits) == LetGo(ys, bits)
  {
    hide Match, TestWaitCondition, ItemValue, Proper, Items, Remaining, Released;
    if ys == [] {
      NothingToRelease(bits);
    } else {
      var y, rest := ys[0], ys[1..];
      ProperMeans(y);
      MatchIsCondition(y.waitFor, y.clear, y.all, bits);
      RemainingAre(rest, bits);
      assert ys == [y] + rest;
      ItemsUnrolled(y, rest);
      ItemsUnrolled(y, StillWaiting(rest, bits));
      ReleaseUnrolled(ItemOf(y), Items(rest), bits);
      assert [] + LetGo(rest, bits) == LetGo(rest, bits);
      assert [] + StillWaiting(rest, bits) == StillWaiting(rest, bits);
    }
  }

  lemma NothingToRelease(bits: Word)
    ensures Items([]) == [] && Remaining([], bits) == [] && Released([], bits) == []
  {
  }

  lemma ProperMeans(y: Wait)
    requires Proper(y)
    ensures y.waitFor * CONTROL_BYTES == {}
  {
  }

  // ---------------------------------------------------------------- waiting

  /** A wait that is met takes nobody off the list and clears exactly what it waited for, if it asked to;
      one that is not met leaves the bits alone, and its task is at the end of the list if it blocks. */
  lemma WaitMeans(ys: seq<Wait>, g: Group, y: Wait, blocks: bool)
    requires g.waiting == Items(ys)
    ensures var g' := Waited(g, y.task, y.waitFor, y.clear, y.all, blocks);
            && g'.woken == g.woken
            && (forall x :: x in g'.bits <==> x in g.bits && !(Met(y, g.bits) && y.clear && x in y.waitFor))
            && g'.waiting == Items(if !Met(y, g.bits) && blocks then ys + [y] else ys)
  {
    ItemsAppend(ys, y);
    hide ItemValue, Items, TestWaitCondition;
  }

  lemma {:induction false} ItemsAppend(ys: seq<Wait>, y: Wait)
    ensures Items(ys + [y]) == Items(ys) + [ItemOf(y)]
  {
    hide ItemValue;
    if ys == [] {
      assert [] + [y] == [y] && [y][1..] == [];
    } else {
      ItemsAppend(ys[1..], y);
      assert (ys + [y])[1..] == ys[1..] + [y];
    }
  }

  /** A rendezvous that finds all its bits, with those it sets itself, leaves them all clear; one that does
      not sets its bits and waits at the end of the list for all of them, to be cleared. */
  lemma SyncMeans(ys: seq<Wait>, g: Group, t: nat, b: Word, waitFor: Word, blocks: bool)
    requires g.waiting == Items(ys) && AllProper(ys)
    ensures var g', g1 := Synced(g, t, b, waitFor, blocks), BitsSet(g, b);
            var met := waitFor <= g.bits + b;
            var still := StillWaiting(ys, g.bits + b);
            && g'.woken == g1.woken
            && (forall x :: x in g'.bits <==> x in g1.bits && !(met && x in waitFor))
            && g'.waiting == Items(if !met && blocks then still + [Wait(t, waitFor, true, true)] else still)
  {
    SetReleases(ys, g, b);
    ItemsAppend(StillWaiting(ys, g.bits + b), Wait(t, waitFor, true, true));
    AllOfThem(g.bits + b, waitFor);
    hide ItemValue, Items, BitsSet, StillWaiting;
  }

  lemma AllOfThem(bits: Word, waitFor: Word)
    ensures bits * waitFor == waitFor <==> waitFor <= bits
  {
  }

  /** A task that timed out still clears what it waited for if it finds it met, and wakes nobody. */
  lemma LateLookMeans(g: Group, waitFor: Word, clear: bool, all: bool)
    ensures var g' := LateLook(g, waitFor, clear, all);
            && g'.waiting == g.waiting && g'.woken == g.woken
            && forall x :: x in g'.bits <==>
                 x in g.bits && !(TestWaitCondition(g.bits, waitFor, all) && clear && x in waitFor)
  {
    hide TestWaitCondition;
  }

  lemma ClearMeans(g: Group, b: Word)
    ensures var g' := BitsCleared(g, b);
            && g'.waiting == g.waiting && g'.woken == g.woken && forall x :: x in g'.bits <==> x in g.bits && x !in b
  {
  }

  // ---------------------------------------------------------------- nobody is forgotten

  /** `t` waits, or has been released. */
  predicate Known(g: Group, t: nat) {
    OnList(g.waiting, t) || OnList(g.woken, t)
  }

  predicate OnList(w: seq<Item>, t: nat) {
    w != [] && (w[0].task == t || OnList(w[1..], t))
  }

  lemma {:induction false} OnConcat(a: seq<Item>, b: seq<Item>, t: nat)
    ensures OnList(a + b, t) <==> OnList(a, t) || OnList(b, t)
  {
    if a == [] {
      assert a + b == b;
    } else {
      OnConcat(a[1..], b, t);
      assert (a + b)[1..] == a[1..] + b;
    }
  }

  lemma {:induction false} SplitBySet(w: seq<Item>, bits: Word, t: nat)
    ensures OnList(w, t) <==> OnList(Remaining(w, bits), t) || OnList(Released(w, bits), t)
  {
    hide Match;
    if w != [] {
      SplitBySet(w[1..], bits, t);
      var a, r := [w[0]] + Remaining(w[1..], bits), Released(w[1..], bits);
      assert a[1..] == Remaining(w[1..], bits);
      assert ([Item(w[0].task, bits + UNBLOCKED_DUE_TO_BIT_SET)] + r)[1..] == r;
    }
  }

  lemma SetForgetsNobody(g: Group, b: Word, t: nat)
    ensures Known(BitsSet(g, b), t) <==> Known(g, t)
  {
    SplitBySet(g.waiting, g.bits + b, t);
    OnConcat(g.woken, Released(g.waiting, g.bits + b), t);
    hide OnList, Released, Remaining, ToClear;
  }

  lemma OneMoreOnList(g: Group, x: Item, t: nat)
    ensures OnList(g.waiting + [x], t) <==> OnList(g.waiting, t) || x.task == t
  {
    OnConcat(g.waiting, [x], t);
    assert [x][1..] == [];
  }

  /** Of the tasks on the list and those released no step drops one, except the one whose wait times out. */
  lemma StepForgetsNobody(g: Group, s: Step, t: nat)
    requires Possible(g, s) && Known(g, t) && (s.TimesOut? ==> g.waiting[s.i].task != t)
    ensures Known(Apply(g, s), t)
  {
    hide OnList, BitsSet, ItemValue, TestWaitCondition;
    match s
    case Sets(b) => SetForgetsNobody(g, b, t);
    case ClearsBits(b) =>
    case Waits(u, waitFor, clear, all, blocks) => OneMoreOnList(g, Item(u, ItemValue(waitFor, clear, all)), t);
    case Syncs(u, b, waitFor, blocks) =>
      SetForgetsNobody(g, b, t);
      OneMoreOnList(BitsSet(g, b), Item(u, ItemValue(waitFor, true, true)), t);
    case TimesOut(i) =>
      if OnList(g.waiting, t) {
        StillOnList(g.waiting, i, t);
      }
    case LooksLate(waitFor, clear, all) =>
  }

  lemma {:induction false} StillOnList(w: seq<Item>, i: nat, t: nat)
    requires i < |w| && w[i].task != t && OnList(w, t)
    ensures OnList(Without(w, i), t)
  {
    if i == 0 {
      assert Without(w, 0) == w[1..];
    } else {
      assert Without(w, i)[0] == w[0] && Without(w, i)[1..] == Without(w[1..], i - 1);
      if w[0].task != t {
        StillOnList(w[1..], i - 1, t);
      }
    }
  }

  predicate KeepsWaiting(g: Group, ss: seq<Step>, t: nat)
    requires PossibleRun(g, ss)
    decreases |ss|
  {
    ss == [] ||
    ((ss[0].TimesOut? ==> g.waiting[ss[0].i].task != t) && KeepsWaiting(Apply(g, ss[0]), ss[1..], t))
  }

  /** So over any run a task that waits is on the list or has been released, until its wait times out. */
  lemma {:induction false} NobodyForgotten(g: Group, ss: seq<Step>, t: nat)
    requires PossibleRun(g, ss) && KeepsWaiting(g, ss, t) && Known(g, t)
    ensures Known(Run(g, ss), t)
    decreases |ss|
  {
    hide Known, Apply;
    if ss != [] {
      StepForgetsNobody(g, ss[0], t);
      NobodyForgotten(Apply(g, ss[0]), ss[1..], t);
    }
  }
}
