/** The linked form of the kernel's lists: circular, doubly linked, closed by an end marker that
    carries the largest value.  Each method is proved against the ring it implements. */
module ListNodes {
  import opened Ticks
  import opened Lists

  class Node {
    var value: Tick
    var owner: nat
    var next: Node?
    var prev: Node?
    var container: KernelList?

    constructor (owner: nat, value: Tick)
      ensures this.owner == owner && this.value == value && container == null
    {
      this.owner, this.value := owner, value;
      next, prev, container := null, null, null;
    }
  }

  ghost function Entries(ns: seq<Node>): (r: seq<Entry>)
    reads ns`owner, ns`value
    ensures |r| == |ns|
    ensures forall i {:trigger r[i]} :: 0 <= i < |ns| ==> r[i] == Entry(ns[i].owner, ns[i].value)
  {
    if ns == [] then [] else [Entry(ns[0].owner, ns[0].value)] + Entries(ns[1..])
  }

  /** The positions after and before `i` around a circle of `n`. */
  function Following(i: nat, n: nat): nat
    requires i < n
  {
    if i + 1 == n then 0 else i + 1
  }

  function Preceding(i: nat, n: nat): nat
    requires i < n
  {
    if i == 0 then n - 1 else i - 1
  }

  ghost predicate DistinctNodes(ns: seq<Node>) {
    forall i, j :: 0 <= i < j < |ns| ==> ns[i] != ns[j]
  }

  /** The nodes form one circle, linked both ways in this order. */
  ghost predicate Linked(ns: seq<Node>)
    reads ns`next, ns`prev
  {
    && (forall i {:trigger ns[i].next} :: 0 <= i < |ns| ==> ns[i].next == ns[Following(i, |ns|)])
    && (forall i {:trigger ns[i].prev} :: 0 <= i < |ns| ==> ns[i].prev == ns[Preceding(i, |ns|)])
  }

  function Spliced(ns: seq<Node>, item: Node, p: nat): seq<Node>
    requires p <= |ns|
  {
    ns[..p] + [item] + ns[p..]
  }

  function Cut(ns: seq<Node>, p: nat): seq<Node>
    requires p < |ns|
  {
    ns[..p] + ns[p + 1..]
  }

  lemma SplicedDistinct(ns: seq<Node>, item: Node, p: nat)
    requires p <= |ns| && DistinctNodes(ns) && item !in ns
    ensures DistinctNodes(Spliced(ns, item, p))
  {
  }

  lemma CutDistinct(ns: seq<Node>, p: nat)
    requires p < |ns| && DistinctNodes(ns)
    ensures DistinctNodes(Cut(ns, p))
    ensures forall i :: 0 <= i < |ns| - 1 ==> Cut(ns, p)[i] != ns[p]
  {
  }

  /** Four pointer writes put `item` behind position `k`. */
  lemma SplicedIn(ns: seq<Node>, item: Node, k: nat)
    requires k < |ns|
    requires item.next == ns[Following(k, |ns|)] && item.prev == ns[k]
    requires ns[k].next == item && ns[Following(k, |ns|)].prev == item
    requires forall i {:trigger ns[i].next} :: 0 <= i < |ns| && i != k ==>
               ns[i].next == ns[Following(i, |ns|)]
    requires forall i {:trigger ns[i].prev} :: 0 <= i < |ns| && i != Following(k, |ns|) ==>
               ns[i].prev == ns[Preceding(i, |ns|)]
    ensures Linked(Spliced(ns, item, k + 1))
  {
    var now := Spliced(ns, item, k + 1);
    forall i | 0 <= i < |now| ensures now[i].next == now[Following(i, |now|)] {
      if i <= k { assert now[i] == ns[i]; } else if i > k + 1 { assert now[i] == ns[i - 1]; }
    }
    forall i | 0 <= i < |now| ensures now[i].prev == now[Preceding(i, |now|)] {
      if i <= k { assert now[i] == ns[i]; } else if i > k + 1 { assert now[i] == ns[i - 1]; }
    }
  }

  /** Two pointer writes close the circle over the node at position `p`. */
  lemma CutOut(ns: seq<Node>, p: nat)
    requires 0 < p < |ns|
    requires ns[p - 1].next == ns[Following(p, |ns|)] && ns[Following(p, |ns|)].prev == ns[p - 1]
    requires forall i {:trigger ns[i].next} :: 0 <= i < |ns| && i != p - 1 ==>
               ns[i].next == ns[Following(i, |ns|)]
    requires forall i {:trigger ns[i].prev} :: 0 <= i < |ns| && i != Following(p, |ns|) ==>
               ns[i].prev == ns[Preceding(i, |ns|)]
    ensures Linked(Cut(ns, p))
  {
    var now := Cut(ns, p);
    forall i | 0 <= i < |now| ensures now[i].next == now[Following(i, |now|)] {
      if i < p { assert now[i] == ns[i]; } else { assert now[i] == ns[i + 1]; }
    }
    forall i | 0 <= i < |now| ensures now[i].prev == now[Preceding(i, |now|)] {
      if i < p { assert now[i] == ns[i]; } else { assert now[i] == ns[i + 1]; }
    }
  }

  /** The four pointer writes of an insertion, behind the node `before` at position `k`. */
  method Splice(item: Node, before: Node, after: Node, ghost ns: seq<Node>, ghost k: nat)
    requires DistinctNodes(ns) && Linked(ns) && item !in ns && k < |ns|
    requires before == ns[k] && after == ns[Following(k, |ns|)]
    modifies item`next, item`prev, before`next, after`prev
    ensures Linked(Spliced(ns, item, k + 1))
  {
    item.next := after;
    item.prev := before;
    before.next := item;
    after.prev := item;
    SplicedIn(ns, item, k);
  }

  lemma Neighbours(ns: seq<Node>, p: nat)
    requires Linked(ns) && 0 < p < |ns|
    ensures ns[p].prev == ns[p - 1] && ns[p].next == ns[Following(p, |ns|)]
  {
  }

  /** The two pointer writes of a removal. */
  method Bypass(before: Node, after: Node, ghost ns: seq<Node>, ghost p: nat)
    requires DistinctNodes(ns) && Linked(ns) && 0 < p < |ns|
    requires before == ns[p - 1] && after == ns[Following(p, |ns|)]
    modifies before`next, after`prev
    ensures Linked(Cut(ns, p))
  {
    after.prev := before;
    before.next := after;
    CutOut(ns, p);
  }

  lemma EntriesSplicedIn(ns: seq<Node>, item: Node, p: nat)
    requires 0 < p <= |ns|
    ensures Entries(Spliced(ns, item, p)[1..])
         == Entries(ns[1..])[..p - 1] + [Entry(item.owner, item.value)] + Entries(ns[1..])[p - 1..]
  {
    assert Spliced(ns, item, p)[1..] == ns[1..p] + [item] + ns[p..];
  }

  lemma EntriesCutOut(ns: seq<Node>, p: nat)
    requires 0 < p < |ns|
    ensures Entries(Cut(ns, p)[1..]) == Entries(ns[1..])[..p - 1] + Entries(ns[1..])[p..]
  {
    assert Cut(ns, p)[1..] == ns[1..p] + ns[p + 1..];
  }

  /** A newcomer at the position before the index is where `InsertEnd` puts it. */
  lemma PlacedBeforeIndex<T>(l: Ring<T>, l': Ring<T>, x: T)
    requires l.Valid()
    requires var k := Preceding(l.index, |l.items| + 1);
             && l'.items == l.items[..k] + [x] + l.items[k..]
             && l'.index == if l.index > k then l.index + 1 else l.index
    ensures l' == l.InsertEnd(x)
  {
  }

  class KernelList {
    var count: nat
    var index: Node
    const end: Node

    /** All nodes in link order, the end marker first. */
    ghost var nodes: seq<Node>
    /** Where `index` points. */
    ghost var at: nat

    /** Everything but the links. */
    ghost predicate Shape()
      reads this, nodes`container, end`value
    {
      && nodes != [] && nodes[0] == end && DistinctNodes(nodes)
      && count == |nodes| - 1
      && at < |nodes| && index == nodes[at]
      && (forall i :: 0 < i < |nodes| ==> nodes[i].container == this)
      && end.value == MAX_DELAY
    }

    ghost predicate Valid()
      reads this, nodes, end`value
    {
      Shape() && Linked(nodes)
    }

    ghost function View(): (r: Ring<Entry>)
      requires Shape()
      reads this, nodes`container, nodes`owner, nodes`value, end`value
      ensures r.Valid() && |r.items| == count
    {
      Ring(Entries(nodes[1..]), at)
    }

    constructor ()
      ensures Valid() && fresh(nodes) && View() == Ring([], 0)
    {
      var marker := new Node(0, MAX_DELAY);
      end := marker;
      index := marker;
      count := 0;
      nodes, at := [marker], 0;
      new;
      end.next, end.prev := end, end;
    }

    /** The bookkeeping of an insertion behind position `k`. */
    method Adopt(item: Node, ghost k: nat)
      requires Shape() && item !in nodes && k < |nodes|
      modifies this, item`container
      ensures Shape() && index == old(index) && nodes == Spliced(old(nodes), item, k + 1)
      ensures View().items
           == old(View()).items[..k] + [Entry(item.owner, item.value)] + old(View()).items[k..]
      ensures at == if old(at) > k then old(at) + 1 else old(at)
    {
      hide Entries, DistinctNodes;
      SplicedDistinct(nodes, item, k + 1);
      EntriesSplicedIn(nodes, item, k + 1);
      item.container := this;
      count := count + 1;
      nodes := Spliced(nodes, item, k + 1);
      at := if at > k then at + 1 else at;
    }

    /** Link `item` behind the node `before`, at position `k`. */
    method LinkAfter(item: Node, before: Node, ghost k: nat)
      requires Valid() && item !in nodes && k < |nodes| && before == nodes[k]
      modifies this, item`container, item`next, item`prev, before`next, before.next`prev
      ensures Valid() && index == old(index) && nodes == Spliced(old(nodes), item, k + 1)
      ensures View().items
           == old(View()).items[..k] + [Entry(item.owner, item.value)] + old(View()).items[k..]
      ensures at == if old(at) > k then old(at) + 1 else old(at)
    {
      ghost var ns := nodes;
      Adopt(item, k);
      Splice(item, before, before.next, ns, k);
    }

    /** Link `item` just before the index. */
    method InsertEnd(item: Node)
      requires Valid() && item !in nodes
      modifies this, item`container, item`next, item`prev, nodes`next, nodes`prev
      ensures Valid() && index == old(index)
      ensures nodes == Spliced(old(nodes), item, Preceding(old(at), |old(nodes)|) + 1)
      ensures View() == old(View()).InsertEnd(old(Entry(item.owner, item.value)))
    {
      hide Entries, DistinctNodes;
      ghost var l, x, k := View(), Entry(item.owner, item.value), Preceding(at, |nodes|);
      assert index.prev == nodes[k];
      hide Linked, Preceding, Ring.InsertEnd;
      LinkAfter(item, index.prev, k);
      PlacedBeforeIndex(l, View(), x);
    }

    /** The insertion scan: the last node not above `v`.  It stops because the end marker holds the
        largest value; `v` being that very value is answered without scanning. */
    method Scan(v: Tick) returns (it: Node, ghost k: nat)
      requires Valid()
      ensures k < |nodes| && it == nodes[k]
      ensures forall i :: 0 <= i < k ==> View().items[i].value <= v
      ensures k < |View().items| ==> v < View().items[k].value
    {
      it, k := end, 0;
      if v == MAX_DELAY {
        it := end.prev;
        k := |nodes| - 1;
      } else {
        while it.next.value <= v
          invariant k < |nodes| && it == nodes[k]
          invariant forall i :: 0 < i <= k ==> nodes[i].value <= v
          decreases |nodes| - k
        {
          it := it.next;
          k := k + 1;
        }
        assert it.next == nodes[Following(k, |nodes|)];
      }
      ghost var es := View().items;
      assert k + 1 < |nodes| ==> es[k] == Entry(nodes[k + 1].owner, nodes[k + 1].value);
      forall i | 0 <= i < k ensures es[i].value <= v {
        assert es[i] == Entry(nodes[i + 1].owner, nodes[i + 1].value);
      }
    }

    /** Link `item` in value order, behind its equals. */
    method Insert(item: Node) returns (ghost k: nat)
      requires Valid() && item !in nodes
      modifies this, item`container, item`next, item`prev, nodes`next, nodes`prev
      ensures Valid() && index == old(index)
      ensures k < |old(nodes)| && nodes == Spliced(old(nodes), item, k + 1)
      ensures View().items == InsertSorted(old(View()).items, old(Entry(item.owner, item.value)))
      ensures at == if old(at) > k then old(at) + 1 else old(at)
    {
      hide Entries, DistinctNodes, InsertSorted;
      var it: Node;
      it, k := Scan(item.value);
      InsertLandsAt(View().items, Entry(item.owner, item.value), k);
      LinkAfter(item, it, k);
    }

    /** The bookkeeping of a removal of position `p` of the ring, once the index is off it. */
    method Disown(item: Node, ghost p: nat)
      requires Shape() && p + 1 < |nodes| && nodes[p + 1] == item && index != item
      modifies this, item`container
      ensures Shape() && item.container == null && index == old(index) && nodes == Cut(old(nodes), p + 1)
      ensures View().items == old(View()).items[..p] + old(View()).items[p + 1..]
      ensures at == if old(at) > p then old(at) - 1 else old(at)
    {
      hide Entries, DistinctNodes;
      CutDistinct(nodes, p + 1);
      EntriesCutOut(nodes, p + 1);
      item.container := null;
      count := count - 1;
      at := if at > p then at - 1 else at;
      nodes := Cut(nodes, p + 1);
    }

    /** Leave the index on the predecessor of `item` if it is on `item`. */
    method MoveIndexOff(item: Node, ghost p: nat)
      requires Valid() && p + 1 < |nodes| && nodes[p + 1] == item
      modifies this`index, this`at
      ensures Valid() && index != item && nodes == old(nodes) && View().items == old(View()).items
      ensures at == if old(at) == p + 1 then p else old(at)
      ensures old(index) != item ==> index == old(index)
    {
      if index == item {
        index := item.prev;
        at := p;
      }
    }

    /** Unlink `item`, at position `p` of the ring, once the index is off it. */
    method Unlink(item: Node, before: Node, after: Node, ghost p: nat)
      requires Valid() && p + 1 < |nodes| && nodes[p + 1] == item && index != item
      requires before == item.prev && after == item.next
      modifies this, item`container, before`next, after`prev
      ensures Valid() && item.container == null && index == old(index) && nodes == Cut(old(nodes), p + 1)
      ensures View().items == old(View()).items[..p] + old(View()).items[p + 1..]
      ensures at == if old(at) > p then old(at) - 1 else old(at)
    {
      hide Entries, Linked, DistinctNodes, Following, Preceding, Cut;
      ghost var ns := nodes;
      Neighbours(ns, p + 1);
      DistinctNow(ns);
      Disown(item, p);
      assert Linked(ns);
      ghost var items := View().items;
      hide Shape, View;
      Bypass(before, after, ns, p + 1);
      assert Shape() && View().items == items;
    }

    lemma DistinctNow(ns: seq<Node>)
      requires Shape() && ns == nodes
      ensures DistinctNodes(ns)
    {
    }

    /** Remove `item`, which is at position `p` of the ring. */
    method Remove(item: Node, ghost p: nat) returns (left: nat)
      requires Valid() && p + 1 < |nodes| && nodes[p + 1] == item
      modifies this, item`container, nodes`next, nodes`prev
      ensures Valid() && item.container == null && nodes == Cut(old(nodes), p + 1)
      ensures old(index) != item ==> index == old(index)
      ensures View() == old(View()).RemoveAt(p)
      ensures left == |View().items|
    {
      hide Entries, DistinctNodes, Linked, Preceding;
      Neighbours(nodes, p + 1);
      MoveIndexOff(item, p);
      ghost var moved := at;
      Unlink(item, item.prev, item.next, p);
      assert at == if moved > p then moved - 1 else moved;
      left := count;
    }

    /** Step the index past the end marker if need be, and report the owner it lands on. */
    method OwnerOfNextEntry() returns (owner: nat)
      requires Valid() && count > 0
      modifies this
      ensures Valid() && nodes == old(nodes)
      ensures View() == old(View()).Advance() && owner == View().Selected().owner
    {
      hide Entries, DistinctNodes, Preceding;
      EndIsFirst(nodes);
      index := index.next;
      at := Following(at, |nodes|);
      if index == end {
        index := index.next;
        at := 1;
      }
      hide Linked;
      owner := index.owner;
      assert nodes[1..][at - 1] == index;
    }

    lemma EndIsFirst(ns: seq<Node>)
      requires Shape() && ns == nodes
      ensures forall i :: 0 < i < |ns| ==> ns[i] != end
    {
    }
  }

  /** Removing what was just inserted, at whatever position, restores the ring, index included. */
  lemma RemoveUndoesInsertion<T>(l: Ring<T>, l': Ring<T>, x: T, k: nat)
    requires l.Valid() && k <= |l.items|
    requires l'.items == l.items[..k] + [x] + l.items[k..]
    requires l'.index == if l.index > k then l.index + 1 else l.index
    ensures l'.items[k] == x && l'.RemoveAt(k) == l
  {
    assert l.items == l.items[..k] + l.items[k..];
  }

  lemma RemoveUndoesInsertEnd<T>(l: Ring<T>, x: T)
    requires l.Valid()
    ensures var p := if l.index == 0 then |l.items| else l.index - 1;
            l.InsertEnd(x).items[p] == x && l.InsertEnd(x).RemoveAt(p) == l
  {
    var p := if l.index == 0 then |l.items| else l.index - 1;
    RemoveUndoesInsertion(l, l.InsertEnd(x), x, p);
  }

  /** And the nodes. */
  lemma CutUndoesSpliced(ns: seq<Node>, item: Node, p: nat)
    requires p <= |ns|
    ensures var now := Spliced(ns, item, p);
            && |now| == |ns| + 1 && now[p] == item && Cut(now, p) == ns
            && (forall i :: 0 <= i < |now| ==> now[i] in ns || now[i] == item)
  {
    assert ns == ns[..p] + ns[p..];
  }

  /** Removal undoes either insertion: the same nodes in the same order, linked both ways, the index where
      it was, and the item on no list. */
  method InsertAndRemove(l: KernelList, item: Node, inOrder: bool)
    requires l.Valid() && item !in l.nodes
    modifies l, item`container, item`next, item`prev, l.nodes`next, l.nodes`prev
    ensures l.Valid() && l.nodes == old(l.nodes) && l.index == old(l.index) && l.View() == old(l.View())
    ensures item.container == null
  {
    hide Entries, Linked, DistinctNodes, Preceding, Spliced, Cut, InsertSorted, Ring.InsertEnd;
    ghost var ns, i, k := l.nodes, l.at, Preceding(l.at, |l.nodes|);
    PrecedingWithin(l.at, |l.nodes|);
    if inOrder {
      k := l.Insert(item);
    } else {
      l.InsertEnd(item);
    }
    CutUndoesSpliced(ns, item, k + 1);
    var left := l.Remove(item, k);
    AtIsWhere(l, ns, i);
  }

  /** The nodes being distinct, the index is at one position only. */
  lemma AtIsWhere(l: KernelList, ns: seq<Node>, i: nat)
    requires l.Shape() && ns == l.nodes && i < |ns| && l.index == ns[i]
    ensures l.at == i
  {
  }

  lemma PrecedingWithin(i: nat, n: nat)
    requires i < n
    ensures Preceding(i, n) < n
  {
  }
}
