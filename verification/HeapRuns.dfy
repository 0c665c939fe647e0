/** Whole runs of the allocator.  The free list is a canonical form of the addresses not handed out, so
    it depends only on which blocks are out, not on how it came to be so. */
module HeapRuns {
  import opened FreeLists
  import opened HeapState

  // ---------------------------------------------------------------- the free list is determined

  lemma SameUsedSameCovers(h: Heap, g: Heap, a: nat)
    requires Inv(h) && Inv(g) && h.start == g.start && h.end == g.end && h.used == g.used
    ensures Covers(h.free, a) <==> Covers(g.free, a)
  {
    if Covers(h.free, a) { CoversWithin(h.free, h.start, h.end, a); }
    if Covers(g.free, a) { CoversWithin(g.free, g.start, g.end, a); }
    assert Owned(h, a) <==> Owned(g, a) by {
      if Owned(h, a) { var b :| InUsed(h, b, a); assert InUsed(g, b, a); }
      if Owned(g, a) { var b :| InUsed(g, b, a); assert InUsed(h, b, a); }
    }
  }

  /** With the same blocks handed out, the free list is the same, block for block. */
  lemma UsedDeterminesFree(h: Heap, g: Heap)
    requires Inv(h) && Inv(g) && h.start == g.start && h.end == g.end && h.used == g.used
    ensures h.free == g.free && h.freeBytes == g.freeBytes
  {
    forall a: nat { SameUsedSameCovers(h, g, a); }
    CanonicalIsUnique(h.free, g.free, h.start, h.end);
    hide Canonical, Covers, Aligned, UsedFits, UsedApart, Partitioned;
  }

  /** Requesting memory and giving it straight back restores the list exactly. */
  lemma FreeUndoesMalloc(h: Heap, n: nat)
    requires Inv(h) && Malloc(h, n).1.At?
    ensures var (h1, r) := Malloc(h, n);
            && Live(h1, r.p) && !Live(h, r.p)
            && Free(h1, r.p) == h.(minimumEver := h1.minimumEver)
  {
    hide Inv, TakeAt, InsertBlock, Malloc;
    var (h1, r) := Malloc(h, n);
    MallocIsFirstFit(h, n);
    var k: nat :| Fits(h, k, n) && r.p == h.free[k].addr + HEADER && h1 == TakeBlock(h, k, Rounded(n));
    MallocKeeps(h, n);
    TakeIsNew(h, k, Rounded(n));
    var h2 := FreeBlock(h1, h.free[k].addr);
    FreeKeeps(h1, h.free[k].addr);
    assert h2.used == h.used;
    UsedDeterminesFree(h2, h);
  }

  lemma TakeIsNew(h: Heap, k: nat, wanted: nat)
    requires Inv(h) && k < |h.free| && wanted <= h.free[k].size
    ensures h.free[k].addr !in h.used
  {
    if h.free[k].addr in h.used {
      FreeIsApart(h, k, wanted, h.free[k].addr);
    }
  }

  /** Once everything has been freed, the list is the one block the heap started with. */
  lemma AllFreedIsWhole(h: Heap)
    requires Inv(h) && h.used == map[] && h.start < h.end
    ensures h.free == [Block(h.start, h.end - h.start)] && h.freeBytes == h.end - h.start
  {
    var whole := [Block(h.start, h.end - h.start)];
    forall a: nat ensures Covers(h.free, a) <==> Covers(whole, a) {
      WholeCovers(h, a);
    }
    CanonicalIsUnique(h.free, whole, h.start, h.end);
    assert Total(whole) == h.end - h.start;
  }

  lemma WholeCovers(h: Heap, a: nat)
    requires Inv(h) && h.used == map[] && h.start < h.end
    ensures Covers(h.free, a) <==> h.start <= a < h.end
  {
    if Covers(h.free, a) { CoversWithin(h.free, h.start, h.end, a); }
    assert !Owned(h, a);
  }

  // ---------------------------------------------------------------- runs

  datatype Event = Mallocs(n: nat) | Frees(p: nat)

  predicate Possible(h: Heap, e: Event) {
    match e
    case Mallocs(_) => true
    case Frees(p) => p == 0 || Live(h, p)
  }

  function Apply(h: Heap, e: Event): Heap
    requires Possible(h, e)
  {
    match e
    case Mallocs(n) => Malloc(h, n).0
    case Frees(p) => Free(h, p)
  }

  predicate PossibleRun(h: Heap, es: seq<Event>)
    decreases |es|
  {
    es == [] || (Possible(h, es[0]) && PossibleRun(Apply(h, es[0]), es[1..]))
  }

  function Run(h: Heap, es: seq<Event>): Heap
    requires PossibleRun(h, es)
    decreases |es|
  {
    if es == [] then h else Run(Apply(h, es[0]), es[1..])
  }

  function Min(a: nat, b: nat): nat {
    if a < b then a else b
  }

  /** The least number of free bytes in any state of the run. */
  function LowWater(h: Heap, es: seq<Event>): nat
    requires PossibleRun(h, es)
    decreases |es|
  {
    if es == [] then h.freeBytes else Min(h.freeBytes, LowWater(Apply(h, es[0]), es[1..]))
  }

  lemma EventKeeps(h: Heap, e: Event)
    requires Inv(h) && Possible(h, e)
    ensures var h' := Apply(h, e);
            && Inv(h') && h'.start == h.start && h'.end == h.end
            && h'.minimumEver == Min(h.minimumEver, h'.freeBytes)
  {
    hide Inv, TakeAt, InsertBlock;
    BoundKept(h);
    match e
    case Mallocs(n) =>
      MallocKeeps(h, n);
      MallocIsFirstFit(h, n);
    case Frees(p) =>
      if p != 0 { FreeKeeps(h, p - 8); }
  }

  lemma BoundKept(h: Heap)
    requires Inv(h)
    ensures h.minimumEver <= h.freeBytes
  {
    hide Canonical, Aligned, UsedFits, UsedApart, Partitioned;
  }

  /** In every reachable state the free blocks and the blocks handed out partition the arena, and the
      low-water mark is the least number of free bytes there has been. */
  lemma {:induction false} RunKeeps(h: Heap, es: seq<Event>)
    requires Inv(h) && PossibleRun(h, es)
    ensures var h' := Run(h, es);
            && Inv(h') && h'.start == h.start && h'.end == h.end
            && h'.minimumEver == Min(h.minimumEver, LowWater(h, es))
    decreases |es|
  {
    hide Inv, Possible, Apply;
    BoundKept(h);
    if es != [] {
      EventKeeps(h, es[0]);
      RunKeeps(Apply(h, es[0]), es[1..]);
    }
  }

  lemma InitKeeps(lo: nat, hi: nat)
    requires lo + 24 <= hi
    ensures var h := Init(lo, hi);
            && Inv(h) && h.used == map[] && h.minimumEver == h.freeBytes
            && lo <= h.start < lo + 8 && hi - 16 < h.end <= hi - 8
            && h.start % 8 == 0 && h.end % 8 == 0 && h.start < h.end
  {
    InitBounds(lo, hi);
    InitInv(Init(lo, hi));
    hide Init, Inv;
  }

  lemma InitBounds(lo: nat, hi: nat)
    requires lo + 24 <= hi
    ensures var h := Init(lo, hi);
            && lo <= h.start < lo + 8 && hi - 16 < h.end <= hi - 8
            && h.start % 8 == 0 && h.end % 8 == 0 && h.start < h.end
            && h == Heap(h.start, h.end, [Block(h.start, h.end - h.start)], map[], h.end - h.start, h.end - h.start)
  {
  }

  lemma InitInv(h: Heap)
    requires h.start < h.end && h.start % 8 == 0 && h.end % 8 == 0
    requires h == Heap(h.start, h.end, [Block(h.start, h.end - h.start)], map[], h.end - h.start, h.end - h.start)
    ensures Inv(h)
  {
    assert h.free[1..] == [];
    forall a ensures !Owned(h, a) {}
  }

  /** What a successful request returns: an aligned pointer, just behind the header of a block that
      was not in use before and holds all the bytes asked for. */
  lemma MallocReturns(h: Heap, n: nat)
    requires Inv(h) && Malloc(h, n).1.At?
    ensures var (h', r) := Malloc(h, n);
            var b := r.p - HEADER;
            && r.p % 8 == 0 && b >= h.start && b !in h.used && b in h'.used
            && r.p + n <= b + h'.used[b] <= h.end
            && h'.used == h.used[b := h'.used[b]] && h'.used[b] <= Rounded(n) + MINIMUM_BLOCK_SIZE
  {
    hide Inv, TakeAt, Malloc;
    MallocIsFirstFit(h, n);
    var k: nat :| Fits(h, k, n) && Malloc(h, n).1.p == h.free[k].addr + HEADER
                  && Malloc(h, n).0 == TakeBlock(h, k, Rounded(n));
    RoundedMeans(n);
    TakeIsNew(h, k, Rounded(n));
    MallocKeeps(h, n);
    UsedBounds(Malloc(h, n).0, h.free[k].addr);
  }

  /** The block comes from the lowest free one that is large enough, whole if no more than 16 bytes of it
      would be left over, and otherwise cut to the rounded size. */
  lemma MallocTakes(h: Heap, n: nat)
    requires Inv(h) && Malloc(h, n).1.At?
    ensures exists k: nat ::
              && k < |h.free| && Rounded(n) <= h.free[k].size && Malloc(h, n).1.p == h.free[k].addr + 8
              && (forall i :: 0 <= i < k ==> h.free[i].size < Rounded(n))
              && h.free[k].addr in Malloc(h, n).0.used
              && Malloc(h, n).0.used[h.free[k].addr]
                 == (if h.free[k].size - Rounded(n) > 16 then Rounded(n) else h.free[k].size)
  {
    hide Inv, TakeAt, Malloc, Rounded;
    MallocIsFirstFit(h, n);
    var k: nat :| Fits(h, k, n) && Malloc(h, n).1.p == h.free[k].addr + HEADER
                  && Malloc(h, n).0 == TakeBlock(h, k, Rounded(n)) && forall i: nat :: i < k ==> !Fits(h, i, n);
    forall i | 0 <= i < k ensures h.free[i].size < Rounded(n) {
      assert !Fits(h, i, n);
    }
  }

  lemma UsedBounds(h: Heap, b: nat)
    requires Inv(h) && b in h.used
    ensures h.start <= b && b + h.used[b] <= h.end && b % 8 == 0
  {
    hide Canonical, Aligned, UsedApart, Partitioned;
  }

  /** From the start of the program: whatever was done, once every block is freed the heap is back to
      the single block it began with. */
  lemma BackToOneBlock(lo: nat, hi: nat, es: seq<Event>)
    requires lo + 24 <= hi && PossibleRun(Init(lo, hi), es) && Run(Init(lo, hi), es).used == map[]
    ensures Run(Init(lo, hi), es).free == Init(lo, hi).free
    ensures Run(Init(lo, hi), es).freeBytes == Init(lo, hi).freeBytes
    ensures Run(Init(lo, hi), es).minimumEver == LowWater(Init(lo, hi), es)
  {
    InitKeeps(lo, hi);
    RunKeeps(Init(lo, hi), es);
    LowWaterBound(Init(lo, hi), es);
    hide Inv, Run, LowWater;
    AllFreedIsWhole(Run(Init(lo, hi), es));
    AllFreedIsWhole(Init(lo, hi));
  }

  lemma LowWaterBound(h: Heap, es: seq<Event>)
    requires PossibleRun(h, es)
    ensures LowWater(h, es) <= h.freeBytes
  {
  }

  // ---------------------------------------------------------------- the order of freeing

  predicate AllUsed(h: Heap, bs: seq<nat>) {
    bs == [] || (bs[0] in h.used && bs[0] !in bs[1..] && AllUsed(h, bs[1..]))
  }

  lemma {:induction false} StillUsed(h: Heap, bs: seq<nat>, b: nat)
    requires AllUsed(h, bs) && b in h.used && b !in bs
    ensures AllUsed(FreeBlock(h, b), bs)
  {
    hide InsertBlock;
    if bs != [] {
      assert bs == [bs[0]] + bs[1..];
      StillUsed(h, bs[1..], b);
    }
  }

  function FreeAll(h: Heap, bs: seq<nat>): Heap
    requires AllUsed(h, bs)
    decreases |bs|
  {
    if bs == [] then h
    else
      StillUsed(h, bs[1..], bs[0]);
      FreeAll(FreeBlock(h, bs[0]), bs[1..])
  }

  function Members(bs: seq<nat>): set<nat> {
    set b | b in bs
  }

  lemma {:induction false} FreeAllKeeps(h: Heap, bs: seq<nat>)
    requires Inv(h) && AllUsed(h, bs)
    ensures var h' := FreeAll(h, bs);
            && Inv(h') && h'.used == h.used - Members(bs)
            && h'.start == h.start && h'.end == h.end && h'.minimumEver == h.minimumEver
    decreases |bs|
  {
    hide Inv, InsertBlock;
    if bs == [] {
      assert h.used - Members(bs) == h.used;
    } else {
      var h1 := FreeBlock(h, bs[0]);
      FreeKeeps(h, bs[0]);
      StillUsed(h, bs[1..], bs[0]);
      FreeAllKeeps(h1, bs[1..]);
      assert Members(bs) == {bs[0]} + Members(bs[1..]);
      assert h1.used - Members(bs[1..]) == h.used - Members(bs);
    }
  }

  /** Freeing the same blocks in any order gives the same heap. */
  lemma FreeingOrderIsIrrelevant(h: Heap, bs: seq<nat>, cs: seq<nat>)
    requires Inv(h) && AllUsed(h, bs) && AllUsed(h, cs) && multiset(bs) == multiset(cs)
    ensures FreeAll(h, bs) == FreeAll(h, cs)
  {
    FreeAllKeeps(h, bs);
    FreeAllKeeps(h, cs);
    assert Members(bs) == Members(cs) by {
      forall b ensures b in bs <==> b in cs {
        assert b in bs <==> b in multiset(bs);
        assert b in cs <==> b in multiset(cs);
      }
    }
    hide Inv, FreeAll;
    UsedDeterminesFree(FreeAll(h, bs), FreeAll(h, cs));
  }

  // ---------------------------------------------------------------- tiling

  /** The block, free or handed out, that holds address `a` of the arena. */
  ghost predicate Holds(h: Heap, b: Block, a: nat) {
    Within(b, a) && (b in h.free || (b.addr in h.used && h.used[b.addr] == b.size))
  }

  lemma {:induction false} FreeHolder(f: seq<Block>, a: nat)
    ensures Covers(f, a) <==> exists b :: b in f && Within(b, a)
  {
    if f != [] {
      FreeHolder(f[1..], a);
      assert f == [f[0]] + f[1..];
    }
  }

  lemma {:induction false} FreeHolderUnique(f: seq<Block>, lo: nat, end: nat, a: nat, b: Block, c: Block)
    requires Canonical(f, lo, end) && b in f && c in f && Within(b, a) && Within(c, a)
    ensures b == c
  {
    assert f == [f[0]] + f[1..];
    FreeHolder(f[1..], a);
    TailCovers(f, lo, end, a);
    if !Within(f[0], a) {
      FreeHolderUnique(f[1..], f[0].End() + 1, end, a, b, c);
    }
  }

  /** Free and allocated blocks tile the arena: every address is in exactly one of them. */
  lemma Tiled(h: Heap, a: nat)
    requires Inv(h) && h.start <= a < h.end
    ensures exists b :: Holds(h, b, a)
    ensures forall b, c :: Holds(h, b, a) && Holds(h, c, a) ==> b == c
  {
    FreeHolder(h.free, a);
    if Covers(h.free, a) {
      var b :| b in h.free && Within(b, a);
      assert Holds(h, b, a);
    } else {
      var b :| InUsed(h, b, a);
      assert Holds(h, Block(b, h.used[b]), a);
    }
    forall b, c | Holds(h, b, a) && Holds(h, c, a) ensures b == c {
      HoldersEqual(h, a, b, c);
    }
  }

  lemma HoldersEqual(h: Heap, a: nat, b: Block, c: Block)
    requires Inv(h) && h.start <= a < h.end && Holds(h, b, a) && Holds(h, c, a)
    ensures b == c
  {
    FreeHolder(h.free, a);
    if Covers(h.free, a) {
      HolderIsFree(h, a, b);
      HolderIsFree(h, a, c);
      FreeHolderUnique(h.free, h.start, h.end, a, b, c);
    }
  }

  lemma HolderIsFree(h: Heap, a: nat, b: Block)
    requires Inv(h) && h.start <= a < h.end && Holds(h, b, a) && Covers(h.free, a)
    ensures b in h.free
  {
    if b !in h.free {
      assert InUsed(h, b.addr, a);
    }
  }
}
