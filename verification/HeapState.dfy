/** The allocator of memmgr_heap.c on values: the free list, the blocks handed out and the counters. */
module HeapState {
  import opened FreeLists

  /** What a request yields; the source treats a failed one as fatal. */
  datatype Allocation = Failed | At(p: nat)

  /** `used` maps the address of each block handed out to its size, header included. */
  datatype Heap = Heap(start: nat, end: nat, free: seq<Block>, used: map<nat, nat>,
                       freeBytes: nat, minimumEver: nat)

  const HEADER: nat := 8

  const ALLOCATED_BIT: nat := 0x8000_0000

  // ---------------------------------------------------------------- the allocator

  /** Room for the header, rounded up to the alignment. */
  function Rounded(n: nat): nat {
    var w := n + 8;
    if w % 8 != 0 then w + (8 - w % 8) else w
  }

  /** The size searched for; 0 when the request is refused outright. */
  function Wanted(n: nat): nat {
    if n < 0x8000_0000 && n > 0 then Rounded(n) else 0
  }

  /** Hand out the block at `k`. */
  function TakeBlock(h: Heap, k: nat, wanted: nat): Heap
    requires k < |h.free| && wanted <= h.free[k].size
  {
    var b := Taken(h.free[k], wanted);
    var left := if b.size <= h.freeBytes then h.freeBytes - b.size else 0;
    h.(free := TakeAt(h.free, k, wanted), used := h.used[b.addr := b.size], freeBytes := left,
       minimumEver := if left < h.minimumEver then left else h.minimumEver)
  }

  function Malloc(h: Heap, n: nat): (Heap, Allocation) {
    var w := Wanted(n);
    if w > 0 && w <= h.freeBytes then
      var k := FirstFit(h.free, w);
      FirstFitIsFirst(h.free, w);
      if k < |h.free| then (TakeBlock(h, k, w), At(h.free[k].addr + 8)) else (h, Failed)
    else (h, Failed)
  }

  /** The pointer came from `Malloc` and has not been freed since. */
  predicate Live(h: Heap, p: nat) {
    p >= 8 && p - 8 in h.used
  }

  function FreeBlock(h: Heap, a: nat): Heap
    requires a in h.used
  {
    h.(free := InsertBlock(h.free, Block(a, h.used[a])), used := h.used - {a},
       freeBytes := h.freeBytes + h.used[a])
  }

  /** Freeing the null pointer, here 0, does nothing. */
  function Free(h: Heap, p: nat): Heap
    requires p == 0 || Live(h, p)
  {
    if p == 0 then h else FreeBlock(h, p - 8)
  }

  /** The heap between the linker's symbols `lo` and `hi`, with the end marker at its top. */
  function Init(lo: nat, hi: nat): Heap
    requires lo + 24 <= hi
  {
    var start := if lo % 8 != 0 then lo + 7 - (lo + 7) % 8 else lo;
    var top := hi - 8;
    var end := top - top % 8;
    var size := if start < end then end - start else 0;
    Heap(start, end, [Block(start, size)], map[], size, size)
  }

  // ---------------------------------------------------------------- the invariant

  predicate Aligned(f: seq<Block>) {
    f == [] || (f[0].addr % 8 == 0 && f[0].size % 8 == 0 && Aligned(f[1..]))
  }

  predicate InUsed(h: Heap, b: nat, a: nat) {
    b in h.used && b <= a < b + h.used[b]
  }

  ghost predicate Owned(h: Heap, a: nat) {
    exists b :: InUsed(h, b, a)
  }

  /** Each block handed out lies in the arena, is aligned, and holds more than its header. */
  ghost predicate UsedFits(h: Heap) {
    forall b :: b in h.used ==>
      h.start <= b && b + h.used[b] <= h.end && h.used[b] > 8 && b % 8 == 0 && h.used[b] % 8 == 0
  }

  ghost predicate UsedApart(h: Heap) {
    forall b, c :: b in h.used && c in h.used && b < c ==> b + h.used[b] <= c
  }

  /** Every address of the arena is free or in a block handed out, and none is both. */
  ghost predicate Partitioned(h: Heap) {
    forall a :: h.start <= a < h.end ==> (Covers(h.free, a) <==> !Owned(h, a))
  }

  ghost predicate Inv(h: Heap) {
    && Canonical(h.free, h.start, h.end) && Aligned(h.free)
    && UsedFits(h) && UsedApart(h) && Partitioned(h)
    && h.freeBytes == Total(h.free) && h.minimumEver <= h.freeBytes
  }

  // ---------------------------------------------------------------- sizes

  /** Rounding leaves room for the header and the request, wastes less than the alignment, and
      cannot wrap a 32-bit word. */
  lemma RoundedMeans(n: nat)
    requires n < ALLOCATED_BIT
    ensures Rounded(n) % 8 == 0 && n + HEADER <= Rounded(n) < n + HEADER + 8 < 0x1_0000_0000
  {
  }

  // ---------------------------------------------------------------- when a request succeeds

  predicate Fits(h: Heap, i: nat, n: nat) {
    i < |h.free| && h.free[i].size >= Rounded(n)
  }

  /** A request succeeds if and only if it is neither zero nor has the top bit set and some free block
      holds its rounded size; then the lowest such block is used.  In particular the test of the
      counter of free bytes never refuses what could be satisfied. */
  lemma MallocIsFirstFit(h: Heap, n: nat)
    requires Inv(h)
    ensures Malloc(h, n).1.At? <==> 0 < n < ALLOCATED_BIT && exists i: nat :: Fits(h, i, n)
    ensures Malloc(h, n).1.At? ==>
              exists k: nat :: Fits(h, k, n) && Malloc(h, n).1.p == h.free[k].addr + HEADER
                       && Malloc(h, n).0 == TakeBlock(h, k, Rounded(n))
                       && forall i: nat :: i < k ==> !Fits(h, i, n)
    ensures Malloc(h, n).1.Failed? ==> Malloc(h, n).0 == h
  {
    var w := Wanted(n);
    hide Inv, TakeBlock, Rounded;
    FirstFitIsFirst(h.free, w);
    var k := FirstFit(h.free, w);
    if 0 < n < ALLOCATED_BIT {
      RoundedMeans(n);
      forall i: nat | Fits(h, i, n) ensures k <= i && w <= h.freeBytes {
        SizeFree(h, i);
      }
      if k < |h.free| {
        assert Fits(h, k, n);
      }
    }
  }

  lemma SizeFree(h: Heap, i: nat)
    requires Inv(h) && i < |h.free|
    ensures h.free[i].size <= h.freeBytes
  {
    SizeWithinTotal(h.free, i);
    hide Canonical, Aligned, UsedFits, UsedApart, Partitioned;
  }

  // ---------------------------------------------------------------- alignment

  lemma JoinNextAligned(b: Block, rest: seq<Block>)
    requires Aligned(rest) && b.addr % 8 == 0 && b.size % 8 == 0
    ensures Aligned(JoinNext(b, rest))
  {
    if rest != [] && b.End() == rest[0].addr {
      SumAligned(b.size, rest[0].size);
      AlignedOneMore(Block(b.addr, b.size + rest[0].size), rest[1..]);
    } else {
      AlignedOneMore(b, rest);
    }
  }

  lemma SumAligned(m: nat, n: nat)
    requires m % 8 == 0 && n % 8 == 0
    ensures (m + n) % 8 == 0
  {
  }

  lemma AlignedOneMore(b: Block, rest: seq<Block>)
    requires Aligned(rest) && b.addr % 8 == 0 && b.size % 8 == 0
    ensures Aligned([b] + rest)
  {
    assert ([b] + rest)[1..] == rest;
  }

  lemma {:induction false} InsertAligned(f: seq<Block>, b: Block)
    requires Aligned(f) && b.addr % 8 == 0 && b.size % 8 == 0
    ensures Aligned(InsertBlock(f, b))
  {
    if f == [] || b.addr <= f[0].addr {
      JoinNextAligned(b, f);
    } else if f[1..] != [] && f[1].addr < b.addr {
      InsertAligned(f[1..], b);
      assert ([f[0]] + InsertBlock(f[1..], b))[1..] == InsertBlock(f[1..], b);
    } else if f[0].End() == b.addr {
      JoinNextAligned(Block(f[0].addr, f[0].size + b.size), f[1..]);
    } else {
      JoinNextAligned(b, f[1..]);
      assert ([f[0]] + JoinNext(b, f[1..]))[1..] == JoinNext(b, f[1..]);
    }
  }

  lemma {:induction false} DroppedAligned(f: seq<Block>, k: nat)
    requires Aligned(f) && k < |f|
    ensures Aligned(Dropped(f, k)) && f[k].addr % 8 == 0 && f[k].size % 8 == 0
  {
    if k > 0 {
      DroppedAligned(f[1..], k - 1);
      assert Dropped(f, k)[1..] == Dropped(f[1..], k - 1);
    }
  }

  lemma TakeAligned(f: seq<Block>, k: nat, wanted: nat)
    requires Aligned(f) && k < |f| && wanted <= f[k].size && wanted % 8 == 0
    ensures Aligned(TakeAt(f, k, wanted))
    ensures Taken(f[k], wanted).addr % 8 == 0 && Taken(f[k], wanted).size % 8 == 0
  {
    hide Aligned, Dropped, InsertBlock, Taken, Remainder, Splits;
    DroppedAligned(f, k);
    PiecesAligned(f[k], wanted);
    if Splits(f[k], wanted) {
      InsertAligned(Dropped(f, k), Remainder(f[k], wanted));
    }
  }

  lemma PiecesAligned(b: Block, wanted: nat)
    requires b.addr % 8 == 0 && b.size % 8 == 0 && wanted <= b.size && wanted % 8 == 0
    ensures Taken(b, wanted).addr % 8 == 0 && Taken(b, wanted).size % 8 == 0
    ensures Remainder(b, wanted).addr % 8 == 0 && Remainder(b, wanted).size % 8 == 0
  {
  }

  // ---------------------------------------------------------------- a request keeps the invariant

  /** A free block lies apart from every block handed out. */
  lemma FreeIsApart(h: Heap, k: nat, wanted: nat, c: nat)
    requires Canonical(h.free, h.start, h.end) && Partitioned(h) && UsedFits(h)
    requires k < |h.free| && wanted <= h.free[k].size && c in h.used
    ensures var b := Taken(h.free[k], wanted);
            c != b.addr && (b.addr < c ==> b.End() <= c) && (c < b.addr ==> c + h.used[c] <= b.addr)
  {
    var b := Taken(h.free[k], wanted);
    CanonicalAt(h.free, k, h.start, h.end);
    DroppedCovers(h.free, k, h.start, h.end, c);
    DroppedCovers(h.free, k, h.start, h.end, b.addr);
    assert InUsed(h, c, c);
    assert Owned(h, c) && !Covers(h.free, c);
    assert Within(h.free[k], b.addr);
    assert Covers(h.free, b.addr) && !Owned(h, b.addr);
    assert !InUsed(h, c, b.addr);
  }

  lemma TakeApart(h: Heap, k: nat, wanted: nat)
    requires Inv(h) && k < |h.free| && wanted <= h.free[k].size
    ensures UsedApart(TakeBlock(h, k, wanted))
  {
    var h' := TakeBlock(h, k, wanted);
    hide Canonical, Partitioned, UsedFits, TakeAt;
    forall b, c | b in h'.used && c in h'.used && b < c ensures b + h'.used[b] <= c {
      if b in h.used { FreeIsApart(h, k, wanted, b); }
      if c in h.used { FreeIsApart(h, k, wanted, c); }
    }
  }

  lemma TakeFits(h: Heap, k: nat, wanted: nat)
    requires Inv(h) && k < |h.free| && 8 < wanted <= h.free[k].size && wanted % 8 == 0
    ensures UsedFits(TakeBlock(h, k, wanted))
  {
    CanonicalAt(h.free, k, h.start, h.end);
    TakeAligned(h.free, k, wanted);
    hide Canonical, Aligned, Partitioned, UsedApart, TakeAt;
  }

  lemma TakeOwned(h: Heap, k: nat, wanted: nat, a: nat)
    requires Inv(h) && k < |h.free| && wanted <= h.free[k].size
    ensures Owned(TakeBlock(h, k, wanted), a) <==> Owned(h, a) || Within(Taken(h.free[k], wanted), a)
  {
    var h', t := TakeBlock(h, k, wanted), Taken(h.free[k], wanted);
    hide Canonical, Aligned, Partitioned, UsedApart, UsedFits, TakeAt;
    if Owned(h, a) {
      var b :| InUsed(h, b, a);
      FreeIsApart(h, k, wanted, b);
      assert InUsed(h', b, a);
    }
    if Within(t, a) {
      assert InUsed(h', t.addr, a);
    }
    if Owned(h', a) {
      var b :| InUsed(h', b, a);
      if b != t.addr { assert InUsed(h, b, a); }
    }
  }

  lemma TakePartitioned(h: Heap, k: nat, wanted: nat)
    requires Inv(h) && k < |h.free| && wanted <= h.free[k].size
    ensures Partitioned(TakeBlock(h, k, wanted))
  {
    var h' := TakeBlock(h, k, wanted);
    hide Canonical, Aligned, UsedApart, UsedFits, Owned, Covers;
    forall a | h.start <= a < h.end ensures Covers(h'.free, a) <==> !Owned(h', a) {
      TakeOwned(h, k, wanted, a);
      TakeCovers(h.free, k, wanted, h.start, h.end, a);
      DroppedCovers(h.free, k, h.start, h.end, a);
    }
  }

  lemma TakeKeeps(h: Heap, k: nat, wanted: nat)
    requires Inv(h) && k < |h.free| && 8 < wanted <= h.free[k].size && wanted % 8 == 0
    ensures Inv(TakeBlock(h, k, wanted))
  {
    TakeCanonical(h.free, k, wanted, h.start, h.end);
    TakeAligned(h.free, k, wanted);
    TakeFits(h, k, wanted);
    TakeApart(h, k, wanted);
    TakePartitioned(h, k, wanted);
    TakeTotal(h.free, k, wanted);
    hide Canonical, Aligned, UsedApart, UsedFits, Partitioned, Total, TakeAt;
  }

  lemma MallocKeeps(h: Heap, n: nat)
    requires Inv(h)
    ensures Inv(Malloc(h, n).0)
  {
    MallocIsFirstFit(h, n);
    hide Inv, TakeBlock, Malloc;
    if Malloc(h, n).1.At? {
      var k: nat :| Fits(h, k, n) && Malloc(h, n).0 == TakeBlock(h, k, Rounded(n));
      RoundedMeans(n);
      TakeKeeps(h, k, Rounded(n));
    }
  }

  // ---------------------------------------------------------------- freeing keeps the invariant

  lemma UsedIsNotFree(h: Heap, b: nat)
    requires Inv(h) && b in h.used
    ensures !Overlaps(h.free, Block(b, h.used[b]))
  {
    var blk := Block(b, h.used[b]);
    forall a | Within(blk, a) ensures !Covers(h.free, a) {
      assert InUsed(h, b, a);
      assert Owned(h, a);
    }
    OverlapMeans(h.free, blk, h.start, h.end);
  }

  lemma FreeOwned(h: Heap, b: nat, a: nat)
    requires UsedApart(h) && b in h.used
    ensures Owned(FreeBlock(h, b), a) <==> Owned(h, a) && !Within(Block(b, h.used[b]), a)
  {
    var h' := FreeBlock(h, b);
    if Owned(h, a) && !Within(Block(b, h.used[b]), a) {
      var c :| InUsed(h, c, a);
      assert InUsed(h', c, a);
    }
    if Owned(h', a) {
      var c :| InUsed(h', c, a);
      assert InUsed(h, c, a);
    }
  }

  lemma FreePartitioned(h: Heap, b: nat)
    requires Inv(h) && b in h.used
    ensures Partitioned(FreeBlock(h, b))
  {
    var h' := FreeBlock(h, b);
    hide Canonical, Aligned, Owned, Covers, InsertBlock;
    forall a | h.start <= a < h.end ensures Covers(h'.free, a) <==> !Owned(h', a) {
      FreeOwned(h, b, a);
      InsertCovers(h.free, Block(b, h.used[b]), a);
      if Within(Block(b, h.used[b]), a) { OwnedWithin(h, b, a); }
    }
  }

  lemma OwnedWithin(h: Heap, b: nat, a: nat)
    requires b in h.used && Within(Block(b, h.used[b]), a)
    ensures Owned(h, a)
  {
    assert InUsed(h, b, a);
  }

  lemma FreeKeeps(h: Heap, b: nat)
    requires Inv(h) && b in h.used
    ensures Inv(FreeBlock(h, b))
  {
    var blk := Block(b, h.used[b]);
    UsedIsNotFree(h, b);
    InsertCanonical(h.free, blk, h.start, h.end);
    InsertAligned(h.free, blk);
    InsertTotal(h.free, blk);
    FreePartitioned(h, b);
    FreeFits(h, b);
    hide Canonical, Aligned, UsedApart, UsedFits, Partitioned, Total, InsertBlock;
  }

  lemma FreeFits(h: Heap, b: nat)
    requires UsedFits(h) && UsedApart(h) && b in h.used
    ensures UsedFits(FreeBlock(h, b)) && UsedApart(FreeBlock(h, b))
  {
    var h' := FreeBlock(h, b);
    assert forall c :: c in h'.used ==> c in h.used && h'.used[c] == h.used[c];
  }
}
