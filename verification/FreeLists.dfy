/** The free list of memmgr_heap.c as a sequence of blocks in address order, and why it is a canonical
    form of the set of free addresses. */
module FreeLists {

  datatype Block = Block(addr: nat, size: nat) {
    function End(): nat { addr + size }
  }

  predicate Within(b: Block, a: nat) {
    b.addr <= a < b.End()
  }

  /** In address order from `lo` on, none empty, none beyond `end`, no two touching. */
  predicate Canonical(f: seq<Block>, lo: nat, end: nat) {
    f == []
    || (lo <= f[0].addr && f[0].size > 0 && f[0].End() <= end && Canonical(f[1..], f[0].End() + 1, end))
  }

  /** Address `a` is in one of the blocks. */
  predicate Covers(f: seq<Block>, a: nat) {
    f != [] && (Within(f[0], a) || Covers(f[1..], a))
  }

  function Total(f: seq<Block>): nat {
    if f == [] then 0 else f[0].size + Total(f[1..])
  }

  // ---------------------------------------------------------------- the source's operations

  /** Put `b` before `rest`, as one block with its head if they touch. */
  function JoinNext(b: Block, rest: seq<Block>): seq<Block> {
    if rest != [] && b.End() == rest[0].addr then [Block(b.addr, b.size + rest[0].size)] + rest[1..]
    else [b] + rest
  }

  /** Return a block to the list: find the last free block below it, and merge on both sides. */
  function InsertBlock(f: seq<Block>, b: Block): seq<Block> {
    if f == [] || b.addr <= f[0].addr then JoinNext(b, f)
    else if f[1..] != [] && f[1].addr < b.addr then [f[0]] + InsertBlock(f[1..], b)
    else if f[0].End() == b.addr then JoinNext(Block(f[0].addr, f[0].size + b.size), f[1..])
    else [f[0]] + JoinNext(b, f[1..])
  }

  /** The position of the first block that holds `wanted`; the length of the list if none does. */
  function FirstFit(f: seq<Block>, wanted: nat): (k: nat)
    ensures k <= |f|
  {
    if f == [] || f[0].size >= wanted then 0 else 1 + FirstFit(f[1..], wanted)
  }

  /** Blocks are split only if what remains is larger than two headers. */
  const MINIMUM_BLOCK_SIZE: nat := 16

  predicate Splits(b: Block, wanted: nat) {
    b.size - wanted > MINIMUM_BLOCK_SIZE
  }

  /** What the caller gets of block `b`. */
  function Taken(b: Block, wanted: nat): Block
    requires wanted <= b.size
  {
    if Splits(b, wanted) then Block(b.addr, wanted) else b
  }

  function Dropped(f: seq<Block>, k: nat): seq<Block>
    requires k < |f|
  {
    if k == 0 then f[1..] else [f[0]] + Dropped(f[1..], k - 1)
  }

  function Remainder(b: Block, wanted: nat): Block
    requires wanted <= b.size
  {
    Block(b.addr + wanted, b.size - wanted)
  }

  /** Take the block at `k` out of the list, and give back what is not wanted of it. */
  function TakeAt(f: seq<Block>, k: nat, wanted: nat): seq<Block>
    requires k < |f| && wanted <= f[k].size
  {
    if Splits(f[k], wanted) then InsertBlock(Dropped(f, k), Remainder(f[k], wanted)) else Dropped(f, k)
  }

  // ---------------------------------------------------------------- canonical means unique

  lemma {:induction false} CanonicalFrom(f: seq<Block>, lo: nat, lo': nat, end: nat)
    requires Canonical(f, lo, end) && lo' <= lo
    ensures Canonical(f, lo', end)
  {
  }

  /** Nothing below the bound is covered, nor anything from the end on. */
  lemma {:induction false} CoversWithin(f: seq<Block>, lo: nat, end: nat, a: nat)
    requires Canonical(f, lo, end) && Covers(f, a)
    ensures lo <= a < end
  {
    if !Within(f[0], a) {
      CoversWithin(f[1..], f[0].End() + 1, end, a);
    }
  }

  /** The first block starts at the least covered address and ends before the least uncovered one. */
  lemma HeadIsLeast(f: seq<Block>, lo: nat, end: nat)
    requires Canonical(f, lo, end) && f != []
    ensures Covers(f, f[0].addr) && !Covers(f, f[0].End())
    ensures forall a :: f[0].addr <= a < f[0].End() ==> Covers(f, a)
    ensures forall a :: Covers(f, a) ==> f[0].addr <= a
  {
    forall a | Covers(f, a) && !Within(f[0], a) ensures f[0].End() < a {
      CoversWithin(f[1..], f[0].End() + 1, end, a);
    }
  }

  lemma SameHead(f: seq<Block>, g: seq<Block>, lo: nat, end: nat)
    requires Canonical(f, lo, end) && Canonical(g, lo, end)
    requires forall a :: Covers(f, a) <==> Covers(g, a)
    requires f != [] && g != []
    ensures f[0] == g[0]
  {
    HeadIsLeast(f, lo, end);
    HeadIsLeast(g, lo, end);
    assert f[0].addr == g[0].addr;
    assert Covers(f, f[0].End()) <==> Covers(g, f[0].End());
    assert Covers(f, g[0].End()) <==> Covers(g, g[0].End());
  }

  lemma TailCovers(f: seq<Block>, lo: nat, end: nat, a: nat)
    requires Canonical(f, lo, end) && f != []
    ensures Covers(f[1..], a) <==> Covers(f, a) && !Within(f[0], a)
  {
    if Covers(f[1..], a) {
      CoversWithin(f[1..], f[0].End() + 1, end, a);
    }
  }

  /** The list is determined by the addresses it covers. */
  lemma {:induction false} CanonicalIsUnique(f: seq<Block>, g: seq<Block>, lo: nat, end: nat)
    requires Canonical(f, lo, end) && Canonical(g, lo, end)
    requires forall a :: Covers(f, a) <==> Covers(g, a)
    ensures f == g
    decreases |f|
  {
    if f == [] || g == [] {
      if f != [] { HeadIsLeast(f, lo, end); }
      if g != [] { HeadIsLeast(g, lo, end); }
    } else {
      SameHead(f, g, lo, end);
      forall a ensures Covers(f[1..], a) <==> Covers(g[1..], a) {
        TailCovers(f, lo, end, a);
        TailCovers(g, lo, end, a);
      }
      CanonicalIsUnique(f[1..], g[1..], f[0].End() + 1, end);
    }
  }

  // ---------------------------------------------------------------- returning a block

  predicate Overlaps(f: seq<Block>, b: Block) {
    f != [] && ((f[0].addr < b.End() && b.addr < f[0].End()) || Overlaps(f[1..], b))
  }

  lemma JoinNextCovers(b: Block, rest: seq<Block>, a: nat)
    ensures Covers(JoinNext(b, rest), a) <==> Within(b, a) || Covers(rest, a)
  {
    var j := JoinNext(b, rest);
    if rest != [] && b.End() == rest[0].addr {
      assert j[1..] == rest[1..];
    } else {
      assert j[1..] == rest;
    }
  }

  /** Exactly the addresses of the block become free. */
  lemma {:induction false} InsertCovers(f: seq<Block>, b: Block, a: nat)
    ensures Covers(InsertBlock(f, b), a) <==> Within(b, a) || Covers(f, a)
  {
    if f == [] || b.addr <= f[0].addr {
      JoinNextCovers(b, f, a);
    } else if f[1..] != [] && f[1].addr < b.addr {
      InsertCovers(f[1..], b, a);
      assert ([f[0]] + InsertBlock(f[1..], b))[1..] == InsertBlock(f[1..], b);
    } else if f[0].End() == b.addr {
      JoinNextCovers(Block(f[0].addr, f[0].size + b.size), f[1..], a);
    } else {
      JoinNextCovers(b, f[1..], a);
      assert ([f[0]] + JoinNext(b, f[1..]))[1..] == JoinNext(b, f[1..]);
    }
  }

  /** A block in front of a canonical list, not reaching into it. */
  lemma JoinNextCanonical(b: Block, rest: seq<Block>, lo: nat, end: nat)
    requires lo <= b.addr && b.size > 0 && b.End() <= end
    requires Canonical(rest, b.End(), end)
    ensures Canonical(JoinNext(b, rest), lo, end)
  {
    var j := JoinNext(b, rest);
    if rest != [] && b.End() == rest[0].addr {
      assert j[1..] == rest[1..];
    } else {
      assert j[1..] == rest;
    }
  }

  lemma {:induction false} AboveOverlap(f: seq<Block>, b: Block, lo: nat, end: nat)
    requires Canonical(f, lo, end) && !Overlaps(f, b) && b.size > 0
    requires f != [] ==> b.addr <= f[0].addr
    ensures Canonical(f, b.End(), end)
  {
  }

  /** Returning a block that overlaps no free block keeps the list canonical. */
  lemma {:induction false} InsertCanonical(f: seq<Block>, b: Block, lo: nat, end: nat)
    requires Canonical(f, lo, end) && !Overlaps(f, b)
    requires lo <= b.addr && b.size > 0 && b.End() <= end
    ensures Canonical(InsertBlock(f, b), lo, end)
  {
    if f == [] || b.addr <= f[0].addr {
      AboveOverlap(f, b, lo, end);
      JoinNextCanonical(b, f, lo, end);
    } else if f[1..] != [] && f[1].addr < b.addr {
      InsertCanonical(f[1..], b, f[0].End() + 1, end);
      assert ([f[0]] + InsertBlock(f[1..], b))[1..] == InsertBlock(f[1..], b);
    } else {
      AboveOverlap(f[1..], b, f[0].End() + 1, end);
      if f[0].End() == b.addr {
        JoinNextCanonical(Block(f[0].addr, f[0].size + b.size), f[1..], lo, end);
      } else {
        JoinNextCanonical(b, f[1..], f[0].End() + 1, end);
        assert ([f[0]] + JoinNext(b, f[1..]))[1..] == JoinNext(b, f[1..]);
      }
    }
  }

  lemma JoinNextTotal(b: Block, rest: seq<Block>)
    ensures Total(JoinNext(b, rest)) == b.size + Total(rest)
  {
    var j := JoinNext(b, rest);
    if rest != [] && b.End() == rest[0].addr {
      assert j[1..] == rest[1..];
    } else {
      assert j[1..] == rest;
    }
  }

  lemma {:induction false} InsertTotal(f: seq<Block>, b: Block)
    ensures Total(InsertBlock(f, b)) == Total(f) + b.size
  {
    if f == [] || b.addr <= f[0].addr {
      JoinNextTotal(b, f);
    } else if f[1..] != [] && f[1].addr < b.addr {
      InsertTotal(f[1..], b);
      assert ([f[0]] + InsertBlock(f[1..], b))[1..] == InsertBlock(f[1..], b);
    } else if f[0].End() == b.addr {
      JoinNextTotal(Block(f[0].addr, f[0].size + b.size), f[1..]);
    } else {
      JoinNextTotal(b, f[1..]);
      assert ([f[0]] + JoinNext(b, f[1..]))[1..] == JoinNext(b, f[1..]);
    }
  }

  /** A block none of whose addresses is free overlaps no free block. */
  lemma {:induction false} OverlapMeans(f: seq<Block>, b: Block, lo: nat, end: nat)
    requires Canonical(f, lo, end) && b.size > 0
    requires forall a :: Within(b, a) ==> !Covers(f, a)
    ensures !Overlaps(f, b)
  {
    if f != [] {
      var a := if f[0].addr < b.addr then b.addr else f[0].addr;
      assert Within(b, a) ==> !Covers(f, a);
      forall a | Within(b, a) ensures !Covers(f[1..], a) {
        assert !Covers(f, a);
      }
      OverlapMeans(f[1..], b, f[0].End() + 1, end);
    }
  }

  // ---------------------------------------------------------------- taking a block

  lemma {:induction false} DroppedCanonical(f: seq<Block>, k: nat, lo: nat, end: nat)
    requires Canonical(f, lo, end) && k < |f|
    ensures Canonical(Dropped(f, k), lo, end)
  {
    if k == 0 {
      CanonicalFrom(f[1..], f[0].End() + 1, lo, end);
    } else {
      DroppedCanonical(f[1..], k - 1, f[0].End() + 1, end);
      assert Dropped(f, k)[1..] == Dropped(f[1..], k - 1);
    }
  }

  lemma {:induction false} DroppedCovers(f: seq<Block>, k: nat, lo: nat, end: nat, a: nat)
    requires Canonical(f, lo, end) && k < |f|
    ensures Covers(Dropped(f, k), a) <==> Covers(f, a) && !Within(f[k], a)
    ensures Within(f[k], a) ==> Covers(f, a)
  {
    TailCovers(f, lo, end, a);
    if k > 0 {
      DroppedCovers(f[1..], k - 1, f[0].End() + 1, end, a);
      assert Dropped(f, k)[1..] == Dropped(f[1..], k - 1);
      assert f[1..][k - 1] == f[k];
    }
  }

  lemma {:induction false} DroppedTotal(f: seq<Block>, k: nat)
    requires k < |f|
    ensures Total(Dropped(f, k)) + f[k].size == Total(f)
  {
    if k > 0 {
      DroppedTotal(f[1..], k - 1);
      assert Dropped(f, k)[1..] == Dropped(f[1..], k - 1);
    }
  }

  lemma {:induction false} CanonicalAt(f: seq<Block>, k: nat, lo: nat, end: nat)
    requires Canonical(f, lo, end) && k < |f|
    ensures lo <= f[k].addr && f[k].size > 0 && f[k].End() <= end
  {
    if k > 0 {
      CanonicalAt(f[1..], k - 1, f[0].End() + 1, end);
    }
  }

  lemma RemainderApart(f: seq<Block>, k: nat, wanted: nat, lo: nat, end: nat)
    requires Canonical(f, lo, end) && k < |f| && wanted <= f[k].size && Splits(f[k], wanted)
    ensures !Overlaps(Dropped(f, k), Remainder(f[k], wanted))
  {
    DroppedCanonical(f, k, lo, end);
    forall a | Within(Remainder(f[k], wanted), a) ensures !Covers(Dropped(f, k), a) {
      DroppedCovers(f, k, lo, end, a);
    }
    OverlapMeans(Dropped(f, k), Remainder(f[k], wanted), lo, end);
  }

  /** Exactly the addresses of the block taken leave the list. */
  lemma TakeCovers(f: seq<Block>, k: nat, wanted: nat, lo: nat, end: nat, a: nat)
    requires Canonical(f, lo, end) && k < |f| && wanted <= f[k].size
    ensures Covers(TakeAt(f, k, wanted), a) <==> Covers(f, a) && !Within(Taken(f[k], wanted), a)
  {
    DroppedCovers(f, k, lo, end, a);
    if Splits(f[k], wanted) {
      InsertCovers(Dropped(f, k), Remainder(f[k], wanted), a);
    }
    hide Covers, InsertBlock, Dropped;
  }

  lemma TakeCanonical(f: seq<Block>, k: nat, wanted: nat, lo: nat, end: nat)
    requires Canonical(f, lo, end) && k < |f| && wanted <= f[k].size
    ensures Canonical(TakeAt(f, k, wanted), lo, end)
  {
    DroppedCanonical(f, k, lo, end);
    if Splits(f[k], wanted) {
      CanonicalAt(f, k, lo, end);
      RemainderApart(f, k, wanted, lo, end);
      InsertCanonical(Dropped(f, k), Remainder(f[k], wanted), lo, end);
    }
    hide Canonical, InsertBlock, Dropped;
  }

  lemma TakeTotal(f: seq<Block>, k: nat, wanted: nat)
    requires k < |f| && wanted <= f[k].size
    ensures Total(TakeAt(f, k, wanted)) + Taken(f[k], wanted).size == Total(f)
  {
    DroppedTotal(f, k);
    if Splits(f[k], wanted) {
      InsertTotal(Dropped(f, k), Remainder(f[k], wanted));
    }
    hide Total, InsertBlock, Dropped;
  }

  // ---------------------------------------------------------------- first fit

  /** The block chosen is the first that is large enough, and none is chosen only if none is. */
  lemma {:induction false} FirstFitIsFirst(f: seq<Block>, wanted: nat)
    ensures var k := FirstFit(f, wanted);
            && (k < |f| ==> f[k].size >= wanted)
            && (forall i :: 0 <= i < k ==> f[i].size < wanted)
  {
    if f != [] && f[0].size < wanted {
      FirstFitIsFirst(f[1..], wanted);
      var k := FirstFit(f, wanted);
      forall i | 0 <= i < k ensures f[i].size < wanted {
        assert i > 0 ==> f[i] == f[1..][i - 1];
      }
    }
  }

  lemma {:induction false} SizeWithinTotal(f: seq<Block>, k: nat)
    requires k < |f|
    ensures f[k].size <= Total(f)
  {
    if k > 0 {
      SizeWithinTotal(f[1..], k - 1);
    }
  }
}
