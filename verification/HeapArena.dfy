/** The allocator in the form memmgr_heap.c has it: headers written in the arena's memory, and loops
    that follow the links of the free list. */
module HeapArena {
  import opened FreeLists
  import opened HeapState
  import opened HeapRuns
  import opened ArenaMemory
  import opened Words

  class HeapArena {
    /** All of RAM from address 0, in 32-bit words; the list's start is at address 0. */
    const mem: array<Word>
    var endMarker: nat
    var freeBytesRemaining: nat
    var minimumEverFreeBytesRemaining: nat
    ghost var heap: Heap

    /** Set up the heap between the addresses `lo` and `hi`, as the first request does. */
    constructor (words: nat, lo: nat, hi: nat)
      requires 8 <= lo && lo + 24 <= hi < 0x8000_0000 && hi <= 4 * words
      ensures Valid() && heap == HeapState.Init(lo, hi)
    {
      var start := lo;
      if start % 8 != 0 {
        start := start + 7;
        start := start - start % 8;
      }
      var end := hi - HEADER;
      end := end - end % 8;
      var size := end - start;
      mem := new Word[words];
      endMarker := end;
      freeBytesRemaining, minimumEverFreeBytesRemaining := size, size;
      heap := HeapState.Init(lo, hi);
      new;
      hide HeapState.Init, HeapState.Inv, Chain, Canonical, EndMarked;
      InitKeeps(lo, hi);
      InitBounds(lo, hi);
      KnowList(heap);
      WriteFirstHeaders(start, size);
    }

    /** One free block, between the list's start and the end marker. */
    method WriteFirstHeaders(start: nat, size: nat)
      requires 8 <= start && start % 8 == 0 && endMarker % 8 == 0 && start + size == endMarker && size > 0
      requires endMarker < 0x8000_0000 && endMarker + 8 <= 4 * mem.Length
      modifies mem
      ensures Chain(mem[..], 0, Headed([Block(start, size)]), endMarker) && EndMarked()
    {
      HeadersApart(start, endMarker);
      HeadersApart(0, start);
      HeadersApart(0, endMarker);
      hide NextAt, SizeAt, Chain;
      mem[NextAt(0)] := start;
      mem[SizeAt(0)] := 0;
      mem[SizeAt(endMarker)] := 0;
      mem[NextAt(endMarker)] := 0;
      mem[SizeAt(start)] := size;
      mem[NextAt(start)] := endMarker;
      ChainOfOne(mem[..], Block(start, size), endMarker);
      ChainOfOne(mem[..], Block(0, 0), start);
      ChainConcat(mem[..], 0, [Block(0, 0)], start, [Block(start, size)], endMarker);
    }

    /** The header of the block that `it` has been stopped at, of the one after it, and of the block
        to be inserted, are what the list says. */
    ghost predicate HeadersKnown(f: seq<Block>, j: nat, b: Block)
      reads this`endMarker, mem
    {
      && j < |f| && HasHeader(mem[..], f[j].addr) && HasHeader(mem[..], b.addr) && f[j].addr != b.addr
      && mem[SizeAt(f[j].addr)] == f[j].size && mem[NextAt(f[j].addr)] == PointerTo(f, j + 1, endMarker)
      && mem[SizeAt(b.addr)] == b.size
      && (j + 1 < |f| ==>
            && HasHeader(mem[..], f[j + 1].addr) && f[j + 1].addr != f[j].addr && f[j + 1].addr != b.addr
            && mem[SizeAt(f[j + 1].addr)] == f[j + 1].size
            && mem[NextAt(f[j + 1].addr)] == PointerTo(f, j + 2, endMarker)
            && f[j + 1].End() <= endMarker && f[j + 1].addr < endMarker)
      && b.End() <= endMarker < 0x8000_0000 && f[j].End() <= b.addr
    }

    /** Merge the block at `b` into the one before it if they touch. */
    method MergeBefore(it: nat, b: nat, ghost f: seq<Block>, ghost j: nat, ghost blk: Block) returns (merged: nat)
      requires HeadersKnown(f, j, blk) && it == f[j].addr && b == blk.addr
      modifies mem
      ensures merged == JoinedBefore(f, j, blk).addr
      ensures mem[SizeAt(merged)] == JoinedBefore(f, j, blk).size
      ensures forall i :: 0 <= i < mem.Length && (i != SizeAt(it) || merged != it) ==> mem[i] == old(mem[i])
    {
      merged := b;
      if it + mem[SizeAt(it)] == b {
        mem[SizeAt(it)] := mem[SizeAt(it)] + mem[SizeAt(b)];
        merged := it;
      }
    }

    /** Merge the block at `merged` with the one after it if they touch, and link it to the rest. */
    method MergeAfter(merged: nat, next: nat, ghost f: seq<Block>, ghost j: nat, ghost blk: Block)
      requires j < |f| && merged == JoinedBefore(f, j, blk).addr && HasHeader(mem[..], merged)
      requires mem[SizeAt(merged)] == JoinedBefore(f, j, blk).size && next == PointerTo(f, j + 1, endMarker)
      requires j + 1 < |f| ==>
        && HasHeader(mem[..], next) && next != merged && next < endMarker
        && mem[SizeAt(next)] == f[j + 1].size && mem[NextAt(next)] == PointerTo(f, j + 2, endMarker)
        && f[j + 1].End() <= endMarker
      requires endMarker < 0x8000_0000
      modifies mem
      ensures mem[SizeAt(merged)] == JoinedAfter(f, j, blk).size
      ensures mem[NextAt(merged)] == RestPointer(f, j, blk, endMarker)
      ensures forall i :: 0 <= i < mem.Length && i != SizeAt(merged) && i != NextAt(merged) ==> mem[i] == old(mem[i])
    {
      if merged + mem[SizeAt(merged)] == next {
        if next != endMarker {
          HeadersApart(merged, next);
          hide NextAt, SizeAt;
          mem[SizeAt(merged)] := mem[SizeAt(merged)] + mem[SizeAt(next)];
          mem[NextAt(merged)] := mem[NextAt(next)];
        } else {
          mem[NextAt(merged)] := endMarker;
        }
      } else {
        mem[NextAt(merged)] := next;
      }
    }

    /** Merge the block at `b` with its neighbours if they touch, and link it in behind `it`. */
    method MergeAndLink(it: nat, b: nat, ghost f: seq<Block>, ghost j: nat, ghost blk: Block)
      requires HeadersKnown(f, j, blk) && it == f[j].addr && b == blk.addr
      modifies mem
      ensures HeadersInserted(mem[..], f, j, blk, endMarker)
      ensures OnlyHeaders(old(mem[..]), mem[..], it, b)
    {
      HeadersApart(it, b);
      if j + 1 < |f| { HeadersApart(f[j + 1].addr, it); HeadersApart(f[j + 1].addr, b); }
      hide NextAt, SizeAt;
      var next := mem[NextAt(it)];
      var merged := MergeBefore(it, b, f, j, blk);
      MergeAfter(merged, next, f, j, blk);
      if it != merged {
        mem[NextAt(it)] := merged;
      }
    }
  
    // -------------------------------------------------------------- the free list in memory

    /** `f` is a proper free list, and is the one in memory. */
    ghost predicate Lists(f: seq<Block>, start: nat)
      reads this`endMarker, mem
    {
      && Chain(mem[..], 0, Headed(f), endMarker)
      && Canonical(f, start, endMarker) && Aligned(f) && start >= 8
      && endMarker < 0x8000_0000 && endMarker % 8 == 0 && endMarker + 8 <= 4 * mem.Length
    }

    lemma KnowHeaders(f: seq<Block>, start: nat, j: nat, b: Block)
      requires Lists(f, start) && j <= |f| && Between(Headed(f), j, b) && Headed(f)[j].End() <= b.addr
      requires b.addr % 8 == 0 && b.End() <= endMarker && HasHeader(mem[..], b.addr) && mem[SizeAt(b.addr)] == b.size
      ensures HeadersKnown(Headed(f), j, b)
    {
      HeadersOf(mem[..], f, j, start, endMarker);
      hide Chain, Canonical, Aligned;
    }

    lemma PositionKnown(f: seq<Block>, start: nat, j: nat)
      requires Lists(f, start) && j <= |f|
      ensures var a := Headed(f)[j].addr;
              && HasHeader(mem[..], a) && mem[NextAt(a)] == PointerTo(f, j, endMarker)
              && mem[SizeAt(a)] == Headed(f)[j].size
      ensures j < |f| ==> Headed(f)[j + 1].addr == f[j].addr
    {
      HeadersOf(mem[..], f, j, start, endMarker);
      hide Chain, Canonical, Aligned;
    }

    /** The last block of the list below `b`, the list's start counting as one. */
    method FindPosition(b: nat, ghost f: seq<Block>, ghost start: nat) returns (it: nat, ghost j: nat)
      requires Lists(f, start) && 0 < b < endMarker
      ensures j <= |f| && it == Headed(f)[j].addr && it < b && (j < |f| ==> b <= f[j].addr)
    {
      hide Lists;
      j := 0;
      it := 0;
      PositionKnown(f, start, 0);
      while mem[NextAt(it)] < b
        invariant j <= |f| && it == Headed(f)[j].addr && it < b
        invariant HasHeader(mem[..], it) && mem[NextAt(it)] == PointerTo(f, j, endMarker)
        decreases |f| - j
      {
        it := mem[NextAt(it)];
        PositionKnown(f, start, j);
        j := j + 1;
        PositionKnown(f, start, j);
      }
    }

    method InsertBlockIntoFreeList(b: nat, ghost f: seq<Block>, ghost start: nat, ghost blk: Block)
      returns (ghost before: nat)
      requires Lists(f, start) && !Overlaps(f, blk) && b == blk.addr
      requires b % 8 == 0 && blk.size % 8 == 0 && blk.size > 0 && start <= b && blk.End() <= endMarker
      requires mem[SizeAt(b)] == blk.size
      modifies mem
      ensures Lists(InsertBlock(f, blk), start)
      ensures OnlyFree(old(mem[..]), mem[..], f, blk)
      ensures before < b && before % 8 == 0 && OnlyHeaders(old(mem[..]), mem[..], before, b)
    {
      hide Chain, Canonical, Aligned, Overlaps, Ascending, InsertBlock, HeadersKnown, HeadersInserted, OnlyHeaders;
      var it, j := FindPosition(b, f, start);
      BetweenFits(f, j, blk, start, endMarker);
      KnowHeaders(f, start, j, blk);
      HeadersOf(mem[..], f, j, start, endMarker);
      HeadedAscends(f, start, endMarker);
      MergeAndLink(it, b, Headed(f), j, blk);
      InsertLinked(old(mem[..]), mem[..], Headed(f), j, blk, endMarker);
      InsertHeaded(f, blk);
      InsertWritesFree(old(mem[..]), mem[..], f, j, blk, start, endMarker);
      InsertCanonical(f, blk, start, endMarker);
      InsertAligned(f, blk);
      before := it;
    }
  
    // -------------------------------------------------------------- taking a block

    ghost predicate EndMarked()
      reads this`endMarker, mem
    {
      HasHeader(mem[..], endMarker) && mem[SizeAt(endMarker)] == 0 && mem[NextAt(endMarker)] == 0
    }

    /** The first block that is large enough, or the end marker, and the one before it. */
    method FindFit(wanted: nat, ghost f: seq<Block>, ghost start: nat)
      returns (previous: nat, block: nat, ghost k: nat)
      requires Lists(f, start) && EndMarked() && wanted > 0
      ensures k == FirstFit(f, wanted) && previous == Headed(f)[k].addr && block == PointerTo(f, k, endMarker)
    {
      hide Lists, FirstFit;
      ListBounds(f, start);
      k := 0;
      previous := 0;
      PositionKnown(f, start, 0);
      block := mem[NextAt(0)];
      FitStep(f, wanted, 0);
      PositionKnown(f, start, if k < |f| then k + 1 else k);
      while mem[SizeAt(block)] < wanted && mem[NextAt(block)] != 0
        invariant k <= |f| && previous == Headed(f)[k].addr && block == PointerTo(f, k, endMarker)
        invariant FirstFit(f, wanted) == k + FirstFit(f[k..], wanted)
        invariant HasHeader(mem[..], block)
        decreases |f| - k
      {
        FitStep(f, wanted, k);
        PositionKnown(f, start, k + 1);
        previous := block;
        block := mem[NextAt(block)];
        k := k + 1;
        PositionKnown(f, start, if k < |f| then k + 1 else k);
      }
      FitStep(f, wanted, k);
      PositionKnown(f, start, if k < |f| then k + 1 else k);
      if k < |f| { NextIsNotNull(f, start, k); }
    }

    lemma ListBounds(f: seq<Block>, start: nat)
      requires Lists(f, start)
      ensures mem.Length >= 2 && HasHeader(mem[..], 0) && start >= 8
    {
    }

    /** No link of the list is null. */
    lemma NextIsNotNull(f: seq<Block>, start: nat, k: nat)
      requires Lists(f, start) && k < |f|
      ensures HasHeader(mem[..], f[k].addr) && mem[NextAt(f[k].addr)] != 0
    {
      PositionKnown(f, start, k + 1);
      if k + 1 < |f| { CanonicalAt(f, k + 1, start, endMarker); } else { CanonicalAt(f, k, start, endMarker); }
    }

    /** Take the block behind `previous` out of the list. */
    method Unlink(previous: nat, block: nat, ghost f: seq<Block>, ghost start: nat, ghost k: nat)
      requires Lists(f, start) && k < |f| && previous == Headed(f)[k].addr && block == f[k].addr
      requires HasHeader(mem[..], previous) && HasHeader(mem[..], block)
      modifies mem
      ensures Lists(Dropped(f, k), start) && Outside(old(mem[..]), mem[..], f)
      ensures mem[SizeAt(block)] == f[k].size
    {
      hide Chain, Canonical, Aligned, Ascending, Dropped, Covers;
      ghost var m := mem[..];
      HeadersOf(m, f, k, start, endMarker);
      HeadersApart(previous, block);
      mem[NextAt(previous)] := mem[NextAt(block)];
      assert mem[..] == m[NextAt(previous) := m[NextAt(block)]];
      UnlinkKeeps(m, mem[..], f, k, start, endMarker);
    }

    /** Give back what is not wanted of a block that has been taken out. */
    method SplitOff(block: nat, wanted: nat, ghost f: seq<Block>, ghost start: nat, ghost k: nat)
      requires k < |f| && Canonical(f, start, endMarker) && Aligned(f) && Lists(Dropped(f, k), start)
      requires block == f[k].addr && HasHeader(mem[..], block) && mem[SizeAt(block)] == f[k].size
      requires 16 <= wanted <= f[k].size && wanted % 8 == 0
      modifies mem
      ensures Lists(TakeAt(f, k, wanted), start) && Outside(old(mem[..]), mem[..], f)
      ensures mem[SizeAt(block)] == Taken(f[k], wanted).size
    {
      hide Chain, Canonical, Aligned, Dropped, Covers, Overlaps, InsertBlock;
      if mem[SizeAt(block)] - wanted > MINIMUM_BLOCK_SIZE {
        ghost var m := mem[..];
        ghost var rest := Remainder(f[k], wanted);
        var newBlock := block + wanted;
        RemainderFits(f, k, wanted, start, endMarker);
        RemainderApart(f, k, wanted, start, endMarker);
        HeadersApart(block, newBlock);
        mem[SizeAt(newBlock)] := mem[SizeAt(block)] - wanted;
        ghost var m0 := mem[..];
        mem[SizeAt(block)] := wanted;
        ghost var m1 := mem[..];
        SizesWritten(m, m0, m1, f, k, newBlock, f[k].size - wanted, block, wanted, start, endMarker);
        ghost var before := InsertBlockIntoFreeList(newBlock, Dropped(f, k), start, rest);
        RemainderWritten(m1, mem[..], f, k, wanted, start, endMarker);
        OutsideBoth(m, m1, mem[..], f);
      }
    }

    // -------------------------------------------------------------- the allocator's state

    ghost predicate Valid()
      reads this, mem
    {
      && HeapState.Inv(heap) && Lists(heap.free, heap.start) && EndMarked()
      && endMarker == heap.end && freeBytesRemaining == heap.freeBytes
      && minimumEverFreeBytesRemaining == heap.minimumEver
      && UsedMarked(mem[..], heap.used)
    }

    method MarkAllocated(block: nat, ghost f: seq<Block>, ghost start: nat, ghost k: nat, ghost wanted: nat)
      requires k < |f| && Canonical(f, start, endMarker) && Aligned(f) && wanted <= f[k].size
      requires Lists(TakeAt(f, k, wanted), start) && block == f[k].addr && HasHeader(mem[..], block)
      requires mem[SizeAt(block)] == Taken(f[k], wanted).size && wanted >= 16
      modifies mem
      ensures Lists(TakeAt(f, k, wanted), start) && Outside(old(mem[..]), mem[..], f)
      ensures mem[SizeAt(block)] == Taken(f[k], wanted).size + ALLOCATED_BIT && mem[NextAt(block)] == 0
    {
      hide Chain, Canonical, Aligned, Outside, TakeAt;
      ghost var m := mem[..];
      CanonicalAt(f, k, start, endMarker);
      mem[SizeAt(block)] := mem[SizeAt(block)] + ALLOCATED_BIT;
      ghost var m1 := mem[..];
      mem[NextAt(block)] := 0;
      HeaderWritten(m, m1, m1[SizeAt(block)], mem[..], 0, f, k, wanted, start, endMarker);
    }

    /** Hand out the block at `block`, splitting it if it is large enough. */
    method Take(previous: nat, block: nat, wanted: nat, ghost k: nat)
      requires Valid() && k < |heap.free| && 16 <= wanted <= heap.free[k].size && wanted % 8 == 0
      requires previous == Headed(heap.free)[k].addr && block == heap.free[k].addr
      modifies this, mem
      ensures Valid() && heap == TakeBlock(old(heap), k, wanted)
      ensures Outside(old(mem[..]), mem[..], old(heap).free)
    {
      hide Chain, Canonical, Aligned, Outside, TakeAt, HeapState.Inv, Dropped, UsedMarked, FreeLists.Splits;
      ghost var f, start, m := heap.free, heap.start, mem[..];
      KnowList(heap);
      TakenFits(f, k, wanted, start, endMarker);
      PositionKnown(f, start, k);
      PositionKnown(f, start, k + 1);
      Unlink(previous, block, f, start, k);
      ghost var m1 := mem[..];
      SplitOff(block, wanted, f, start, k);
      ghost var m2 := mem[..];
      OutsideBoth(m, m1, m2, f);
      SizeFree(heap, k);
      freeBytesRemaining := freeBytesRemaining - mem[SizeAt(block)];
      if freeBytesRemaining < minimumEverFreeBytesRemaining {
        minimumEverFreeBytesRemaining := freeBytesRemaining;
      }
      MarkAllocated(block, f, start, k, wanted);
      OutsideBoth(m, m2, mem[..], f);
      TakenMarked(m, mem[..], heap, k, wanted);
      heap := TakeBlock(heap, k, wanted);
      TakeKeeps(old(heap), k, wanted);
    }

    // -------------------------------------------------------------- memory set to zero

    /** Set `n` bytes from `p` on to zero. */
    method Wipe(p: nat, n: nat)
      requires p % 4 == 0 && p + n <= 4 * mem.Length
      modifies mem
      ensures forall a :: p <= a < p + n ==> ByteAt(mem[..], a) == 0
      ensures forall i :: 0 <= i < mem.Length && !(p <= 4 * i < p + n) ==> mem[i] == old(mem[i])
    {
      var i := p / 4;
      var last := (p + n) / 4;
      while i < last
        invariant p / 4 <= i <= last
        invariant forall j :: p / 4 <= j < i ==> mem[j] == 0
        invariant forall j :: 0 <= j < mem.Length && !(p / 4 <= j < i) ==> mem[j] == old(mem[j])
      {
        mem[i] := 0;
        i := i + 1;
      }
      var tail := n % 4;
      if tail > 0 {
        mem[last] := ClearLow(mem[last], tail);
      }
      Wiped(old(mem[..]), mem[..], p, n);
    }

    // -------------------------------------------------------------- malloc

    /** The source's fatal check of the result is left to the caller; 0 is the null pointer. */
    method Malloc(n: Word) returns (p: nat)
      requires Valid()
      modifies this, mem
      ensures Valid()
      ensures var (h, r) := HeapState.Malloc(old(heap), n);
              heap == h && p == (if r.At? then r.p else 0)
      ensures Outside(old(mem[..]), mem[..], old(heap).free)
      ensures p != 0 ==> p + n <= 4 * mem.Length && forall a :: p <= a < p + n ==> ByteAt(mem[..], a) == 0
    {
      hide Outside, TakeAt, TakeBlock, HeapState.Inv, UsedMarked, Lists;
      p := 0;
      var wanted := n;
      ghost var m, h := mem[..], heap;
      MallocChoice(h, n);
      OutsideNone(m, h.free);
      if n < ALLOCATED_BIT {
        if wanted > 0 {
          wanted := wanted + HEADER;
          if wanted % 8 != 0 {
            wanted := wanted + (8 - wanted % 8);
          }
        }
        if wanted > 0 && wanted <= freeBytesRemaining {
          var previous, block, k := FindFit(wanted, heap.free, heap.start);
          BlockIsNotEnd(h, k);
          if block != endMarker {
            p := block + HEADER;
            Take(previous, block, wanted, k);
            WipeTaken(p, n, m, h, k, wanted);
          }
        }
      }
    }

    /** The bytes asked for are set to zero, and nothing but the block handed out is touched. */
    method WipeTaken(p: nat, n: nat, ghost m: seq<Word>, ghost h: Heap, ghost k: nat, ghost wanted: nat)
      requires Valid() && HeapState.Inv(h) && k < |h.free| && n + 8 <= wanted <= h.free[k].size && wanted % 8 == 0
      requires heap == TakeBlock(h, k, wanted) && p == h.free[k].addr + 8 && Outside(m, mem[..], h.free)
      modifies mem
      ensures Valid() && Outside(m, mem[..], h.free)
      ensures p + n <= 4 * mem.Length && forall a :: p <= a < p + n ==> ByteAt(mem[..], a) == 0
    {
      hide TakeBlock, HeapState.Inv, UsedMarked, Chain, Canonical, Aligned, Outside, ByteAt;
      ghost var m1 := mem[..];
      ghost var b := h.free[k].addr;
      TakenHolds(h, k, wanted);
      PayloadFits(heap, b, n);
      PayloadAligned(b);
      Wipe(p, n);
      PayloadWritten(m1, mem[..], heap, b, n);
      PayloadWasFree(m1, mem[..], h, k, wanted, n);
      OutsideBoth(m, m1, mem[..], h.free);
    }

    // -------------------------------------------------------------- free

    /** Clear the allocated bit and the contents of a block handed out. */
    method Reclaim(link: nat, ghost b: Block)
      requires Valid() && link in heap.used && b == Block(link, heap.used[link])
      modifies mem, this`freeBytesRemaining
      ensures Lists(heap.free, heap.start) && OnlyFree(old(mem[..]), mem[..], heap.free, b)
      ensures HasHeader(mem[..], link) && mem[SizeAt(link)] == b.size
      ensures freeBytesRemaining == heap.freeBytes + b.size
    {
      hide HeapState.Inv, Covers, Chain, Canonical, Aligned;
      ghost var m := mem[..];
      PayloadFits2(heap, link);
      WordOfHeader(SizeAt(link), link);
      mem[SizeAt(link)] := mem[SizeAt(link)] - ALLOCATED_BIT;
      freeBytesRemaining := freeBytesRemaining + mem[SizeAt(link)];
      Wipe(link + HEADER, mem[SizeAt(link)] - HEADER);
      BlockWritten(m, mem[..], heap, link);
    }

    method Free(p: nat)
      requires Valid() && (p == 0 || Live(heap, p))
      modifies this, mem
      ensures Valid() && heap == HeapState.Free(old(heap), p)
      ensures p == 0 ==> mem[..] == old(mem[..])
      ensures p != 0 ==>
                OnlyFree(old(mem[..]), mem[..], old(heap).free, Block(p - HEADER, old(heap).used[p - HEADER]))
    {
      hide HeapState.Inv, InsertBlock, Lists, UsedMarked, OnlyFree, Overlaps, OnlyHeaders;
      if p != 0 {
        ghost var m, h := mem[..], heap;
        var link := p - HEADER;
        ghost var b := Block(link, heap.used[link]);
        PayloadFits2(heap, link);
        ListBounds(h.free, h.start);
        MarkedAt(m, h.used, link);
        if mem[SizeAt(link)] >= ALLOCATED_BIT {
          if mem[NextAt(link)] == 0 {
            Reclaim(link, b);
            ghost var m1 := mem[..];
            UsedIsNotFree(h, link);
            ghost var before := InsertBlockIntoFreeList(link, h.free, h.start, b);
            OnlyFreeBoth(m, m1, mem[..], h.free, b);
            FreedMarked(m, mem[..], h, link);
            heap := FreeBlock(h, link);
            FreeKeeps(h, link);
          }
        }
      }
    }

    // -------------------------------------------------------------- the largest free block

    method GetMaxFreeBlock() returns (maxFreeSize: nat)
      requires Valid()
      ensures forall i :: 0 <= i < |heap.free| ==> heap.free[i].size <= maxFreeSize
      ensures maxFreeSize == 0 || exists i :: 0 <= i < |heap.free| && heap.free[i].size == maxFreeSize
    {
      hide HeapState.Inv, Lists, UsedMarked;
      ghost var f, start, k := heap.free, heap.start, 0;
      ListBounds(f, start);
      PositionKnown(f, start, 0);
      maxFreeSize := 0;
      var block := mem[NextAt(0)];
      if f != [] { NextIsNotNull(f, start, 0); PositionKnown(f, start, 1); }
      while mem[NextAt(block)] != 0
        invariant 0 <= k <= |f| && block == PointerTo(f, k, endMarker) && HasHeader(mem[..], block)
        invariant k < |f| ==> mem[NextAt(block)] != 0
        invariant forall i :: 0 <= i < k ==> f[i].size <= maxFreeSize
        invariant maxFreeSize == 0 || exists i :: 0 <= i < k && f[i].size == maxFreeSize
        decreases |f| - k
      {
        PositionKnown(f, start, k + 1);
        if mem[SizeAt(block)] > maxFreeSize {
          maxFreeSize := mem[SizeAt(block)];
        }
        block := mem[NextAt(block)];
        k := k + 1;
        if k < |f| { NextIsNotNull(f, start, k); }
      }
    }
  }

  lemma Wiped(m: seq<Word>, m': seq<Word>, p: nat, n: nat)
    requires |m'| == |m| && p % 4 == 0 && p + n <= 4 * |m|
    requires forall j :: p / 4 <= j < (p + n) / 4 ==> m'[j] == 0
    requires n % 4 > 0 ==> m'[(p + n) / 4] == ClearLow(m[(p + n) / 4], n % 4)
    ensures forall a :: p <= a < p + n ==> ByteAt(m', a) == 0
  {
    forall a | p <= a < p + n ensures ByteAt(m', a) == 0 {
      var last := (p + n) / 4;
      if a / 4 < last {
        assert m'[a / 4] == 0;
      } else {
        assert a / 4 == last && a % 4 < n % 4;
        ClearLowBytes(m[last], n % 4, a % 4);
      }
    }
  }

  /** What the search decides, in the words of the specification. */
  lemma MallocChoice(h: Heap, n: nat)
    ensures var w := Wanted(n);
            var k := FirstFit(h.free, w);
            HeapState.Malloc(h, n) ==
            if w > 0 && w <= h.freeBytes && k < |h.free| && h.free[k].size >= w
            then (TakeBlock(h, k, w), At(h.free[k].addr + HEADER)) else (h, Failed)
    ensures n < ALLOCATED_BIT ==> Rounded(n) % 8 == 0 && Rounded(n) >= n + 8
    ensures FirstFit(h.free, Wanted(n)) < |h.free| ==> h.free[FirstFit(h.free, Wanted(n))].size >= Wanted(n)
  {
    FirstFitIsFirst(h.free, Wanted(n));
    hide TakeBlock;
  }

  lemma OutsideNone(m: seq<Word>, f: seq<Block>)
    ensures Outside(m, m, f)
  {
  }

  lemma BlockIsNotEnd(h: Heap, k: nat)
    requires HeapState.Inv(h)
    ensures k < |h.free| ==> h.free[k].addr != h.end
  {
    if k < |h.free| { CanonicalAt(h.free, k, h.start, h.end); }
  }

  lemma TakenHolds(h: Heap, k: nat, wanted: nat)
    requires k < |h.free| && wanted <= h.free[k].size
    ensures var h' := TakeBlock(h, k, wanted); h.free[k].addr in h'.used && h'.used[h.free[k].addr] >= wanted
  {
    hide TakeAt;
  }

  lemma PayloadFits(h: Heap, b: nat, n: nat)
    requires HeapState.Inv(h) && b in h.used && n + 8 <= h.used[b]
    ensures b % 8 == 0 && b + 8 + n <= b + h.used[b] <= h.end && h.start <= b
  {
  }

  lemma PayloadAligned(b: nat)
    requires b % 8 == 0
    ensures (b + 8) % 4 == 0
  {
  }

  /** Words of a block handed out, behind its header, do not concern the allocator. */
  lemma PayloadWritten(m: seq<Word>, m': seq<Word>, h: Heap, b: nat, n: nat)
    requires HeapState.Inv(h) && b in h.used && n + 8 <= h.used[b] && h.start >= 8 && |m'| == |m| && |m| >= 2
    requires forall i :: 0 <= i < |m| && !(b + 8 <= 4 * i < b + 8 + n) ==> m'[i] == m[i]
    requires Chain(m, 0, Headed(h.free), h.end) && UsedMarked(m, h.used) && HasHeader(m, h.end)
    ensures Chain(m', 0, Headed(h.free), h.end) && UsedMarked(m', h.used)
    ensures m'[NextAt(h.end)] == m[NextAt(h.end)] && m'[SizeAt(h.end)] == m[SizeAt(h.end)]
  {
    PayloadFits(h, b, n);
    assert Agrees(m, m', h.free) by { PayloadAgrees(m, m', h, b, n); }
    KnowList(h);
    ListAgrees(m, m', h.free, h.start, h.end);
    WordOfHeader(NextAt(h.end), h.end);
    WordOfHeader(SizeAt(h.end), h.end);
    forall c | c in h.used
      ensures HasHeader(m', c) && m'[NextAt(c)] == 0 && m'[SizeAt(c)] == h.used[c] + ALLOCATED_BIT {
      HeaderOutside(h, b, c, n);
      WordOfHeader(NextAt(c), c);
      WordOfHeader(SizeAt(c), c);
    }
  }

  lemma HeaderOutside(h: Heap, b: nat, c: nat, n: nat)
    requires HeapState.Inv(h) && b in h.used && c in h.used && n + 8 <= h.used[b]
    ensures c + 8 <= b + 8 || b + 8 + n <= c
  {
  }

  lemma PayloadAgrees(m: seq<Word>, m': seq<Word>, h: Heap, b: nat, n: nat)
    requires HeapState.Inv(h) && b in h.used && n + 8 <= h.used[b] && h.start >= 8 && |m'| == |m| && |m| >= 2
    requires forall i :: 0 <= i < |m| && !(b + 8 <= 4 * i < b + 8 + n) ==> m'[i] == m[i]
    ensures Agrees(m, m', h.free)
  {
    PayloadFits(h, b, n);
    forall i | 2 <= i < |m| && Covers(h.free, 4 * i) ensures m'[i] == m[i] {
      if b + 8 <= 4 * i < b + 8 + n { InsideIsOwned(h, b, 4 * i); }
    }
    hide HeapState.Inv;
  }

  lemma InsideIsOwned(h: Heap, b: nat, a: nat)
    requires HeapState.Inv(h) && InUsed(h, b, a)
    ensures !Covers(h.free, a)
  {
    assert Owned(h, a);
  }

  lemma PayloadWasFree(m: seq<Word>, m': seq<Word>, h: Heap, k: nat, wanted: nat, n: nat)
    requires HeapState.Inv(h) && k < |h.free| && n + 8 <= wanted <= h.free[k].size && |m'| == |m|
    requires forall i :: 0 <= i < |m| && !(h.free[k].addr + 8 <= 4 * i < h.free[k].addr + 8 + n) ==> m'[i] == m[i]
    ensures Outside(m, m', h.free)
  {
    KnowList(h);
    forall i | 2 <= i < |m| && !Covers(h.free, 4 * i) ensures m'[i] == m[i] {
      TakenWasFree(h.free, k, wanted, h.start, h.end, 4 * i);
    }
    hide HeapState.Inv;
  }

  lemma PayloadFits2(h: Heap, b: nat)
    requires HeapState.Inv(h) && b in h.used
    ensures b % 8 == 0 && h.used[b] % 8 == 0 && h.used[b] >= 16 && b + h.used[b] <= h.end && h.start <= b
  {
  }

  lemma MarkedAt(m: seq<Word>, used: map<nat, nat>, b: nat)
    requires UsedMarked(m, used) && b in used
    ensures HasHeader(m, b) && m[NextAt(b)] == 0 && m[SizeAt(b)] == used[b] + ALLOCATED_BIT
  {
  }

  /** A block handed out may be written all over without the free list changing. */
  lemma BlockWritten(m: seq<Word>, m': seq<Word>, h: Heap, b: nat)
    requires HeapState.Inv(h) && b in h.used && h.start >= 8 && |m'| == |m| && |m| >= 2
    requires forall i :: 0 <= i < |m| && !(b <= 4 * i < b + h.used[b]) ==> m'[i] == m[i]
    requires Chain(m, 0, Headed(h.free), h.end)
    ensures Chain(m', 0, Headed(h.free), h.end) && OnlyFree(m, m', h.free, Block(b, h.used[b]))
  {
    KnowList(h);
    PayloadFits2(h, b);
    forall i | 2 <= i < |m| && Covers(h.free, 4 * i) ensures m'[i] == m[i] {
      if b <= 4 * i < b + h.used[b] { InsideIsOwned(h, b, 4 * i); }
    }
    hide HeapState.Inv;
    ListAgrees(m, m', h.free, h.start, h.end);
  }

  lemma OnlyFreeBoth(m: seq<Word>, m1: seq<Word>, m2: seq<Word>, f: seq<Block>, b: Block)
    requires OnlyFree(m, m1, f, b) && OnlyFree(m1, m2, f, b)
    ensures OnlyFree(m, m2, f, b)
  {
    hide Covers;
  }

  lemma FreedMarked(m: seq<Word>, m': seq<Word>, h: Heap, b: nat)
    requires HeapState.Inv(h) && b in h.used && h.start >= 8 && UsedMarked(m, h.used) && HasHeader(m, h.end)
    requires OnlyFree(m, m', h.free, Block(b, h.used[b]))
    ensures UsedMarked(m', FreeBlock(h, b).used)
    ensures h.end >= 8 && m'[NextAt(h.end)] == m[NextAt(h.end)] && m'[SizeAt(h.end)] == m[SizeAt(h.end)]
  {
    hide Covers, InsertBlock;
    PayloadFits2(h, b);
    forall c | c in h.used && c != b
      ensures HasHeader(m', c) && m'[NextAt(c)] == 0 && m'[SizeAt(c)] == h.used[c] + ALLOCATED_BIT {
      OtherHeaderKept(m, m', h, b, c);
    }
    WordOfHeader(NextAt(h.end), h.end);
    WordOfHeader(SizeAt(h.end), h.end);
    EndNotCovered(h);
    hide HeapState.Inv;
  }

  lemma EndNotCovered(h: Heap)
    requires HeapState.Inv(h)
    ensures !Covers(h.free, h.end) && !Covers(h.free, h.end + 4)
  {
    if Covers(h.free, h.end) { CoversWithin(h.free, h.start, h.end, h.end); }
    if Covers(h.free, h.end + 4) { CoversWithin(h.free, h.start, h.end, h.end + 4); }
  }

  lemma OtherHeaderKept(m: seq<Word>, m': seq<Word>, h: Heap, b: nat, c: nat)
    requires HeapState.Inv(h) && b in h.used && c in h.used && c != b && h.start >= 8 && HasHeader(m, c)
    requires OnlyFree(m, m', h.free, Block(b, h.used[b]))
    ensures m'[NextAt(c)] == m[NextAt(c)] && m'[SizeAt(c)] == m[SizeAt(c)] && |m'| == |m|
  {
    UsedNotCovered(h, c, c);
    UsedNotCovered(h, c, c + 4);
    assert c + 8 <= b || b + h.used[b] <= c;
    hide HeapState.Inv, Covers;
    WordOfHeader(NextAt(c), c);
    WordOfHeader(SizeAt(c), c);
  }

  /** The contents of every block handed out survive any request ... */
  lemma OthersUntouchedByMalloc(m: seq<Word>, m': seq<Word>, h: Heap, c: nat, i: nat)
    requires HeapState.Inv(h) && h.start >= 8 && Outside(m, m', h.free)
    requires InUsed(h, c, 4 * i) && i < |m|
    ensures m'[i] == m[i]
  {
    InsideIsOwned(h, c, 4 * i);
    assert c >= h.start;
    hide Covers;
  }

  /** ... and the freeing of any other block. */
  lemma OthersUntouchedByFree(m: seq<Word>, m': seq<Word>, h: Heap, b: nat, c: nat, i: nat)
    requires HeapState.Inv(h) && h.start >= 8 && b in h.used && c != b
    requires OnlyFree(m, m', h.free, Block(b, h.used[b]))
    requires InUsed(h, c, 4 * i) && i < |m|
    ensures m'[i] == m[i]
  {
    InsideIsOwned(h, c, 4 * i);
    assert c >= h.start && !Within(Block(b, h.used[b]), 4 * i);
    hide Covers;
  }

  ghost predicate UsedMarked(m: seq<Word>, used: map<nat, nat>) {
    forall b :: b in used ==>
      HasHeader(m, b) && m[NextAt(b)] == 0 && m[SizeAt(b)] == used[b] + ALLOCATED_BIT
  }

  lemma KnowList(h: Heap)
    requires HeapState.Inv(h)
    ensures Canonical(h.free, h.start, h.end) && Aligned(h.free)
  {
  }

  lemma TakenFits(f: seq<Block>, k: nat, wanted: nat, start: nat, end: nat)
    requires Canonical(f, start, end) && k < |f| && wanted <= f[k].size
    ensures wanted <= Taken(f[k], wanted).size <= f[k].size && f[k].End() <= end && start <= f[k].addr
  {
    CanonicalAt(f, k, start, end);
  }

  lemma HeaderWritten(m: seq<Word>, m1: seq<Word>, u: Word, m2: seq<Word>, v: Word, f: seq<Block>, k: nat, wanted: nat,
                      start: nat, end: nat)
    requires k < |f| && Canonical(f, start, end) && 16 <= wanted <= f[k].size && start >= 8
    requires HasHeader(m, f[k].addr) && |m1| == |m| == |m2|
    requires Chain(m, 0, Headed(TakeAt(f, k, wanted)), end)
    requires Canonical(TakeAt(f, k, wanted), start, end) && Aligned(TakeAt(f, k, wanted))
    requires m1 == m[SizeAt(f[k].addr) := u] && m2 == m1[NextAt(f[k].addr) := v]
    ensures Chain(m2, 0, Headed(TakeAt(f, k, wanted)), end) && Outside(m, m2, f)
  {
    hide Chain, Canonical, Aligned, Outside, TakeAt;
    var b := f[k].addr;
    CanonicalAt(f, k, start, end);
    WordOfHeader(SizeAt(b), b);
    WordOfHeader(NextAt(b), b);
    TakenHeaderWritten(m, SizeAt(b), u, f, k, wanted, start, end);
    TakenHeaderWritten(m1, NextAt(b), v, f, k, wanted, start, end);
    OutsideBoth(m, m1, m2, f);
  }

  lemma TakenHeaderWritten(m: seq<Word>, i: nat, w: Word, f: seq<Block>, k: nat, wanted: nat, start: nat, end: nat)
    requires k < |f| && Canonical(f, start, end) && wanted <= f[k].size && start >= 8
    requires 2 <= i < |m| && Within(Taken(f[k], wanted), 4 * i)
    requires Chain(m, 0, Headed(TakeAt(f, k, wanted)), end)
    requires Canonical(TakeAt(f, k, wanted), start, end) && Aligned(TakeAt(f, k, wanted))
    ensures Chain(m[i := w], 0, Headed(TakeAt(f, k, wanted)), end) && Outside(m, m[i := w], f)
  {
    hide Chain, Canonical, Aligned, TakeAt, Covers;
    TakeCovers(f, k, wanted, start, end, 4 * i);
    TakenWasFree(f, k, wanted, start, end, 4 * i);
    AgreesOne(m, i, w, TakeAt(f, k, wanted));
    ListAgrees(m, m[i := w], TakeAt(f, k, wanted), start, end);
    OutsideOne(m, i, w, f);
  }

  /** Writes to free memory leave the headers of the blocks handed out, and the end marker, alone. */
  lemma UsedStaysMarked(m: seq<Word>, m': seq<Word>, h: Heap, b: nat)
    requires HeapState.Inv(h) && b in h.used && h.start >= 8 && Outside(m, m', h.free) && HasHeader(m, b)
    ensures m'[NextAt(b)] == m[NextAt(b)] && m'[SizeAt(b)] == m[SizeAt(b)]
  {
    UsedNotCovered(h, b, b);
    UsedNotCovered(h, b, b + 4);
    hide HeapState.Inv;
    WordOfHeader(NextAt(b), b);
    WordOfHeader(SizeAt(b), b);
  }

  lemma UsedNotCovered(h: Heap, b: nat, a: nat)
    requires HeapState.Inv(h) && b in h.used && b <= a < b + 8
    ensures !Covers(h.free, a) && h.start <= b
  {
    assert InUsed(h, b, a);
    assert Owned(h, a);
  }

  lemma EndStaysMarked(m: seq<Word>, m': seq<Word>, h: Heap)
    requires HeapState.Inv(h) && h.end >= 8 && Outside(m, m', h.free) && HasHeader(m, h.end)
    ensures m'[NextAt(h.end)] == m[NextAt(h.end)] && m'[SizeAt(h.end)] == m[SizeAt(h.end)]
  {
    WordOfHeader(NextAt(h.end), h.end);
    WordOfHeader(SizeAt(h.end), h.end);
    if Covers(h.free, h.end) { CoversWithin(h.free, h.start, h.end, h.end); }
    if Covers(h.free, h.end + 4) { CoversWithin(h.free, h.start, h.end, h.end + 4); }
    hide HeapState.Inv;
  }

  lemma TakenMarked(m: seq<Word>, m': seq<Word>, h: Heap, k: nat, wanted: nat)
    requires HeapState.Inv(h) && h.start >= 8 && UsedMarked(m, h.used) && Outside(m, m', h.free)
    requires k < |h.free| && 16 <= wanted <= h.free[k].size && HasHeader(m, h.end) && HasHeader(m, h.free[k].addr)
    requires m'[SizeAt(h.free[k].addr)] == Taken(h.free[k], wanted).size + ALLOCATED_BIT
    requires m'[NextAt(h.free[k].addr)] == 0
    ensures UsedMarked(m', TakeBlock(h, k, wanted).used)
    ensures h.end >= 8 ==> m'[NextAt(h.end)] == m[NextAt(h.end)] && m'[SizeAt(h.end)] == m[SizeAt(h.end)]
  {
    if h.end >= 8 { EndStaysMarked(m, m', h); }
    hide HeapState.Inv, TakeAt;
    var used := TakeBlock(h, k, wanted).used;
    forall b | b in used
      ensures HasHeader(m', b) && m'[NextAt(b)] == 0 && m'[SizeAt(b)] == used[b] + ALLOCATED_BIT
    {
      if b != h.free[k].addr { UsedStaysMarked(m, m', h, b); }
    }
  }

  /** The memory after the one write that unlinks the block at `k`. */
  lemma UnlinkKeeps(m: seq<Word>, m': seq<Word>, f: seq<Block>, k: nat, start: nat, end: nat)
    requires Chain(m, 0, Headed(f), end) && Canonical(f, start, end) && Aligned(f) && start >= 8 && k < |f|
    requires HasHeader(m, Headed(f)[k].addr) && HasHeader(m, f[k].addr)
    requires m' == m[NextAt(Headed(f)[k].addr) := m[NextAt(f[k].addr)]]
    ensures Chain(m', 0, Headed(Dropped(f, k)), end) && Canonical(Dropped(f, k), start, end)
    ensures Aligned(Dropped(f, k)) && Outside(m, m', f)
  {
    hide Chain, Canonical, Aligned, Ascending, Covers, Dropped;
    var x := Headed(f)[k].addr;
    HeadersOf(m, f, k, start, end);
    HeadedAscends(f, start, end);
    UnlinkLinked(m, m', Headed(f), k, end);
    HeadedDropped(f, k);
    DroppedCanonical(f, k, start, end);
    DroppedAligned(f, k);
    if k > 0 { HeaderIsFree(f, k - 1, start, end); }
    WordOfHeader(NextAt(x), x);
    OutsideOne(m, NextAt(x), m[NextAt(f[k].addr)], f);
  }

  lemma HeadedDropped(f: seq<Block>, k: nat)
    requires k < |f|
    ensures Dropped(Headed(f), k + 1) == Headed(Dropped(f, k))
  {
    assert Headed(f)[1..] == f;
  }

  lemma RemainderFits(f: seq<Block>, k: nat, wanted: nat, start: nat, end: nat)
    requires Canonical(f, start, end) && Aligned(f) && k < |f| && 16 <= wanted <= f[k].size && wanted % 8 == 0
    ensures var r := Remainder(f[k], wanted);
            && r.addr % 8 == 0 && r.size % 8 == 0 && start <= r.addr && r.End() <= end
            && f[k].addr % 8 == 0 && f[k].addr <= r.addr && f[k].addr + 8 <= f[k].End()
            && (Splits(f[k], wanted) ==> r.addr + 8 <= r.End())
  {
    CanonicalAt(f, k, start, end);
    AlignedAt(f, k);
  }

  /** A write inside the block that was taken touches no other header. */
  lemma TakenWordWritten(m: seq<Word>, i: nat, w: Word, f: seq<Block>, k: nat, start: nat, end: nat)
    requires Canonical(f, start, end) && k < |f| && start >= 8 && 2 <= i < |m| && Within(f[k], 4 * i)
    requires Chain(m, 0, Headed(Dropped(f, k)), end) && Canonical(Dropped(f, k), start, end) && Aligned(Dropped(f, k))
    ensures Chain(m[i := w], 0, Headed(Dropped(f, k)), end) && Outside(m, m[i := w], f)
  {
    hide Chain, Canonical, Aligned, Dropped, Covers;
    TakenWasFree(f, k, 0, start, end, 4 * i);
    AgreesOne(m, i, w, Dropped(f, k));
    ListAgrees(m, m[i := w], Dropped(f, k), start, end);
    OutsideOne(m, i, w, f);
  }

  lemma SizeWordWithin(a: nat, b: Block, n: nat)
    requires a % 8 == 0 && 8 <= b.addr <= a && a + 8 <= b.End() <= 4 * n
    ensures Within(b, 4 * SizeAt(a)) && 2 <= SizeAt(a) < n
  {
  }

  /** Writing the two sizes of a split touches only the block that was taken. */
  lemma SizesWritten(m: seq<Word>, m1: seq<Word>, m2: seq<Word>, f: seq<Block>, k: nat, x: nat, u: Word, y: nat,
                     v: Word, start: nat, end: nat)
    requires Canonical(f, start, end) && k < |f| && start >= 8 && end <= 4 * |m|
    requires Chain(m, 0, Headed(Dropped(f, k)), end) && Canonical(Dropped(f, k), start, end) && Aligned(Dropped(f, k))
    requires x % 8 == 0 && y % 8 == 0 && f[k].addr <= x && f[k].addr <= y && x + 8 <= f[k].End() && y + 8 <= f[k].End()
    requires SizeAt(x) < |m| && m1 == m[SizeAt(x) := u] && SizeAt(y) < |m| && m2 == m1[SizeAt(y) := v]
    ensures Chain(m2, 0, Headed(Dropped(f, k)), end) && Outside(m, m2, f)
  {
    hide Chain, Canonical, Aligned, Dropped, Outside;
    CanonicalAt(f, k, start, end);
    SizeWordWithin(x, f[k], |m|);
    SizeWordWithin(y, f[k], |m|);
    hide SizeAt, Within;
    TakenWordWritten(m, SizeAt(x), u, f, k, start, end);
    TakenWordWritten(m1, SizeAt(y), v, f, k, start, end);
    OutsideBoth(m, m1, m2, f);
  }

  /** Giving back the remainder writes only what was free, and not the header of the block taken. */
  lemma RemainderWritten(m: seq<Word>, m': seq<Word>, f: seq<Block>, k: nat, wanted: nat, start: nat, end: nat)
    requires Canonical(f, start, end) && Aligned(f) && k < |f| && 16 <= wanted <= f[k].size && start >= 8
    requires OnlyFree(m, m', Dropped(f, k), Remainder(f[k], wanted)) && HasHeader(m, f[k].addr)
    ensures Outside(m, m', f) && m'[SizeAt(f[k].addr)] == m[SizeAt(f[k].addr)]
  {
    hide Canonical, Aligned, Dropped, Covers;
    var b := f[k].addr;
    CanonicalAt(f, k, start, end);
    WordOfHeader(SizeAt(b), b);
    TakenWasFree(f, k, wanted, start, end, b + 4);
    forall a | Covers(Dropped(f, k), a) || Within(Remainder(f[k], wanted), a) ensures Covers(f, a) {
      TakenWasFree(f, k, wanted, start, end, a);
    }
    OutsideLarger(m, m', Dropped(f, k), Remainder(f[k], wanted), f);
  }

  lemma FitStep(f: seq<Block>, wanted: nat, k: nat)
    requires k <= |f| && wanted > 0
    ensures FirstFit(f[k..], wanted) == if k == |f| || f[k].size >= wanted then 0 else 1 + FirstFit(f[k + 1..], wanted)
    ensures f[0..] == f
  {
    if k < |f| { assert f[k..][1..] == f[k + 1..]; }
  }
}
