/** The free list as it lies in memory.  Each block begins with two 32-bit words, the address of the
    next free block and the block's size; the list starts at a header of size 0 outside the arena,
    here at address 0, and ends at a marker of size 0 at the arena's top. */
module ArenaMemory {
  import opened FreeLists
  import opened HeapState
  import opened Words

  /** Where the two words of the header at `a` are. */
  function NextAt(a: nat): nat { a / 4 }

  function SizeAt(a: nat): nat { a / 4 + 1 }

  predicate HasHeader(m: seq<Word>, a: nat) {
    a % 8 == 0 && a / 4 + 1 < |m|
  }

  /** The blocks `f` are linked in memory, from the pointer `p` to the pointer `q`. */
  predicate Chain(m: seq<Word>, p: nat, f: seq<Block>, q: nat)
    decreases |f|
  {
    if f == [] then p == q
    else
      p == f[0].addr && HasHeader(m, p) && m[SizeAt(p)] == f[0].size && Chain(m, m[NextAt(p)], f[1..], q)
  }

  lemma {:induction false} ChainConcat(m: seq<Word>, p: nat, f: seq<Block>, q: nat, g: seq<Block>, r: nat)
    requires Chain(m, p, f, q) && Chain(m, q, g, r)
    ensures Chain(m, p, f + g, r)
    decreases |f|
  {
    if f == [] {
      assert f + g == g;
    } else {
      ChainConcat(m, m[NextAt(p)], f[1..], q, g, r);
      assert (f + g)[1..] == f[1..] + g;
    }
  }

  /** The pointer to position `j`. */
  function PointerTo(f: seq<Block>, j: nat, q: nat): nat
    requires j <= |f|
  {
    if j < |f| then f[j].addr else q
  }

  lemma {:induction false} ChainSplit(m: seq<Word>, p: nat, f: seq<Block>, q: nat, j: nat)
    requires Chain(m, p, f, q) && j <= |f|
    ensures Chain(m, p, f[..j], PointerTo(f, j, q)) && Chain(m, PointerTo(f, j, q), f[j..], q)
    decreases |f|
  {
    if j > 0 {
      ChainSplit(m, m[NextAt(p)], f[1..], q, j - 1);
      assert f[..j][1..] == f[1..][..j - 1] && f[1..][j - 1..] == f[j..];
    } else {
      assert f[0..] == f;
    }
  }

  /** The block at position `j` has its size and its link in its header. */
  lemma ChainAt(m: seq<Word>, p: nat, f: seq<Block>, q: nat, j: nat)
    requires Chain(m, p, f, q) && j < |f|
    ensures HasHeader(m, f[j].addr) && m[SizeAt(f[j].addr)] == f[j].size
    ensures m[NextAt(f[j].addr)] == PointerTo(f, j + 1, q)
    ensures Chain(m, p, f[..j], f[j].addr) && Chain(m, PointerTo(f, j + 1, q), f[j + 1..], q)
  {
    ChainSplit(m, p, f, q, j);
    ChainSplit(m, p, f, q, j + 1);
    ChainSplit(m, f[j].addr, f[j..], q, 1);
    assert f[j..][..1] == [f[j]] && f[j..][1..] == f[j + 1..];
    assert Chain(m, f[j].addr, [f[j]], PointerTo(f, j + 1, q));
  }

  /** Nothing but the headers at `x` and `y` is written. */
  predicate OnlyHeaders(m: seq<Word>, m': seq<Word>, x: nat, y: nat) {
    && |m'| == |m|
    && (forall i :: 0 <= i < |m| && i != NextAt(x) && i != SizeAt(x) && i != NextAt(y) && i != SizeAt(y) ==>
          m'[i] == m[i])
  }

  lemma HeaderKept(m: seq<Word>, m': seq<Word>, p: nat, x: nat, y: nat)
    requires OnlyHeaders(m, m', x, y) && x % 8 == 0 && y % 8 == 0 && HasHeader(m, p) && p != x && p != y
    ensures m'[NextAt(p)] == m[NextAt(p)] && m'[SizeAt(p)] == m[SizeAt(p)] && |m'| == |m|
  {
    HeadersApart(p, x);
    HeadersApart(p, y);
    hide NextAt, SizeAt;
  }

  lemma HeadersApart(a: nat, b: nat)
    requires a % 8 == 0 && b % 8 == 0 && a != b
    ensures NextAt(a) != NextAt(b) && NextAt(a) != SizeAt(b) && SizeAt(a) != NextAt(b) && SizeAt(a) != SizeAt(b)
  {
    assert a / 4 == 2 * (a / 8) && b / 4 == 2 * (b / 8);
  }

  predicate Elsewhere(f: seq<Block>, x: nat) {
    f == [] || (f[0].addr != x && Elsewhere(f[1..], x))
  }

  /** A list none of whose headers is written stays linked. */
  lemma {:induction false} ChainKept(m: seq<Word>, m': seq<Word>, p: nat, f: seq<Block>, q: nat, x: nat, y: nat)
    requires Chain(m, p, f, q) && OnlyHeaders(m, m', x, y) && x % 8 == 0 && y % 8 == 0
    requires Elsewhere(f, x) && Elsewhere(f, y)
    ensures Chain(m', p, f, q)
    decreases |f|
  {
    if f != [] {
      HeaderKept(m, m', p, x, y);
      hide OnlyHeaders;
      ChainKept(m, m', m[NextAt(p)], f[1..], q, x, y);
    }
  }

  // ---------------------------------------------------------------- order

  predicate Ascending(f: seq<Block>) {
    |f| < 2 || (f[0].addr < f[1].addr && Ascending(f[1..]))
  }

  lemma {:induction false} AscendingFrom(f: seq<Block>, x: nat)
    requires Ascending(f) && (f != [] ==> x < f[0].addr)
    ensures Elsewhere(f, x)
  {
    if f != [] {
      AscendingFrom(f[1..], x);
    }
  }

  lemma {:induction false} AscendingSplit(f: seq<Block>, j: nat)
    requires Ascending(f) && j < |f|
    ensures Ascending(f[..j]) && Ascending(f[j..]) && Ascending(f[j + 1..])
    ensures j > 0 ==> f[0].addr < f[j].addr
    ensures j + 1 < |f| ==> f[j].addr < f[j + 1].addr
  {
    if j > 0 {
      AscendingSplit(f[1..], j - 1);
      assert f[..j][1..] == f[1..][..j - 1] && f[1..][j - 1..] == f[j..] && f[1..][j..] == f[j + 1..];
    } else {
      assert f[0..] == f && f[..0] == [];
    }
  }

  lemma {:induction false} PrefixElsewhere(f: seq<Block>, j: nat, x: nat)
    requires Ascending(f) && j < |f| && f[j].addr <= x
    ensures Elsewhere(f[..j], x)
  {
    if j > 0 {
      AscendingSplit(f, j);
      PrefixElsewhere(f[1..], j - 1, x);
      assert f[..j][1..] == f[1..][..j - 1];
    }
  }

  lemma {:induction false} CanonicalAscends(f: seq<Block>, lo: nat, end: nat)
    requires Canonical(f, lo, end)
    ensures Ascending(f)
  {
    if f != [] {
      CanonicalAscends(f[1..], f[0].End() + 1, end);
    }
  }

  /** The list with the header it starts from. */
  function Headed(f: seq<Block>): seq<Block> {
    [Block(0, 0)] + f
  }

  lemma HeadedAscends(f: seq<Block>, lo: nat, end: nat)
    requires Canonical(f, lo, end) && lo > 0
    ensures Ascending(Headed(f))
  {
    CanonicalAscends(f, lo, end);
    assert Headed(f)[1..] == f;
  }

  // ---------------------------------------------------------------- what the list functions do by position

  /** Inserting with position `j` the last below the block. */
  function InsertedAt(f: seq<Block>, b: Block, j: nat): seq<Block>
    requires j < |f|
  {
    if f[j].End() == b.addr
    then f[..j] + JoinNext(Block(f[j].addr, f[j].size + b.size), f[j + 1..])
    else f[..j + 1] + JoinNext(b, f[j + 1..])
  }

  lemma InsertedAtStep(f: seq<Block>, b: Block, j: nat)
    requires 0 < j < |f|
    ensures InsertedAt(f, b, j) == [f[0]] + InsertedAt(f[1..], b, j - 1)
  {
    hide JoinNext;
    assert f[1..][j..] == f[j + 1..];
    assert f[..j] == [f[0]] + f[1..][..j - 1];
    assert f[..j + 1] == [f[0]] + f[1..][..j];
  }

  lemma {:induction false} InsertAt(f: seq<Block>, b: Block, j: nat)
    requires Ascending(f) && j < |f| && f[j].addr < b.addr
    requires j + 1 < |f| ==> b.addr <= f[j + 1].addr
    ensures InsertBlock(f, b) == InsertedAt(f, b, j)
  {
    hide JoinNext;
    if j > 0 {
      AscendingSplit(f, j);
      AscendingSplit(f, 1);
      if j > 1 { AscendingSplit(f[1..], j - 1); }
      InsertAt(f[1..], b, j - 1);
      InsertedAtStep(f, b, j);
      hide InsertedAt;
    } else {
      assert f[..0] == [] && f[..1] == [f[0]];
    }
  }

  lemma InsertHeaded(f: seq<Block>, b: Block)
    requires b.addr > 0
    ensures InsertBlock(Headed(f), b) == Headed(InsertBlock(f, b))
  {
    assert Headed(f)[1..] == f;
  }

  lemma {:induction false} DroppedIs(f: seq<Block>, k: nat)
    requires k < |f|
    ensures Dropped(f, k) == f[..k] + f[k + 1..]
  {
    if k > 0 {
      DroppedIs(f[1..], k - 1);
    }
  }

  // ---------------------------------------------------------------- what the pointer writes achieve

  /** The block that is formed with the one before, and then with the one after. */
  function JoinedBefore(f: seq<Block>, j: nat, b: Block): Block
    requires j < |f|
  {
    if f[j].End() == b.addr then Block(f[j].addr, f[j].size + b.size) else b
  }

  predicate JoinsAfter(f: seq<Block>, j: nat, b: Block)
    requires j < |f|
  {
    j + 1 < |f| && JoinedBefore(f, j, b).End() == f[j + 1].addr
  }

  function JoinedAfter(f: seq<Block>, j: nat, b: Block): Block
    requires j < |f|
  {
    var first := JoinedBefore(f, j, b);
    if JoinsAfter(f, j, b) then Block(first.addr, first.size + f[j + 1].size) else first
  }

  /** The list past the block that is formed. */
  function Rest(f: seq<Block>, j: nat, b: Block): seq<Block>
    requires j < |f|
  {
    if JoinsAfter(f, j, b) then f[j + 2..] else f[j + 1..]
  }

  function RestPointer(f: seq<Block>, j: nat, b: Block, end: nat): nat
    requires j < |f|
  {
    if JoinsAfter(f, j, b) then PointerTo(f, j + 2, end) else PointerTo(f, j + 1, end)
  }

  /** `b` belongs between positions `j` and `j + 1`. */
  predicate Between(f: seq<Block>, j: nat, b: Block) {
    j < |f| && f[j].addr < b.addr && (j + 1 < |f| ==> b.addr < f[j + 1].addr)
  }

  /** The headers that an insertion leaves behind. */
  predicate HeadersInserted(m: seq<Word>, f: seq<Block>, j: nat, b: Block, end: nat)
    requires j < |f| && HasHeader(m, f[j].addr) && HasHeader(m, b.addr)
  {
    var last := JoinedAfter(f, j, b);
    && m[SizeAt(last.addr)] == last.size && m[NextAt(last.addr)] == RestPointer(f, j, b, end)
    && (f[j].End() != b.addr ==>
          m[SizeAt(f[j].addr)] == f[j].size && m[NextAt(f[j].addr)] == b.addr)
  }

  lemma RestLinked(m: seq<Word>, m': seq<Word>, f: seq<Block>, j: nat, b: Block, end: nat)
    requires Chain(m, 0, f, end) && Ascending(f) && Between(f, j, b)
    requires HasHeader(m, f[j].addr) && HasHeader(m, b.addr) && OnlyHeaders(m, m', f[j].addr, b.addr)
    ensures Chain(m', RestPointer(f, j, b, end), Rest(f, j, b), end)
  {
    var k := if JoinsAfter(f, j, b) then j + 2 else j + 1;
    ChainSplit(m, 0, f, end, k);
    AscendingSplit(f, j);
    if j + 1 < |f| { AscendingSplit(f, j + 1); }
    if k < |f| { AscendingSplit(f, k); }
    AscendingFrom(f[k..], f[j].addr);
    AscendingFrom(f[k..], b.addr);
    ChainKept(m, m', PointerTo(f, k, end), f[k..], end, f[j].addr, b.addr);
  }

  lemma FrontLinked(m: seq<Word>, m': seq<Word>, f: seq<Block>, j: nat, b: Block, end: nat)
    requires Chain(m, 0, f, end) && Ascending(f) && Between(f, j, b)
    requires HasHeader(m, f[j].addr) && HasHeader(m, b.addr) && OnlyHeaders(m, m', f[j].addr, b.addr)
    ensures Chain(m', 0, f[..j], f[j].addr)
  {
    ChainSplit(m, 0, f, end, j);
    PrefixElsewhere(f, j, f[j].addr);
    PrefixElsewhere(f, j, b.addr);
    ChainKept(m, m', 0, f[..j], f[j].addr, f[j].addr, b.addr);
  }

  /** One or two blocks, linked by their headers. */
  lemma ChainOfOne(m: seq<Word>, b: Block, q: nat)
    requires HasHeader(m, b.addr) && m[SizeAt(b.addr)] == b.size && m[NextAt(b.addr)] == q
    ensures Chain(m, b.addr, [b], q)
  {
    assert [b][1..] == [];
  }

  function Middle(f: seq<Block>, j: nat, b: Block): seq<Block>
    requires j < |f|
  {
    if f[j].End() == b.addr then [JoinedAfter(f, j, b)] else [f[j], JoinedAfter(f, j, b)]
  }

  lemma MiddleLinked(m: seq<Word>, f: seq<Block>, j: nat, b: Block, end: nat)
    requires j < |f| && HasHeader(m, f[j].addr) && HasHeader(m, b.addr) && HeadersInserted(m, f, j, b, end)
    ensures Chain(m, f[j].addr, Middle(f, j, b), RestPointer(f, j, b, end))
  {
    var last := JoinedAfter(f, j, b);
    ChainOfOne(m, last, RestPointer(f, j, b, end));
    if f[j].End() != b.addr {
      ChainOfOne(m, f[j], b.addr);
      ChainConcat(m, f[j].addr, [f[j]], b.addr, [last], RestPointer(f, j, b, end));
      assert [f[j]] + [last] == [f[j], last];
    }
    hide Chain;
  }

  lemma JoinNextIs(f: seq<Block>, j: nat, b: Block)
    requires j < |f|
    ensures JoinNext(JoinedBefore(f, j, b), f[j + 1..]) == [JoinedAfter(f, j, b)] + Rest(f, j, b)
  {
    if JoinsAfter(f, j, b) { assert f[j + 1..][1..] == f[j + 2..]; }
  }

  lemma InsertedIs(f: seq<Block>, j: nat, b: Block)
    requires Ascending(f) && Between(f, j, b)
    ensures InsertBlock(f, b) == f[..j] + Middle(f, j, b) + Rest(f, j, b)
  {
    hide InsertBlock, Ascending, JoinNext, JoinedAfter, Rest;
    InsertAt(f, b, j);
    JoinNextIs(f, j, b);
    assert f[..j + 1] == f[..j] + [f[j]];
  }

  /** Once the headers are as an insertion leaves them, the list in memory is the list with the block
      inserted. */
  lemma InsertLinked(m: seq<Word>, m': seq<Word>, f: seq<Block>, j: nat, b: Block, end: nat)
    requires Chain(m, 0, f, end) && Ascending(f) && Between(f, j, b)
    requires HasHeader(m, f[j].addr) && HasHeader(m, b.addr) && OnlyHeaders(m, m', f[j].addr, b.addr)
    requires HeadersInserted(m', f, j, b, end)
    ensures Chain(m', 0, InsertBlock(f, b), end)
  {
    FrontLinked(m, m', f, j, b, end);
    MiddleLinked(m', f, j, b, end);
    RestLinked(m, m', f, j, b, end);
    hide Chain, HeadersInserted, OnlyHeaders, Middle, Rest, RestPointer;
    ChainConcat(m', 0, f[..j], f[j].addr, Middle(f, j, b), RestPointer(f, j, b, end));
    ChainConcat(m', 0, f[..j] + Middle(f, j, b), RestPointer(f, j, b, end), Rest(f, j, b), end);
    InsertedIs(f, j, b);
  }

  /** One pointer write takes the block behind position `j` out of the list. */
  lemma UnlinkLinked(m: seq<Word>, m': seq<Word>, f: seq<Block>, j: nat, end: nat)
    requires Chain(m, 0, f, end) && Ascending(f) && j + 1 < |f| && HasHeader(m, f[j].addr)
    requires OnlyHeaders(m, m', f[j].addr, f[j].addr)
    requires m'[SizeAt(f[j].addr)] == f[j].size && m'[NextAt(f[j].addr)] == PointerTo(f, j + 2, end)
    ensures Chain(m', 0, Dropped(f, j + 1), end)
  {
    ChainSplit(m, 0, f, end, j);
    ChainSplit(m, 0, f, end, j + 2);
    PrefixElsewhere(f, j, f[j].addr);
    AscendingSplit(f, j);
    AscendingSplit(f, j + 1);
    if j + 2 < |f| { AscendingSplit(f, j + 2); }
    AscendingFrom(f[j + 2..], f[j].addr);
    ChainKept(m, m', 0, f[..j], f[j].addr, f[j].addr, f[j].addr);
    ChainKept(m, m', PointerTo(f, j + 2, end), f[j + 2..], end, f[j].addr, f[j].addr);
    ChainOfOne(m', f[j], PointerTo(f, j + 2, end));
    hide Chain, Ascending, OnlyHeaders;
    ChainConcat(m', 0, f[..j], f[j].addr, [f[j]], PointerTo(f, j + 2, end));
    ChainConcat(m', 0, f[..j] + [f[j]], PointerTo(f, j + 2, end), f[j + 2..], end);
    DroppedIs(f, j + 1);
    assert f[..j + 1] == f[..j] + [f[j]];
  }

  // ---------------------------------------------------------------- where the headers are

  lemma {:induction false} OverlapAt(f: seq<Block>, b: Block, i: nat)
    requires !Overlaps(f, b) && i < |f|
    ensures f[i].End() <= b.addr || b.End() <= f[i].addr
  {
    if i > 0 {
      OverlapAt(f[1..], b, i - 1);
    }
  }

  lemma {:induction false} AlignedAt(f: seq<Block>, i: nat)
    requires Aligned(f) && i < |f|
    ensures f[i].addr % 8 == 0 && f[i].size % 8 == 0
  {
    if i > 0 {
      AlignedAt(f[1..], i - 1);
    }
  }

  /** A block that lies between positions `j` and `j + 1`, and overlaps neither. */
  lemma BetweenFits(f: seq<Block>, j: nat, b: Block, start: nat, end: nat)
    requires Canonical(f, start, end) && start > 0 && !Overlaps(f, b) && b.size > 0 && b.addr > 0
    requires j <= |f| && Headed(f)[j].addr < b.addr && (j < |f| ==> b.addr <= f[j].addr)
    ensures Between(Headed(f), j, b) && Headed(f)[j].End() <= b.addr
  {
    if j > 0 { OverlapAt(f, b, j - 1); }
    if j < |f| {
      OverlapAt(f, b, j);
      CanonicalAt(f, j, start, end);
    }
  }

  /** The header of a free block lies in free memory. */
  lemma HeaderIsFree(f: seq<Block>, k: nat, start: nat, end: nat)
    requires Canonical(f, start, end) && Aligned(f) && k < |f|
    ensures Covers(f, f[k].addr) && Covers(f, f[k].addr + 4)
  {
    AlignedAt(f, k);
    CanonicalAt(f, k, start, end);
    DroppedCovers(f, k, start, end, f[k].addr);
    DroppedCovers(f, k, start, end, f[k].addr + 4);
  }

  /** Apart from the list's start, only free memory and the block given back are written. */
  predicate OnlyFree(m: seq<Word>, m': seq<Word>, f: seq<Block>, b: Block) {
    && |m'| == |m|
    && (forall i :: 2 <= i < |m| && !Covers(f, 4 * i) && !Within(b, 4 * i) ==> m'[i] == m[i])
  }

  lemma InsertWritesFree(m: seq<Word>, m': seq<Word>, f: seq<Block>, j: nat, b: Block, start: nat, end: nat)
    requires Canonical(f, start, end) && Aligned(f) && j <= |f|
    requires b.addr % 8 == 0 && b.size >= 8
    requires OnlyHeaders(m, m', Headed(f)[j].addr, b.addr)
    ensures OnlyFree(m, m', f, b)
  {
    if j > 0 {
      HeaderIsFree(f, j - 1, start, end);
      AlignedAt(f, j - 1);
    }
    hide Covers;
    var x := Headed(f)[j].addr;
    forall i | 2 <= i < |m| && !Covers(f, 4 * i) && !Within(b, 4 * i) ensures m'[i] == m[i] {
      WordOfHeader(i, x);
      WordOfHeader(i, b.addr);
    }
  }

  lemma WordOfHeader(i: nat, a: nat)
    requires a % 8 == 0
    ensures i == NextAt(a) <==> 4 * i == a
    ensures i == SizeAt(a) <==> 4 * i == a + 4
  {
    Quarter(a);
  }

  lemma Quarter(a: nat)
    requires a % 8 == 0
    ensures a == 4 * (a / 4)
  {
    assert a == 8 * (a / 8);
  }

  /** The headers the list knows of, at position `j` and behind it. */
  lemma HeadersOf(m: seq<Word>, f: seq<Block>, j: nat, start: nat, end: nat)
    requires Chain(m, 0, Headed(f), end) && Canonical(f, start, end) && start > 0 && j <= |f|
    ensures var g := Headed(f);
            && HasHeader(m, g[j].addr) && m[SizeAt(g[j].addr)] == g[j].size
            && m[NextAt(g[j].addr)] == PointerTo(g, j + 1, end)
            && (j < |f| ==>
                  && HasHeader(m, f[j].addr) && f[j].addr != g[j].addr && m[SizeAt(f[j].addr)] == f[j].size
                  && m[NextAt(f[j].addr)] == PointerTo(g, j + 2, end)
                  && f[j].End() <= end && f[j].addr < end)
  {
    var g := Headed(f);
    ChainAt(m, 0, g, end, j);
    HeadedAscends(f, start, end);
    if j < |f| {
      ChainAt(m, 0, g, end, j + 1);
      AscendingSplit(g, j);
      CanonicalAt(f, j, start, end);
    }
  }

  // ---------------------------------------------------------------- writes that miss the list

  /** The list's start and all free memory are as they were. */
  predicate Agrees(m: seq<Word>, m': seq<Word>, f: seq<Block>) {
    && |m'| == |m| >= 2 && m'[0] == m[0] && m'[1] == m[1]
    && (forall i :: 2 <= i < |m| && Covers(f, 4 * i) ==> m'[i] == m[i])
  }

  predicate HeadersAgree(m: seq<Word>, m': seq<Word>, f: seq<Block>) {
    f == [] ||
    (HasHeader(m, f[0].addr) && HasHeader(m', f[0].addr)
     && m'[NextAt(f[0].addr)] == m[NextAt(f[0].addr)] && m'[SizeAt(f[0].addr)] == m[SizeAt(f[0].addr)]
     && HeadersAgree(m, m', f[1..]))
  }

  lemma {:induction false} FreeHeadersAgree(m: seq<Word>, m': seq<Word>, p: nat, f: seq<Block>, q: nat, start: nat,
                                            end: nat)
    requires Chain(m, p, f, q) && Canonical(f, start, end) && Aligned(f) && start >= 8 && |m'| == |m|
    requires forall i :: 2 <= i < |m| && Covers(f, 4 * i) ==> m'[i] == m[i]
    ensures HeadersAgree(m, m', f)
    decreases |f|
  {
    if f != [] {
      WordOfHeader(NextAt(p), p);
      WordOfHeader(SizeAt(p), p);
      HeaderIsFree(f, 0, start, end);
      FreeHeadersAgree(m, m', m[NextAt(p)], f[1..], q, f[0].End() + 1, end);
    }
  }

  lemma {:induction false} ChainAgrees(m: seq<Word>, m': seq<Word>, p: nat, f: seq<Block>, q: nat)
    requires Chain(m, p, f, q) && HeadersAgree(m, m', f)
    ensures Chain(m', p, f, q)
    decreases |f|
  {
    if f != [] {
      ChainAgrees(m, m', m[NextAt(p)], f[1..], q);
    }
  }

  /** The list in memory depends on its start and on free memory only. */
  lemma ListAgrees(m: seq<Word>, m': seq<Word>, f: seq<Block>, start: nat, end: nat)
    requires Chain(m, 0, Headed(f), end) && Canonical(f, start, end) && Aligned(f) && start >= 8
    requires Agrees(m, m', f)
    ensures Chain(m', 0, Headed(f), end)
  {
    assert Headed(f)[1..] == f;
    FreeHeadersAgree(m, m', m[NextAt(0)], f, end, start, end);
    ChainAgrees(m, m', 0, Headed(f), end);
  }

  /** Only free memory, and the list's start, are written. */
  predicate Outside(m: seq<Word>, m': seq<Word>, f: seq<Block>) {
    |m'| == |m| && (forall i :: 2 <= i < |m| && !Covers(f, 4 * i) ==> m'[i] == m[i])
  }

  // ---------------------------------------------------------------- bytes

  function ByteAt(m: seq<Word>, a: nat): nat
    requires a / 4 < |m|
  {
    ByteOf(m[a / 4], a % 4)
  }

  // ---------------------------------------------------------------- what an allocation writes

  lemma OutsideOne(m: seq<Word>, i: nat, w: Word, f: seq<Block>)
    requires i < |m| && (i < 2 || Covers(f, 4 * i))
    ensures Outside(m, m[i := w], f)
  {
  }

  lemma OutsideBoth(m: seq<Word>, m1: seq<Word>, m2: seq<Word>, f: seq<Block>)
    requires Outside(m, m1, f) && Outside(m1, m2, f)
    ensures Outside(m, m2, f)
  {
    hide Covers;
  }

  /** Writes to a smaller list, and to a block that was part of the list. */
  lemma OutsideLarger(m: seq<Word>, m': seq<Word>, g: seq<Block>, b: Block, f: seq<Block>)
    requires OnlyFree(m, m', g, b)
    requires forall a :: Covers(g, a) || Within(b, a) ==> Covers(f, a)
    ensures Outside(m, m', f)
  {
    hide Covers;
  }

  /** The addresses of the block taken, and of what remains of it, were free. */
  lemma TakenWasFree(f: seq<Block>, k: nat, wanted: nat, start: nat, end: nat, a: nat)
    requires Canonical(f, start, end) && k < |f| && wanted <= f[k].size
    ensures Covers(Dropped(f, k), a) || Within(Remainder(f[k], wanted), a) ==> Covers(f, a)
    ensures Covers(TakeAt(f, k, wanted), a) ==> Covers(f, a)
    ensures Within(f[k], a) ==> Covers(f, a) && !Covers(Dropped(f, k), a)
  {
    DroppedCovers(f, k, start, end, a);
    TakeCovers(f, k, wanted, start, end, a);
  }

  /** A word that the list does not cover may be written. */
  lemma AgreesOne(m: seq<Word>, i: nat, w: Word, f: seq<Block>)
    requires 2 <= i < |m| && !Covers(f, 4 * i)
    ensures Agrees(m, m[i := w], f)
  {
  }
}
