// What the heap guarantees of one call and of whole runs of calls.
module HeapTheorems {
  import opened SizeClass
  import opened Layout
  import opened HeapModel

  ghost function Rounded(n: nat): (r: nat)
    requires n <= MAX_SEARCH
    ensures r >= Adjust(n)
  {
    CellLower(SearchCell(Adjust(n)))
  }

  ghost predicate Fits(h: Heap, n: nat)
    requires n <= MAX_SEARCH
  {
    exists x :: x in h.blocks && x.free && x.size >= Rounded(n)
  }

  lemma FitsClass(h: Heap, n: nat, x: Block)
    requires Valid(h) && n <= MAX_SEARCH && x in h.blocks && x.free
    ensures x.size >= Rounded(n) <==> ClassOf(x.size) >= SearchCell(Adjust(n))
    ensures ClassOf(x.size) < CELLS && x in h.lists[ClassOf(x.size)]
  {
    hide CellLower, Cell, SearchCell, Adjust;
    var c := SearchCell(Adjust(n));
    if ClassOf(x.size) >= c {
      CellLowerMonotone(c, ClassOf(x.size));
    } else {
      CellLowerMonotone(ClassOf(x.size) + 1, c);
    }
  }

  // NULL is returned exactly when no free block is as large as the rounded request
  lemma MallocFailsIff(h: Heap, n: nat)
    requires Valid(h) && n <= MAX_SEARCH
    ensures Malloc(h, n).1 == 0 <==> !Fits(h, n)
    ensures Malloc(h, n).1 == 0 ==> Malloc(h, n).0 == h
  {
    hide CellLower, Cell, SearchCell, Adjust, ClassOf, LiveBytes, AllocAt;
    var c0 := SearchCell(Adjust(n));
    var c := FirstNonEmpty(h.lists, c0);
    if c == CELLS {
      forall x | x in h.blocks && x.free ensures x.size < Rounded(n) {
        FitsClass(h, n, x);
      }
    } else {
      AllocBounds(h, n, c);
    }
  }

  // Otherwise the head of the least suitable non-empty class is carved
  lemma MallocGoodFit(h: Heap, n: nat)
    requires Valid(h) && n <= MAX_SEARCH && Fits(h, n)
    ensures var (g, p) := Malloc(h, n);
            exists b :: b in h.blocks && b.free && b.size >= Rounded(n) && p == b.addr + 8
              && h.lists[ClassOf(b.size)] != [] && h.lists[ClassOf(b.size)][0] == b
              && (forall x :: x in h.blocks && x.free && x.size >= Rounded(n) ==> ClassOf(b.size) <= ClassOf(x.size))
  {
    hide CellLower, Cell, SearchCell, Adjust, ClassOf, LiveBytes, AllocAt;
    MallocFailsIff(h, n);
    var c := FirstNonEmpty(h.lists, SearchCell(Adjust(n)));
    AllocBounds(h, n, c);
    var b := h.lists[c][0];
    assert b in h.lists[c];
    forall x | x in h.blocks && x.free && x.size >= Rounded(n) ensures c <= ClassOf(x.size) {
      FitsClass(h, n, x);
    }
  }

  lemma CarveMembers(bs: seq<Block>, i: nat, r: nat, x: Block)
    requires Tiled(bs) && i < |bs| - 1 && bs[i].free && r % 8 == 0 && 8 <= r <= bs[i].size
    ensures Live(Splice(bs, i, i + 1, Segment(bs[i], r)), x) <==> Live(bs, x) || x == Segment(bs[i], r)[0]
  {
    var seg := Segment(bs[i], r);
    assert bs[i..i + 1] == [bs[i]];
    SpliceMembers(bs, i, i + 1, seg, x);
    assert |seg| == 2 ==> seg == [seg[0], seg[1]];
    assert |seg| == 1 ==> seg == [seg[0]];
  }

  // The block handed out
  ghost function Got(h: Heap, n: nat): Block
    requires Valid(h) && n <= MAX_SEARCH && Malloc(h, n).1 != 0
  {
    var c := FirstNonEmpty(h.lists, SearchCell(Adjust(n)));
    AllocBounds(h, n, c);
    Segment(h.lists[c][0], Rounded(n))[0]
  }

  // A successful allocation adds exactly one live block and its bytes
  lemma MallocLive(h: Heap, n: nat)
    requires Valid(h) && n <= MAX_SEARCH && Malloc(h, n).1 != 0
    ensures var (g, p) := Malloc(h, n); var b := Got(h, n);
            && b.addr + 8 == p && b.size > 0 && !Live(h.blocks, b)
            && (forall x :: Live(g.blocks, x) <==> Live(h.blocks, x) || x == b)
            && g.used == h.used + b.size + 8
            && g.max == (if g.used > h.max then g.used else h.max)
  {
    hide CellLower, Cell, SearchCell, Adjust, ClassOf, LiveBytes, Splice, Segment, Index, Push;
    var c := FirstNonEmpty(h.lists, SearchCell(Adjust(n)));
    AllocBounds(h, n, c);
    var b := h.lists[c][0];
    var i := Index(h.blocks, b);
    SizeZero(h.blocks, i);
    forall x ensures Live(Malloc(h, n).0.blocks, x) <==> Live(h.blocks, x) || x == Got(h, n) {
      CarveMembers(h.blocks, i, Rounded(n), x);
    }
    if Got(h, n) in h.blocks {
      SameAddr(h.blocks, Got(h, n), b);
    }
    assert Adjacent(h.blocks, i);
    SegmentSize(b, Rounded(n));
  }

  lemma SegmentSize(b: Block, r: nat)
    requires r % 8 == 0 && 8 <= r <= b.size && b.size % 8 == 0
    ensures Segment(b, r)[0].size > 0
    ensures r <= Segment(b, r)[0].size <= r + 8
  {}

  // Internal fragmentation
  lemma Fragmentation(h: Heap, n: nat)
    requires Valid(h) && n <= MAX_SEARCH && Malloc(h, n).1 != 0
    ensures var r := Adjust(n); var s := Got(h, n).size;
            && r <= s
            && (r < SMALL_BLOCK ==> s <= r + 8)
            && (r >= SMALL_BLOCK ==> 16 * (s - r - 8) < r)
  {
    hide CellLower, Cell, SearchCell, Adjust, ClassOf, LiveBytes, Splice, Segment, Index, Push, AllocAt;
    var c := FirstNonEmpty(h.lists, SearchCell(Adjust(n)));
    AllocBounds(h, n, c);
    var b := h.lists[c][0];
    var i := Index(h.blocks, b);
    SizeZero(h.blocks, i);
    assert Adjacent(h.blocks, i);
    SegmentSize(b, Rounded(n));
    RoundingBound(Adjust(n));
  }

  // Block b is the one an allocation that turned h into g made live, and p points to its payload
  ghost predicate Handed(h: Heap, g: Heap, p: nat, b: Block)
  {
    p == b.addr + 8 && !Live(h.blocks, b) && forall x :: Live(g.blocks, x) <==> Live(h.blocks, x) || x == b
  }

  // A block of size bytes for n asked: none missing; at most 15 more below 128, and from there on
  // less than a sixteenth of the rounded request beyond them
  predicate Serves(size: nat, n: nat)
  {
    && n <= size
    && (n == 0 ==> size <= 16)
    && (0 < n < SMALL_BLOCK ==> size <= n + 15)
    && (n >= SMALL_BLOCK ==> 16 * (size - (n + 15)) < n + 7)
  }

  // Whoever asks for n bytes and is not refused gets that
  lemma MallocServes(h: Heap, n: nat)
    requires Valid(h) && n <= MAX_SEARCH && Malloc(h, n).1 != 0
    ensures exists b :: Handed(h, Malloc(h, n).0, Malloc(h, n).1, b) && Serves(b.size, n)
  {
    hide Adjust, Got, Live, Valid, Malloc, Serves;
    MallocLive(h, n);
    Fragmentation(h, n);
    GotAligned(h, n);
    ServesWithin(Adjust(n), Got(h, n).size, n);
    assert Handed(h, Malloc(h, n).0, Malloc(h, n).1, Got(h, n));
  }

  lemma ServesWithin(r: nat, size: nat, n: nat)
    requires r % 8 == 0 && r >= 8 && n <= r && (r > 8 ==> r < n + 8) && size % 8 == 0 && r <= size
    requires if r < SMALL_BLOCK then size <= r + 8 else 16 * (size - r - 8) < r
    ensures Serves(size, n)
  {}

  lemma GotAligned(h: Heap, n: nat)
    requires Valid(h) && n <= MAX_SEARCH && Malloc(h, n).1 != 0
    ensures Got(h, n).size % 8 == 0
  {
    hide Valid, Adjust, Got, LiveBytes;
    MallocLive(h, n);
    MallocValid(h, n);
    LiveDisjoint(Malloc(h, n).0, Got(h, n), Got(h, n));
  }

  // A request is refused only when every free block is short of it or exceeds it by little: one that
  // is larger by a sixteenth, rounding aside, is enough
  lemma MallocSucceeds(h: Heap, n: nat, x: Block)
    requires Valid(h) && n <= MAX_SEARCH && x in h.blocks && x.free && 16 * x.size >= 17 * (n + 8)
    ensures Malloc(h, n).1 != 0
  {
    hide Valid, Malloc, Adjust, CellLower, SearchCell;
    RoundingBound(Adjust(n));
    MallocFailsIff(h, n);
  }

  // Freeing a block removes exactly that live block
  lemma FreeLive(h: Heap, i: nat)
    requires Valid(h) && |h.lists| == CELLS && i < |h.blocks| - 1 && Live(h.blocks, h.blocks[i])
    ensures var g := FreeAt(h, i);
            && g.used == h.used - (h.blocks[i].size + 8) && g.max == h.max && g.pool == h.pool
            && forall x :: Live(g.blocks, x) <==> Live(h.blocks, x) && x != h.blocks[i]
  {
    hide Valid, Splice, Push, Detached, Near, MergeLo, MergeHi;
    var bs, m := h.blocks, Merged(h.blocks, i);
    ValidParts(h);
    NearBlocks(bs, i);
    forall x ensures Live(FreeAt(h, i).blocks, x) <==> Live(bs, x) && x != bs[i] {
      SpliceMembers(bs, MergeLo(bs, i), MergeHi(bs, i), [m], x);
    }
  }

  lemma LiveAtUnique(h: Heap, i: nat)
    requires Valid(h) && i < |h.blocks| - 1 && Live(h.blocks, h.blocks[i])
    ensures IsLive(h, h.blocks[i].addr + 8) && LiveAt(h, h.blocks[i].addr + 8) == i
  {
    hide ClassOf, LiveBytes, Listed, AllListed, RoundDown8;
    var j := LiveAt(h, h.blocks[i].addr + 8);
    if i < j { Apart(h.blocks, i, j); }
    if j < i { Apart(h.blocks, j, i); }
  }

  // Freeing block i of a layout just carved out of block i joins it back
  lemma CarveBack(bs: seq<Block>, i: nat, r: nat)
    requires Tiled(bs) && Coalesced(bs) && i < |bs| - 1 && bs[i].free && r % 8 == 0 && 8 <= r <= bs[i].size
    ensures var seg := Segment(bs[i], r); var t := Splice(bs, i, i + 1, seg);
            && i < |t| - 1 && t[i] == seg[0]
            && (|seg| == 2 ==> t[i + 1] == seg[1]) && (|seg| == 1 ==> !t[i + 1].free)
            && MergeLo(t, i) == i && MergeHi(t, i) == i + |seg| && Merged(t, i) == bs[i]
            && Splice(t, i, i + |seg|, [bs[i]]) == bs
  {
    var seg := Segment(bs[i], r);
    var t := Splice(bs, i, i + 1, seg);
    assert !BothFree(bs, i);
    if i > 0 { assert !BothFree(bs, i - 1); }
    assert t[i] == seg[0];
    assert |seg| == 2 ==> t[i + 1] == seg[1];
    assert |seg| == 1 ==> t[i + 1] == bs[i + 1];
    assert t[..i] == bs[..i] && t[i + |seg|..] == bs[i + 1..];
  }

  lemma ListsBack(lists: seq<seq<Block>>, c: nat, b: Block, rest: Block, split: bool)
    requires |lists| == CELLS && c < CELLS && lists[c] != [] && lists[c][0] == b && ClassOf(b.size) == c
    ensures var l := lists[c := lists[c][1..]];
            var u := if split then Unlink(Push(l, rest), rest) else l;
            Push(u, b) == lists
  {
    hide ClassOf;
    var l := lists[c := lists[c][1..]];
    if split && ClassOf(rest.size) < CELLS {
      var d := ClassOf(rest.size);
      var p := [rest] + l[d];
      assert Index(p, rest) == 0;
      assert p[..0] + p[1..] == l[d];
      assert Unlink(Push(l, rest), rest) == l;
    }
    assert [b] + lists[c][1..] == lists[c];
  }

  lemma AllocBack(h: Heap, c: nat, r: nat)
    requires Carvable(h, c, r) && Valid(h)
    ensures var g := AllocAt(h, c, r);
            var i := Index(h.blocks, h.lists[c][0]);
            && |g.lists| == CELLS && i < |g.blocks| - 1 && Live(g.blocks, g.blocks[i])
            && g.blocks[i].addr == h.lists[c][0].addr && FreeAt(g, i) == h.(max := g.max)
  {
    hide Valid, ClassOf, LiveBytes, Splice, Segment, Push, Unlink, Listed, AllListed, Tiled, Chained, Coalesced, Merged;
    var b := h.lists[c][0];
    var i := Index(h.blocks, b);
    ValidParts(h);
    HeadClass(h, c);
    SizeZero(h.blocks, i);
    BlockShape(h.blocks, i);
    SegmentSize(b, r);
    CarveBack(h.blocks, i, r);
    var seg := Segment(b, r);
    ListsBack(h.lists, c, b, if |seg| == 2 then seg[1] else b, |seg| == 2);
    if |seg| == 2 { SegmentPair(b, r); }
  }

  lemma SegmentPair(b: Block, r: nat)
    requires r % 8 == 0 && 8 <= r <= b.size && |Segment(b, r)| == 2
    ensures Segment(b, r)[1].free
  {}


  lemma HeadClass(h: Heap, c: nat)
    requires Valid(h) && |h.lists| == CELLS && c < CELLS && h.lists[c] != []
    ensures ClassOf(h.lists[c][0].size) == c
  {
    hide ClassOf;
    assert h.lists[c][0] in h.lists[c];
  }

  lemma BlockShape(bs: seq<Block>, i: nat)
    requires Tiled(bs) && i < |bs| - 1
    ensures bs[i].size % 8 == 0
  {
    assert Adjacent(bs, i);
  }

  lemma AllocRoundTrip(h: Heap, c: nat, r: nat)
    requires Carvable(h, c, r) && Valid(h)
    ensures var g := AllocAt(h, c, r); var p := h.lists[c][0].addr + 8;
            Valid(g) && IsLive(g, p) && Free(g, p) == h.(max := g.max)
  {
    hide Valid, FreeAt, AllocAt, Live, IsLive, LiveAt;
    AllocValid(h, c, r);
    AllocBack(h, c, r);
    LiveAtUnique(AllocAt(h, c, r), Index(h.blocks, h.lists[c][0]));
  }

  lemma MallocIs(h: Heap, n: nat) returns (c: nat)
    requires Valid(h) && n <= MAX_SEARCH && Malloc(h, n).1 != 0
    ensures Carvable(h, c, Rounded(n))
    ensures Malloc(h, n) == (AllocAt(h, c, Rounded(n)), h.lists[c][0].addr + 8)
  {
    hide AllocAt, Carvable, CellLower, SearchCell, Adjust;
    ValidParts(h);
    hide Valid;
    c := FirstNonEmpty(h.lists, SearchCell(Adjust(n)));
    AllocBounds(h, n, c);
  }

  // Allocating and freeing at once restores blocks, every list in order, and used
  lemma RoundTrip(h: Heap, n: nat)
    requires Valid(h) && n <= MAX_SEARCH && Malloc(h, n).1 != 0
    ensures Valid(Malloc(h, n).0) && IsLive(Malloc(h, n).0, Malloc(h, n).1)
    ensures Free(Malloc(h, n).0, Malloc(h, n).1) == h.(max := Malloc(h, n).0.max)
  {
    hide Malloc, Rounded, Valid, Adjust, AllocAt, IsLive, Free;
    var c := MallocIs(h, n);
    AllocRoundTrip(h, c, Rounded(n));
  }

  // ---- runs ------------------------------------------------------------------------------

  const MAX_REQUEST := 16384

  // uLipeMemAlloc clamps a request to what the system supports; uLipeMemFree ignores NULL
  datatype Op = Alloc(n: nat) | Release(p: nat)

  function Clamp(n: nat): nat
  {
    if n > MAX_REQUEST then MAX_REQUEST else n
  }

  ghost predicate Enabled(h: Heap, op: Op)
    requires Valid(h)
  {
    op.Alloc? || op.p == 0 || IsLive(h, op.p)
  }

  ghost function Step(h: Heap, op: Op): (g: Heap)
    requires Valid(h) && Enabled(h, op)
    ensures Valid(g) && g.pool == h.pool
  {
    match op
    case Alloc(n) => StepAlloc(h, Clamp(n))
    case Release(p) => if p == 0 then h else StepFree(h, p)
  }

  ghost function StepAlloc(h: Heap, n: nat): (g: Heap)
    requires Valid(h) && n <= MAX_REQUEST
    ensures Valid(g) && g.pool == h.pool
  {
    MallocValid(h, n);
    Malloc(h, n).0
  }

  ghost function StepFree(h: Heap, p: nat): (g: Heap)
    requires Valid(h) && IsLive(h, p)
    ensures Valid(g) && g.pool == h.pool
  {
    FreeValid(h, LiveAt(h, p));
    Free(h, p)
  }

  // uLipeMemAlloc hands out at least the bytes asked for, up to 16384; more is never asked of the pool
  lemma AllocServes(h: Heap, n: nat)
    requires Valid(h) && Malloc(h, Clamp(n)).1 != 0
    ensures Enabled(h, Alloc(n))
    ensures var m := if n <= 16384 then n else 16384;
            exists b :: Handed(h, Step(h, Alloc(n)), Malloc(h, Clamp(n)).1, b) && Serves(b.size, m)
  {
    hide Valid, Malloc, Handed, Serves;
    MallocServes(h, Clamp(n));
  }

  // A run: every release is of a block live at that point
  ghost predicate Legal(h: Heap, ops: seq<Op>)
    requires Valid(h)
    decreases |ops|
  {
    hide Valid, Step, Enabled;
    ops == [] || (Enabled(h, ops[0]) && Legal(Step(h, ops[0]), ops[1..]))
  }

  ghost function Exec(h: Heap, ops: seq<Op>): (g: Heap)
    requires Valid(h) && Legal(h, ops)
    ensures Valid(g) && g.pool == h.pool
    decreases |ops|
  {
    hide Valid, Step, Enabled;
    if ops == [] then h else Exec(Step(h, ops[0]), ops[1..])
  }

  // Largest value of used over the states of a run
  ghost function PeakUsed(h: Heap, ops: seq<Op>): int
    requires Valid(h) && Legal(h, ops)
    decreases |ops|
  {
    hide Valid, Step, Enabled;
    if ops == [] then h.used
    else var rest := PeakUsed(Step(h, ops[0]), ops[1..]); if h.used > rest then h.used else rest
  }

  lemma StepMax(h: Heap, op: Op)
    requires Valid(h) && Enabled(h, op)
    ensures var g := Step(h, op); g.max == (if g.used > h.max then g.used else h.max)
  {
    hide CellLower, Cell, SearchCell, ClassOf, LiveBytes, Splice, Segment, Index, Push;
    match op {
      case Alloc(n) =>
        if Malloc(h, Clamp(n)).1 == 0 { MallocFailsIff(h, Clamp(n)); } else { MallocLive(h, Clamp(n)); }
      case Release(p) =>
        if p != 0 { FreeLive(h, LiveAt(h, p)); }
    }
  }

  lemma {:induction false} MaxIsPeak(h: Heap, ops: seq<Op>)
    requires Valid(h) && Legal(h, ops)
    ensures var g := Exec(h, ops); var k := PeakUsed(h, ops); g.max == (if k > h.max then k else h.max)
    decreases |ops|
  {
    hide Valid, Step, Enabled;
    UsedLeMax(h);
    if ops != [] {
      StepMax(h, ops[0]);
      MaxIsPeak(Step(h, ops[0]), ops[1..]);
    }
  }

  // ---- full coalescing -------------------------------------------------------------------

  lemma InitValid(pool: nat)
    requires MIN_POOL <= pool <= MAX_POOL
    ensures Valid(Init(pool))
    ensures forall x :: !Live(Init(pool).blocks, x)
  {
    hide Cell, CellLower;
    var h := Init(pool);
    var b := Block(FIRST, InitSize(pool), true);
    assert Adjacent(h.blocks, 0);
    assert !BothFree(h.blocks, 0);
    var empty: seq<seq<Block>> := seq(CELLS, _ => []);
    PushListed(h.blocks, empty, b, {b});
    assert {b} - {b} == {};
    assert h.blocks[1..] == [Sentinel(pool)] && [Sentinel(pool)][1..] == [];
    assert LiveBytes(h.blocks[1..]) == 0;
  }

  // The first block takes all of the pool but the control block, the area's four headers and what
  // alignment costs
  lemma InitSpace(pool: nat)
    requires MIN_POOL <= pool <= MAX_POOL
    ensures var bs := Init(pool).blocks;
            && |bs| == 2 && bs[0].free && bs[0].addr == 648 && bs[0].size % 8 == 0
            && 672 <= pool - bs[0].size + 8 < 680
            && bs[1] == Block(bs[0].End(), 0, false) && bs[1].End() <= pool < bs[1].End() + 8
    ensures Init(pool).used == Init(pool).max == pool - Init(pool).blocks[0].size
  {
    hide Push;
  }

  lemma FirstTwo(s: seq<Block>)
    requires Distinct(s) && |s| > 1
    ensures s[0] in s && s[1] in s && s[0] != s[1]
  {}

  // A list of distinct blocks all equal to b
  lemma AtMostOne(s: seq<Block>, b: Block)
    requires Distinct(s) && forall x :: x in s ==> x == b
    ensures s == if b in s then [b] else []
  {
    if s != [] {
      assert s[0] in s;
      if |s| > 1 { FirstTwo(s); }
    }
  }

  lemma InitLists(pool: nat, lists: seq<seq<Block>>)
    requires MIN_POOL <= pool <= MAX_POOL
    requires Listed(Init(pool).blocks, lists) && AllListed(Init(pool).blocks, lists, {})
    ensures lists == Init(pool).lists
  {
    hide Cell, CellLower;
    var h := Init(pool);
    var b := Block(FIRST, InitSize(pool), true);
    assert b in h.blocks;
    forall c | 0 <= c < CELLS ensures lists[c] == h.lists[c] {
      AtMostOne(lists[c], b);
    }
  }

  // With nothing live the heap is the initial one
  lemma AllFree(h: Heap)
    requires Valid(h) && forall x :: !Live(h.blocks, x)
    ensures h == Init(h.pool).(max := h.max)
  {
    hide ClassOf, RoundDown8, Push, LiveBytes, Listed, AllListed;
    var g := Init(h.pool);
    InitValid(h.pool);
    LayoutUnique(h.blocks, g.blocks, 0);
    InitLists(h.pool, h.lists);
  }

  lemma StepFreeLive(h: Heap, p: nat)
    requires Valid(h) && IsLive(h, p)
    ensures StepFree(h, p).max == h.max
    ensures forall q :: IsLive(StepFree(h, p), q) <==> IsLive(h, q) && q != p
  {
    hide FreeAt, Valid;
    var i := LiveAt(h, p);
    ValidParts(h);
    FreeLive(h, i);
    var g := StepFree(h, p);
    forall q ensures IsLive(g, q) <==> IsLive(h, q) && q != p {
      if IsLive(h, q) && q != p {
        var x :| Live(h.blocks, x) && x.addr + 8 == q;
        assert Live(g.blocks, x);
      }
      if IsLive(g, q) {
        var x :| Live(g.blocks, x) && x.addr + 8 == q;
        assert Live(h.blocks, x);
        if q == p { LiveSameAddr(h, x, h.blocks[i]); }
      }
    }
  }

  lemma LiveSameAddr(h: Heap, x: Block, y: Block)
    requires Valid(h) && Live(h.blocks, x) && Live(h.blocks, y) && x.addr == y.addr
    ensures x == y
  {
    SameAddr(h.blocks, x, y);
  }

  function Releases(ps: seq<nat>): (ops: seq<Op>)
    ensures |ops| == |ps|
  {
    if ps == [] then [] else [Release(ps[0])] + Releases(ps[1..])
  }

  // Freeing every live block once, in any order, gives back the initial heap
  lemma {:induction false} FreeAllCoalesces(h: Heap, ps: seq<nat>)
    requires Valid(h)
    requires forall p :: p in ps <==> IsLive(h, p)
    requires forall i, j :: 0 <= i < j < |ps| ==> ps[i] != ps[j]
    ensures Legal(h, Releases(ps))
    ensures Exec(h, Releases(ps)) == Init(h.pool).(max := h.max)
    decreases |ps|
  {
    hide Valid, FreeAt, Init, StepFree, Live;
    if ps == [] {
      NoneLive(h);
    } else {
      var p := ps[0];
      assert p in ps;
      LiveNotNull(h, p);
      StepFreeLive(h, p);
      var g := StepFree(h, p);
      forall q ensures q in ps[1..] <==> IsLive(g, q) {
        if q in ps && q != p { var k :| 0 <= k < |ps| && ps[k] == q; assert ps[1..][k - 1] == q; }
      }
      FreeAllCoalesces(g, ps[1..]);
      assert Releases(ps)[0] == Release(p) && Releases(ps)[1..] == Releases(ps[1..]);
    }
  }

  lemma NoneLive(h: Heap)
    requires Valid(h) && forall p :: !IsLive(h, p)
    ensures h == Init(h.pool).(max := h.max)
  {
    forall x ensures !Live(h.blocks, x) {
      assert Live(h.blocks, x) ==> IsLive(h, x.addr + 8);
    }
    AllFree(h);
  }

  lemma LiveNotNull(h: Heap, p: nat)
    requires IsLive(h, p)
    ensures p != 0
  {}

  // ---- disjointness ----------------------------------------------------------------------

  // Live blocks are aligned, inside the pool, and do not overlap
  lemma LiveDisjoint(h: Heap, x: Block, y: Block)
    requires Valid(h) && Live(h.blocks, x)
    ensures x.addr % 8 == 0 && x.size % 8 == 0 && FIRST <= x.addr && x.End() + 8 <= h.pool
    ensures Live(h.blocks, y) && x != y ==> x.End() <= y.addr || y.End() <= x.addr
  {
    hide Cell, CellLower, ClassOf, LiveBytes, Listed, AllListed;
    var bs := h.blocks;
    var i := Index(bs, x);
    SizeZero(bs, i);
    Aligned(bs, i);
    Apart(bs, i, |bs| - 1);
    if y in bs && x != y {
      var j := Index(bs, y);
      if i < j { Apart(bs, i, j); } else { Apart(bs, j, i); }
    }
  }

  // ---- the state a run leaves --------------------------------------------------------------

  // Two heaps over one pool with the same live blocks have the same physical layout and the same
  // accounting, however they came about
  lemma HistoryIndependent(g: Heap, h: Heap)
    requires Valid(g) && Valid(h) && g.pool == h.pool
    requires forall x :: Live(g.blocks, x) <==> Live(h.blocks, x)
    ensures g.blocks == h.blocks && g.used == h.used
  {
    hide ClassOf, RoundDown8, LiveBytes, Listed, AllListed;
    LayoutUnique(g.blocks, h.blocks, 0);
  }

  // After any run used_size is a constant plus the bytes of the live blocks with their headers, and
  // max_size is the largest value used_size has had
  lemma Accounting(pool: nat, ops: seq<Op>)
    requires MIN_POOL <= pool <= MAX_POOL && Valid(Init(pool)) && Legal(Init(pool), ops)
    ensures var h := Exec(Init(pool), ops);
            && h.used == pool - InitSize(pool) + LiveBytes(h.blocks)
            && h.max == PeakUsed(Init(pool), ops)
  {
    hide Legal, Exec, PeakUsed, Init, LiveBytes, InitSize;
    MaxIsPeak(Init(pool), ops);
    UsedIs(Exec(Init(pool), ops));
    FirstPeak(pool, ops);
  }

  lemma UsedIs(h: Heap)
    requires Valid(h)
    ensures h.used == h.pool - InitSize(h.pool) + LiveBytes(h.blocks)
  {
    hide LiveBytes, ClassOf, InitSize;
  }

  lemma FirstPeak(pool: nat, ops: seq<Op>)
    requires MIN_POOL <= pool <= MAX_POOL && Valid(Init(pool)) && Legal(Init(pool), ops)
    ensures Init(pool).max <= PeakUsed(Init(pool), ops) && Init(pool).pool == pool
  {
    hide Valid, Step, Enabled, Push, InitSize;
  }
}
