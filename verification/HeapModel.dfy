// The heap as a value: physical blocks, one free list per size class, and the accounting.
module HeapModel {
  import opened SizeClass
  import opened Layout

  // ---- segregated free lists -------------------------------------------------------------

  function Index(s: seq<Block>, x: Block): (i: nat)
    requires x in s
    ensures i < |s| && s[i] == x && x !in s[..i]
  {
    if s[0] == x then 0 else 1 + Index(s[1..], x)
  }

  ghost predicate Distinct(s: seq<Block>)
  {
    forall i, j :: 0 <= i < j < |s| ==> s[i] != s[j]
  }

  // Index of the class of a size; CELLS for a size no class holds
  ghost function ClassOf(size: nat): (c: nat)
    ensures c <= CELLS
  {
    if size < MAX_BLOCK then Cell(size) else CELLS
  }

  // Every list element is a free block of that class, once
  ghost predicate Listed(bs: seq<Block>, lists: seq<seq<Block>>)
  {
    && |lists| == CELLS
    && (forall c, x :: 0 <= c < CELLS && x in lists[c] ==> x in bs && x.free && ClassOf(x.size) == c)
    && (forall c :: 0 <= c < CELLS ==> Distinct(lists[c]))
  }

  // Every free block, other than the exempt ones, is in the list of its class
  ghost predicate AllListed(bs: seq<Block>, lists: seq<seq<Block>>, exempt: set<Block>)
    requires |lists| == CELLS
  {
    forall x :: x in bs && x.free && x !in exempt ==> ClassOf(x.size) < CELLS && x in lists[ClassOf(x.size)]
  }

  ghost function Push(lists: seq<seq<Block>>, x: Block): (r: seq<seq<Block>>)
    requires |lists| == CELLS
    ensures |r| == CELLS
  {
    var c := ClassOf(x.size);
    if c < CELLS then lists[c := [x] + lists[c]] else lists
  }

  ghost function Remove(s: seq<Block>, x: Block): seq<Block>
  {
    if x in s then var k := Index(s, x); s[..k] + s[k + 1..] else s
  }

  ghost function Unlink(lists: seq<seq<Block>>, x: Block): (r: seq<seq<Block>>)
    requires |lists| == CELLS
    ensures |r| == CELLS
  {
    var c := ClassOf(x.size);
    if c < CELLS then lists[c := Remove(lists[c], x)] else lists
  }

  lemma PushListed(bs: seq<Block>, lists: seq<seq<Block>>, x: Block, exempt: set<Block>)
    requires Listed(bs, lists) && x in bs && x.free && ClassOf(x.size) < CELLS && AllListed(bs, lists, exempt)
    requires x !in lists[ClassOf(x.size)]
    ensures Listed(bs, Push(lists, x))
    ensures AllListed(bs, Push(lists, x), exempt - {x})
  {
    hide ClassOf;
    var c := ClassOf(x.size);
    var r := Push(lists, x);
    assert r[c][0] == x;
    assert forall y :: y in lists[c] ==> y in r[c];
  }

  lemma DropAt(s: seq<Block>, k: nat)
    requires k < |s| && Distinct(s)
    ensures var r := s[..k] + s[k + 1..]; Distinct(r) && forall y :: y in r <==> y in s && y != s[k]
  {
    var r := s[..k] + s[k + 1..];
    forall y | y in s && y != s[k] ensures y in r {
      var i :| 0 <= i < |s| && s[i] == y;
      if i < k { assert r[i] == y; } else { assert r[i - 1] == y; }
    }
  }

  lemma UnlinkListed(bs: seq<Block>, lists: seq<seq<Block>>, x: Block, exempt: set<Block>)
    requires Listed(bs, lists) && x in bs && x.free && x !in exempt
    requires AllListed(bs, lists, exempt)
    ensures Listed(bs, Unlink(lists, x))
    ensures AllListed(bs, Unlink(lists, x), exempt + {x})
    ensures forall c, y :: 0 <= c < CELLS && y in Unlink(lists, x)[c] ==> y in lists[c] && y != x
  {
    hide ClassOf;
    var c := ClassOf(x.size);
    DropAt(lists[c], Index(lists[c], x));
  }

  lemma SpliceKeepsListed(bs: seq<Block>, lists: seq<seq<Block>>, lo: nat, hi: nat, seg: seq<Block>)
    requires Chained(bs) && lo <= hi <= |bs| && Listed(bs, lists)
    requires forall x, c :: x in bs[lo..hi] && 0 <= c < CELLS ==> x !in lists[c]
    ensures Listed(Splice(bs, lo, hi, seg), lists)
  {
    hide ClassOf, Splice;
    var t := Splice(bs, lo, hi, seg);
    forall c, x | 0 <= c < CELLS && x in lists[c] ensures x in t && x.free && ClassOf(x.size) == c {
      SpliceMembers(bs, lo, hi, seg, x);
    }
  }

  // Blocks in no list can be replaced in the layout
  lemma SpliceListed(bs: seq<Block>, lists: seq<seq<Block>>, lo: nat, hi: nat, seg: seq<Block>, exempt: set<Block>)
    requires Chained(bs) && lo <= hi <= |bs|
    requires Listed(bs, lists) && AllListed(bs, lists, exempt)
    requires forall x, c :: x in bs[lo..hi] && 0 <= c < CELLS ==> x !in lists[c]
    ensures Listed(Splice(bs, lo, hi, seg), lists)
    ensures AllListed(Splice(bs, lo, hi, seg), lists, exempt + set x | x in seg)
  {
    hide ClassOf, Splice;
    var t := Splice(bs, lo, hi, seg);
    forall c, x | 0 <= c < CELLS && x in lists[c] ensures x in t && x.free && ClassOf(x.size) == c {
      SpliceMembers(bs, lo, hi, seg, x);
    }
    forall x | x in t && x.free && x !in exempt && x !in seg
      ensures ClassOf(x.size) < CELLS && x in lists[ClassOf(x.size)] {
      SpliceMembers(bs, lo, hi, seg, x);
    }
  }

  ghost function FirstNonEmpty(lists: seq<seq<Block>>, c: nat): (d: nat)
    requires |lists| == CELLS && c <= CELLS
    ensures c <= d <= CELLS
    ensures forall k :: c <= k < d ==> lists[k] == []
    ensures d < CELLS ==> lists[d] != []
    decreases CELLS - c
  {
    if c == CELLS || lists[c] != [] then c else FirstNonEmpty(lists, c + 1)
  }

  // ---- the heap ----------------------------------------------------------------------

  datatype Heap = Heap(pool: nat, blocks: seq<Block>, lists: seq<seq<Block>>, used: int, max: int)

  const MIN_POOL := 696
  const MAX_POOL := 33400

  function RoundDown8(n: nat): nat { n - n % 8 }

  // Size of the single block a pool starts with
  function InitSize(pool: nat): nat
    requires MIN_POOL <= pool
  {
    RoundDown8(pool - 632) - 32
  }

  function Sentinel(pool: nat): Block
    requires MIN_POOL <= pool
  {
    Block(FIRST + 8 + InitSize(pool), 0, false)
  }

  ghost predicate Valid(h: Heap)
  {
    && MIN_POOL <= h.pool <= MAX_POOL
    && Tiled(h.blocks) && Coalesced(h.blocks)
    && h.blocks[|h.blocks| - 1] == Sentinel(h.pool)
    && Listed(h.blocks, h.lists) && AllListed(h.blocks, h.lists, {})
    && h.used == h.pool - InitSize(h.pool) + LiveBytes(h.blocks)
    && h.used <= h.max
  }

  ghost function Init(pool: nat): Heap
    requires MIN_POOL <= pool <= MAX_POOL
  {
    var b := Block(FIRST, InitSize(pool), true);
    var empty := seq(CELLS, _ => []);
    Heap(pool, [b, Sentinel(pool)], Push(empty, b), pool - InitSize(pool), pool - InitSize(pool))
  }

  // ---- allocation ----------------------------------------------------------------------

  // The least multiple of 8, and no less than 8, that holds n bytes
  function Adjust(n: nat): (r: nat)
    ensures r % 8 == 0 && r >= 8 && n <= r && (r > 8 ==> r < n + 8)
    ensures n <= MAX_SEARCH ==> r <= MAX_SEARCH
  {
    if n < 8 then 8 else (n + 7) - (n + 7) % 8
  }

  ghost function Segment(b: Block, r: nat): (seg: seq<Block>)
    requires r % 8 == 0 && 8 <= r <= b.size
    ensures 1 <= |seg| <= 2 && seg[0].addr == b.addr && !seg[0].free
  {
    if b.size - r >= 16 then [Block(b.addr, r, false), Block(b.addr + 8 + r, b.size - r - 8, true)]
    else [b.(free := false)]
  }

  ghost function Malloc(h: Heap, n: nat): (Heap, nat)
    requires Valid(h) && n <= MAX_SEARCH
  {
    var c0 := SearchCell(Adjust(n));
    var c := FirstNonEmpty(h.lists, c0);
    if c == CELLS then (h, 0) else
      AllocBounds(h, n, c);
      (AllocAt(h, c, CellLower(c0)), h.lists[c][0].addr + 8)
  }

  // The head of list c is a free block that can serve a rounded request r
  ghost predicate Carvable(h: Heap, c: nat, r: nat)
  {
    && |h.lists| == CELLS && c < CELLS && h.lists[c] != []
    && h.lists[c][0] in h.blocks && h.lists[c][0].free
    && r % 8 == 0 && 8 <= r <= h.lists[c][0].size < MAX_BLOCK
  }

  ghost function AllocAt(h: Heap, c: nat, r: nat): Heap
    requires Carvable(h, c, r)
  {
    var b := h.lists[c][0];
    var i := Index(h.blocks, b);
    var seg := Segment(b, r);
    var l := h.lists[c := h.lists[c][1..]];
    var used := h.used + seg[0].size + 8;
    Heap(h.pool, Splice(h.blocks, i, i + 1, seg), if |seg| == 2 then Push(l, seg[1]) else l,
         used, if used > h.max then used else h.max)
  }

  lemma AllocBounds(h: Heap, n: nat, c: nat)
    requires Valid(h) && n <= MAX_SEARCH
    requires c == FirstNonEmpty(h.lists, SearchCell(Adjust(n))) && c < CELLS
    ensures Carvable(h, c, CellLower(SearchCell(Adjust(n)))) && Adjust(n) <= CellLower(SearchCell(Adjust(n)))
  {
    hide Adjust, Cell, SearchCell, FirstNonEmpty, CellLower;
    var b := h.lists[c][0];
    assert b in h.lists[c];
    CellLowerMonotone(SearchCell(Adjust(n)), c);
    CellLowerAligned(SearchCell(Adjust(n)));
  }

  lemma SegmentFacts(bs: seq<Block>, i: nat, r: nat)
    requires Tiled(bs) && i < |bs| - 1 && bs[i].free && r % 8 == 0 && 8 <= r <= bs[i].size
    ensures Covers(bs, i, i + 1, Segment(bs[i], r))
    ensures Coalesced(Segment(bs[i], r))
    ensures LiveBytes(Segment(bs[i], r)) == Segment(bs[i], r)[0].size + 8
  {
    assert Adjacent(bs, i);
    var seg := Segment(bs[i], r);
    assert |seg| == 2 ==> seg[1..] == [seg[1]] && seg[1..][1..] == [] && Adjacent(seg, 0) && !BothFree(seg, 0);
    assert |seg| == 1 ==> seg[1..] == [];
    assert |seg| == 2 ==> LiveBytes(seg[1..]) == LiveBytes(seg[1..][1..]) == 0;
  }

  lemma HeadDropped(s: seq<Block>)
    requires s != [] && Distinct(s)
    ensures Distinct(s[1..]) && forall y :: y in s[1..] <==> y in s && y != s[0]
  {
    DropAt(s, 0);
    assert s[..0] + s[1..] == s[1..];
  }

  lemma TakeHeadListed(bs: seq<Block>, lists: seq<seq<Block>>, c: nat)
    requires Listed(bs, lists) && AllListed(bs, lists, {}) && c < CELLS && lists[c] != []
    ensures var l := lists[c := lists[c][1..]]; Listed(bs, l) && AllListed(bs, l, {lists[c][0]})
    ensures var l := lists[c := lists[c][1..]]; forall d :: 0 <= d < CELLS ==> lists[c][0] !in l[d]
  {
    hide ClassOf;
    HeadDropped(lists[c]);
    assert lists[c][0] in lists[c];
  }

  lemma AllocListed(h: Heap, c: nat, r: nat)
    requires Carvable(h, c, r) && Valid(h)
    ensures var g := AllocAt(h, c, r); Listed(g.blocks, g.lists) && AllListed(g.blocks, g.lists, {})
  {
    hide Valid, ClassOf, Splice, Segment, Index, Push, Listed, AllListed, Tiled, Chained, Coalesced;
    var b := h.lists[c][0];
    var i := Index(h.blocks, b);
    var seg := Segment(b, r);
    var l := h.lists[c := h.lists[c][1..]];
    var t := Splice(h.blocks, i, i + 1, seg);
    ValidParts(h);
    TakeHeadListed(h.blocks, h.lists, c);
    SizeZero(h.blocks, i);
    OneBlock(h.blocks, i);
    SpliceListed(h.blocks, l, i, i + 1, seg, {b});
    SpliceMembers(h.blocks, i, i + 1, seg, b);
    SegmentShape(b, r);
    if |seg| == 2 {
      assert seg == [seg[0], seg[1]];
      SpliceMembers(h.blocks, i, i + 1, seg, seg[1]);
      FreshPiece(h.blocks, i, b, r);
      FreshUnlisted(h.blocks, l, seg[1]);
      DropExempt(t, l, {b} + (set x | x in seg), {seg[1]});
      PushListed(t, l, seg[1], {seg[1]});
      assert {seg[1]} - {seg[1]} == {};
    } else {
      assert seg == [seg[0]];
      DropExempt(t, l, {b} + (set x | x in seg), {});
    }
  }

  lemma OneBlock(bs: seq<Block>, i: nat)
    requires i < |bs|
    ensures bs[i..i + 1] == [bs[i]]
  {}

  // Exemptions for blocks that are not free blocks of the layout can be dropped
  lemma DropExempt(bs: seq<Block>, lists: seq<seq<Block>>, a: set<Block>, b: set<Block>)
    requires |lists| == CELLS && AllListed(bs, lists, a)
    requires forall x :: x in a && x !in b ==> x !in bs || !x.free
    ensures AllListed(bs, lists, b)
  {
    hide ClassOf;
  }

  lemma FreshUnlisted(bs: seq<Block>, lists: seq<seq<Block>>, x: Block)
    requires Listed(bs, lists) && x !in bs
    ensures forall c :: 0 <= c < CELLS ==> x !in lists[c]
  {
    hide ClassOf;
  }

  lemma SegmentShape(b: Block, r: nat)
    requires r % 8 == 0 && 8 <= r <= b.size < MAX_BLOCK && b.free
    ensures b !in Segment(b, r)
    ensures !Segment(b, r)[0].free
    ensures |Segment(b, r)| == 2 ==> Segment(b, r)[1].free && ClassOf(Segment(b, r)[1].size) < CELLS
  {}

  // The remainder of a split is a block that was not there before
  lemma FreshPiece(bs: seq<Block>, i: nat, b: Block, r: nat)
    requires Tiled(bs) && i < |bs| - 1 && b == bs[i] && r % 8 == 0 && 8 <= r <= b.size && |Segment(b, r)| == 2
    ensures Segment(b, r)[1] !in bs
  {
    var p := Segment(b, r)[1];
    if p in bs {
      var j :| 0 <= j < |bs| && bs[j] == p;
      if j < i { Apart(bs, j, i); }
      if i < j { Apart(bs, i, j); }
    }
  }

  lemma MallocValid(h: Heap, n: nat)
    requires Valid(h) && n <= MAX_SEARCH
    ensures Valid(Malloc(h, n).0)
  {
    var c0 := SearchCell(Adjust(n));
    var c := FirstNonEmpty(h.lists, c0);
    var r := CellLower(c0);
    if c < CELLS {
      AllocBounds(h, n, c);
      AllocValid(h, c, r);
    }
  }

  lemma CarveLayout(bs: seq<Block>, i: nat, r: nat)
    requires Tiled(bs) && Coalesced(bs) && i < |bs| - 1 && bs[i].free && r % 8 == 0 && 8 <= r <= bs[i].size
    ensures var t := Splice(bs, i, i + 1, Segment(bs[i], r));
            && Tiled(t) && Coalesced(t) && t[|t| - 1] == bs[|bs| - 1]
            && LiveBytes(t) == LiveBytes(bs) + Segment(bs[i], r)[0].size + 8
  {
    hide Splice, Segment, LiveBytes;
    var seg := Segment(bs[i], r);
    SegmentFacts(bs, i, r);
    SpliceTiled(bs, i, i + 1, seg);
    assert !BothFree(bs, i);
    SpliceCoalesced(bs, i, i + 1, seg);
    SpliceLiveBytes(bs, i, i + 1, seg);
    assert bs[i..i + 1] == [bs[i]];
    OneFree(bs[i]);
  }

  lemma ValidParts(h: Heap)
    requires Valid(h)
    ensures Tiled(h.blocks) && Coalesced(h.blocks) && Chained(h.blocks) && |h.blocks| >= 2
    ensures |h.lists| == CELLS && Listed(h.blocks, h.lists) && AllListed(h.blocks, h.lists, {})
    ensures h.blocks[|h.blocks| - 1].addr <= FIRST + MAX_BLOCK - 8
  {}

  lemma ListedLength(bs: seq<Block>, lists: seq<seq<Block>>)
    requires Listed(bs, lists)
    ensures |lists| == CELLS
  {}

  lemma SpliceHas(bs: seq<Block>, lo: nat, hi: nat, x: Block)
    requires lo <= hi <= |bs|
    ensures x in Splice(bs, lo, hi, [x])
  {
    assert Splice(bs, lo, hi, [x])[lo] == x;
  }

  // A change of layout that keeps the sentinel and accounts for the live bytes
  lemma Rebuilt(h: Heap, g: Heap)
    requires Valid(h) && |g.lists| == CELLS
    requires Tiled(g.blocks) && Coalesced(g.blocks) && g.blocks[|g.blocks| - 1] == h.blocks[|h.blocks| - 1]
    requires Listed(g.blocks, g.lists) && AllListed(g.blocks, g.lists, {})
    requires g.pool == h.pool && g.used - h.used == LiveBytes(g.blocks) - LiveBytes(h.blocks)
    requires g.used <= g.max
    ensures Valid(g)
  {
    hide Tiled, Coalesced, Listed, AllListed, LiveBytes, RoundDown8;
  }

  lemma UsedLeMax(h: Heap)
    requires Valid(h)
    ensures h.used <= h.max
  {}

  lemma AllocValid(h: Heap, c: nat, r: nat)
    requires Carvable(h, c, r) && Valid(h)
    ensures Valid(AllocAt(h, c, r))
  {
    hide Valid, Splice, Segment, LiveBytes, Index, Push, AllListed, Listed, Tiled, Coalesced, Chained;
    var i := Index(h.blocks, h.lists[c][0]);
    ValidParts(h);
    AllocListed(h, c, r);
    SizeZero(h.blocks, i);
    CarveLayout(h.blocks, i, r);
    UsedLeMax(h);
    ListedLength(AllocAt(h, c, r).blocks, AllocAt(h, c, r).lists);
    Rebuilt(h, AllocAt(h, c, r));
  }

  lemma OneFree(b: Block)
    requires b.free
    ensures LiveBytes([b]) == 0
  {
    assert [b][1..] == [];
  }

  // ---- release -------------------------------------------------------------------------

  // p is the address of the payload of a live block
  ghost predicate IsLive(h: Heap, p: nat)
  {
    exists x :: Live(h.blocks, x) && x.addr + 8 == p
  }

  ghost function LiveAt(h: Heap, p: nat): (i: nat)
    requires Valid(h) && IsLive(h, p)
    ensures i < |h.blocks| - 1 && Live(h.blocks, h.blocks[i]) && h.blocks[i].addr + 8 == p
  {
    var x :| Live(h.blocks, x) && x.addr + 8 == p;
    SizeZero(h.blocks, Index(h.blocks, x));
    Index(h.blocks, x)
  }

  // First and one-past-last block merged with block i when it is freed
  ghost function MergeLo(bs: seq<Block>, i: nat): (lo: nat)
    requires i < |bs|
    ensures lo <= i
  {
    if i > 0 && bs[i - 1].free then i - 1 else i
  }

  ghost function MergeHi(bs: seq<Block>, i: nat): (hi: nat)
    requires i < |bs| - 1
    ensures i < hi <= |bs|
  {
    if bs[i + 1].free then i + 2 else i + 1
  }

  // Block i joined with its free neighbours
  ghost function Merged(bs: seq<Block>, i: nat): Block
    requires i < |bs| - 1
  {
    Block(bs[MergeLo(bs, i)].addr,
          bs[i].size + (if bs[i + 1].free then bs[i + 1].size + 8 else 0)
          + (if i > 0 && bs[i - 1].free then bs[i - 1].size + 8 else 0),
          true)
  }

  // The lists without the free neighbours of block i
  ghost function Detached(bs: seq<Block>, lists: seq<seq<Block>>, i: nat): (l: seq<seq<Block>>)
    requires |lists| == CELLS && i < |bs| - 1
    ensures |l| == CELLS
  {
    var l1 := if bs[i + 1].free then Unlink(lists, bs[i + 1]) else lists;
    if i > 0 && bs[i - 1].free then Unlink(l1, bs[i - 1]) else l1
  }

  ghost function FreeAt(h: Heap, i: nat): Heap
    requires |h.lists| == CELLS && i < |h.blocks| - 1
  {
    var bs := h.blocks;
    var m := Merged(bs, i);
    Heap(h.pool, Splice(bs, MergeLo(bs, i), MergeHi(bs, i), [m]), Push(Detached(bs, h.lists, i), m),
         h.used - (bs[i].size + 8), h.max)
  }

  ghost function Free(h: Heap, p: nat): Heap
    requires Valid(h) && IsLive(h, p)
  {
    FreeAt(h, LiveAt(h, p))
  }

  lemma MergedFacts(bs: seq<Block>, i: nat)
    requires Tiled(bs) && Coalesced(bs) && i < |bs| - 1 && !bs[i].free
    requires bs[|bs| - 1].addr <= FIRST + MAX_BLOCK - 8
    ensures var lo, hi := MergeLo(bs, i), MergeHi(bs, i);
            && Covers(bs, lo, hi, [Merged(bs, i)])
            && (lo > 0 ==> !bs[lo - 1].free) && !bs[hi].free
            && ClassOf(Merged(bs, i).size) < CELLS
  {
    hide ClassOf, Covers, Coalesced, Merged, MergeLo, MergeHi;
    MergedEnds(bs, i);
    MergedCovers(bs, i);
  }

  // The blocks on either side of a merge are used
  lemma MergedEnds(bs: seq<Block>, i: nat)
    requires Tiled(bs) && Coalesced(bs) && i < |bs| - 1 && !bs[i].free
    ensures var lo, hi := MergeLo(bs, i), MergeHi(bs, i); (lo > 0 ==> !bs[lo - 1].free) && !bs[hi].free
  {
    if i > 0 { assert !BothFree(bs, i - 1); }
    if i > 1 { assert !BothFree(bs, i - 2); }
    if MergeHi(bs, i) == i + 2 { assert !BothFree(bs, i + 1); }
  }

  // The merged block takes exactly the place of the blocks it replaces
  lemma MergedPlace(bs: seq<Block>, i: nat)
    requires Tiled(bs) && i < |bs| - 1 && !bs[i].free
    ensures var lo, hi, x := MergeLo(bs, i), MergeHi(bs, i), Merged(bs, i);
            lo < hi < |bs| && x.addr == bs[lo].addr && x.End() == bs[hi].addr && x.size % 8 == 0 && 8 <= x.size
  {
    SizeZero(bs, i);
    assert Adjacent(bs, i);
    if i > 0 { assert Adjacent(bs, i - 1); }
    if MergeHi(bs, i) == i + 2 { assert Adjacent(bs, i + 1); }
  }

  lemma MergedCovers(bs: seq<Block>, i: nat)
    requires Tiled(bs) && i < |bs| - 1 && !bs[i].free
    requires bs[|bs| - 1].addr <= FIRST + MAX_BLOCK - 8
    ensures Covers(bs, MergeLo(bs, i), MergeHi(bs, i), [Merged(bs, i)])
    ensures ClassOf(Merged(bs, i).size) < CELLS
  {
    hide Cell, MergeLo, MergeHi, Merged;
    MergedPlace(bs, i);
    var lo, hi := MergeLo(bs, i), MergeHi(bs, i);
    Aligned(bs, lo);
    if hi < |bs| - 1 { Apart(bs, hi, |bs| - 1); }
  }

  lemma OneLive(b: Block)
    requires !b.free && b.size > 0
    ensures LiveBytes([b]) == b.size + 8
  {
    assert [b][1..] == [];
  }

  lemma MergedBytes(bs: seq<Block>, i: nat)
    requires i < |bs| - 1 && !bs[i].free && bs[i].size > 0
    ensures var lo, hi := MergeLo(bs, i), MergeHi(bs, i);
            LiveBytes(bs[lo..hi]) == bs[i].size + 8
  {
    var lo, hi := MergeLo(bs, i), MergeHi(bs, i);
    assert bs[lo..hi] == bs[lo..i] + [bs[i]] + bs[i + 1..hi];
    LiveBytesConcat(bs[lo..i] + [bs[i]], bs[i + 1..hi]);
    LiveBytesConcat(bs[lo..i], [bs[i]]);
    OneLive(bs[i]);
    if lo < i { assert bs[lo..i] == [bs[lo]]; OneFree(bs[lo]); }
    if hi == i + 2 { assert bs[i + 1..hi] == [bs[i + 1]]; OneFree(bs[i + 1]); }
  }

  lemma MergeLayout(bs: seq<Block>, i: nat)
    requires Tiled(bs) && Coalesced(bs) && i < |bs| - 1 && !bs[i].free && bs[i].size > 0
    requires bs[|bs| - 1].addr <= FIRST + MAX_BLOCK - 8
    ensures var t := Splice(bs, MergeLo(bs, i), MergeHi(bs, i), [Merged(bs, i)]);
            && Tiled(t) && Coalesced(t) && t[|t| - 1] == bs[|bs| - 1]
            && LiveBytes(t) == LiveBytes(bs) - (bs[i].size + 8)
  {
    var lo, hi := MergeLo(bs, i), MergeHi(bs, i);
    var seg := [Merged(bs, i)];
    hide Splice, LiveBytes, MergeLo, MergeHi, Tiled, ClassOf;
    MergedFacts(bs, i);
    SpliceTiled(bs, lo, hi, seg);
    SpliceCoalesced(bs, lo, hi, seg);
    SpliceLiveBytes(bs, lo, hi, seg);
    MergedBytes(bs, i);
    OneFree(Merged(bs, i));
  }

  ghost function Near(bs: seq<Block>, i: nat): set<Block>
    requires i < |bs| - 1
  {
    set x | x in bs[MergeLo(bs, i)..MergeHi(bs, i)]
  }

  lemma DetachedListed(bs: seq<Block>, lists: seq<seq<Block>>, i: nat)
    requires |lists| == CELLS && i < |bs| - 1 && !bs[i].free
    requires Chained(bs) && Listed(bs, lists) && AllListed(bs, lists, {})
    ensures var l := Detached(bs, lists, i);
            && Listed(bs, l) && AllListed(bs, l, Near(bs, i))
            && forall x, c :: x in Near(bs, i) && 0 <= c < CELLS ==> x !in l[c]
  {
    hide ClassOf, Listed, AllListed, Unlink, Chained, MergeLo, MergeHi, Near;
    var next, prev := bs[i + 1], if i > 0 then bs[i - 1] else bs[i];
    var l1 := if next.free then Unlink(lists, next) else lists;
    var e1: set<Block> := if next.free then {} + {next} else {};
    if next.free { UnlinkListed(bs, lists, next, {}); }
    var l2 := if prev.free then Unlink(l1, prev) else l1;
    var e2 := if prev.free then e1 + {prev} else e1;
    if prev.free {
      Apart(bs, i - 1, i + 1);
      UnlinkListed(bs, l1, prev, e1);
    }
    NearBlocks(bs, i);
    forall x, c | x in Near(bs, i) && 0 <= c < CELLS ensures x !in l2[c] {
      NotListed(bs, l2, bs[i], c);
    }
    Widen(bs, l2, e2, Near(bs, i));
  }

  lemma NearBlocks(bs: seq<Block>, i: nat)
    requires i < |bs| - 1
    ensures forall x :: x in Near(bs, i) <==>
              x == bs[i] || (bs[i + 1].free && x == bs[i + 1]) || (i > 0 && bs[i - 1].free && x == bs[i - 1])
    ensures MergeHi(bs, i) <= |bs| && forall x :: x in bs[MergeLo(bs, i)..MergeHi(bs, i)] <==> x in Near(bs, i)
  {
    var lo, hi := MergeLo(bs, i), MergeHi(bs, i);
    assert bs[lo..hi] == (if lo < i then [bs[i - 1]] else []) + [bs[i]] + (if hi == i + 2 then [bs[i + 1]] else []);
  }

  lemma NotListed(bs: seq<Block>, lists: seq<seq<Block>>, x: Block, c: nat)
    requires Listed(bs, lists) && !x.free && c < CELLS
    ensures x !in lists[c]
  {}

  lemma Widen(bs: seq<Block>, lists: seq<seq<Block>>, a: set<Block>, b: set<Block>)
    requires |lists| == CELLS && AllListed(bs, lists, a) && a <= b
    ensures AllListed(bs, lists, b)
  {}

  // The merged block replaces its parts: only it remains unlisted, in no list
  lemma MergedUnlisted(bs: seq<Block>, l: seq<seq<Block>>, lo: nat, hi: nat, m: Block, near: set<Block>)
    requires Chained(bs) && lo < hi < |bs| && m.addr == bs[lo].addr && m.free
    requires Listed(bs, l) && AllListed(bs, l, near) && near == set x | x in bs[lo..hi]
    requires forall x, c :: x in near && 0 <= c < CELLS ==> x !in l[c]
    ensures Listed(Splice(bs, lo, hi, [m]), l)
    ensures AllListed(Splice(bs, lo, hi, [m]), l, {m})
    ensures forall c :: 0 <= c < CELLS ==> m !in l[c]
  {
    hide ClassOf, Splice;
    var t := Splice(bs, lo, hi, [m]);
    assert forall x :: x in bs[lo..hi] ==> x in near;
    SpliceListed(bs, l, lo, hi, [m], near);
    forall x | x in t && x.free && x !in {m} ensures ClassOf(x.size) < CELLS && x in l[ClassOf(x.size)] {
      SpliceMembers(bs, lo, hi, [m], x);
    }
    forall c | 0 <= c < CELLS ensures m !in l[c] {
      assert bs[lo..hi][0] == bs[lo];
      if m in l[c] {
        SameAddr(bs, m, bs[lo]);
      }
    }
  }

  lemma MergeListed(h: Heap, i: nat)
    requires Valid(h) && |h.lists| == CELLS && i < |h.blocks| - 1 && Live(h.blocks, h.blocks[i])
    ensures var g := FreeAt(h, i); Listed(g.blocks, g.lists) && AllListed(g.blocks, g.lists, {})
  {
    hide Valid, ClassOf, Listed, AllListed, Detached, Push, Tiled, Chained, Coalesced, MergeLo, MergeHi, Splice;
    var bs, m := h.blocks, Merged(h.blocks, i);
    var lo, hi := MergeLo(bs, i), MergeHi(bs, i);
    var l := Detached(bs, h.lists, i);
    ValidParts(h);
    MergedFacts(bs, i);
    DetachedListed(bs, h.lists, i);
    MergedUnlisted(bs, l, lo, hi, m, Near(bs, i));
    SpliceHas(bs, lo, hi, m);
    PushListed(Splice(bs, lo, hi, [m]), l, m, {m});
    assert {m} - {m} == {};
  }

  lemma FreeValid(h: Heap, i: nat)
    requires Valid(h) && |h.lists| == CELLS && i < |h.blocks| - 1 && Live(h.blocks, h.blocks[i])
    ensures Valid(FreeAt(h, i))
  {
    hide Valid, Splice, LiveBytes, Push, AllListed, Listed, Tiled, Coalesced, Chained, Merged, Detached, MergeLo,
         MergeHi;
    ValidParts(h);
    UsedLeMax(h);
    MergeListed(h, i);
    MergeLayout(h.blocks, i);
    ListedLength(FreeAt(h, i).blocks, FreeAt(h, i).lists);
    Rebuilt(h, FreeAt(h, i));
  }
}
