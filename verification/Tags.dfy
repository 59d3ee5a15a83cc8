// Block headers in the words of the pool: size words with their two state bits, and prev_hdr.
module Tags {
  import opened SizeClass
  import opened Layout
  import opened HeapModel
  import opened Memory

  // ---- size words: the size of a block and its two state bits -------------------------------

  // Unsigned 32-bit wrap-around
  function Word32(x: int): int { x % 0x1_0000_0000 }

  lemma NoWrap(x: int)
    requires 0 <= x < 0x1_0000_0000
    ensures Word32(x) == x
  {}

  function Tag(size: nat, free: bool, prevFree: bool): nat
  {
    size + (if free then 1 else 0) + (if prevFree then 2 else 0)
  }

  function SizeOf(w: nat): nat { w - w % 4 }
  predicate IsFree(w: nat) { w % 2 == 1 }
  predicate IsPrevFree(w: nat) { w % 4 >= 2 }
  function SetFree(w: nat): nat { if IsFree(w) then w else w + 1 }
  function ClearFree(w: nat): nat { if IsFree(w) then w - 1 else w }
  function SetPrevFree(w: nat): nat { if IsPrevFree(w) then w else w + 2 }
  function ClearPrevFree(w: nat): nat { if IsPrevFree(w) then w - 2 else w }

  lemma TagFields(size: nat, free: bool, prevFree: bool)
    requires size % 8 == 0
    ensures var w := Tag(size, free, prevFree);
            && SizeOf(w) == size && IsFree(w) == free && IsPrevFree(w) == prevFree
            && SetFree(w) == Tag(size, true, prevFree) && ClearFree(w) == Tag(size, false, prevFree)
            && SetPrevFree(w) == Tag(size, free, true) && ClearPrevFree(w) == Tag(size, free, false)
  {
    TagBits(size / 8, (if free then 1 else 0) + (if prevFree then 2 else 0));
  }

  lemma TagBits(k: nat, r: nat)
    requires r < 4
    ensures (8 * k + r) % 4 == r && (8 * k + r) % 2 == r % 2
  {
    assert (8 * k + r) / 4 == 2 * k;
    assert (8 * k + r) / 2 == 4 * k + r / 2;
  }

  ghost predicate PrevFree(bs: seq<Block>, i: nat)
    requires i < |bs|
  {
    i > 0 && bs[i - 1].free
  }

  // The header words of block i describe it and its left neighbour
  ghost predicate Header(m: seq<int>, bs: seq<Block>, i: nat)
    requires i < |bs|
  {
    && bs[i].addr + 8 <= |m|
    && m[bs[i].addr + 4] == Tag(bs[i].size, bs[i].free, PrevFree(bs, i))
    && (PrevFree(bs, i) ==> m[bs[i].addr] == bs[i - 1].addr)
  }

  ghost predicate Headers(m: seq<int>, bs: seq<Block>)
  {
    forall i :: 0 <= i < |bs| ==> Header(m, bs, i)
  }

  // The size word of block i, and prev_hdr where it is defined, are the same in m and m'
  ghost predicate TagKept(m: seq<int>, m': seq<int>, bs: seq<Block>, i: nat)
    requires i < |bs|
  {
    && bs[i].addr + 8 <= |m| && bs[i].addr + 8 <= |m'|
    && m'[bs[i].addr + 4] == m[bs[i].addr + 4]
    && (PrevFree(bs, i) ==> m'[bs[i].addr] == m[bs[i].addr])
  }

  ghost predicate TagsKept(m: seq<int>, m': seq<int>, bs: seq<Block>)
  {
    forall i :: 0 <= i < |bs| ==> TagKept(m, m', bs, i)
  }

  // The blocks determine the boundary tags
  lemma HeadersUnique(m: seq<int>, m': seq<int>, bs: seq<Block>)
    requires Headers(m, bs) && Headers(m', bs)
    ensures TagsKept(m, m', bs)
  {
    hide Tag;
    forall i | 0 <= i < |bs| ensures TagKept(m, m', bs, i) {
      assert Header(m, bs, i) && Header(m', bs, i);
    }
  }

  // A word inside a block is in no header
  lemma InnerHeaders(m: seq<int>, bs: seq<Block>, x: Block, w: nat, v: int)
    requires Tiled(bs) && Headers(m, bs) && x in bs && x.addr + 8 <= w < x.End() && w < |m|
    ensures Headers(m[w := v], bs)
  {
    hide Tag;
    var k, m' := Index(bs, x), m[w := v];
    forall i | 0 <= i < |bs| ensures Header(m', bs, i) {
      assert Header(m, bs, i);
      if i < k { Apart(bs, i, k); }
      if k < i { Apart(bs, k, i); }
    }
  }

  // Only words in H and link words of the blocks at the addresses A differ
  ghost predicate Writes(m: seq<int>, m': seq<int>, A: set<int>, H: set<int>)
  {
    && |m'| == |m|
    && forall w :: 0 <= w < |m| && w !in H && w - 8 !in A && w - 12 !in A ==> m'[w] == m[w]
  }

  lemma WritesThenFrame(m0: seq<int>, m1: seq<int>, m2: seq<int>, A: set<int>, H: set<int>, B: set<int>)
    requires Writes(m0, m1, A, H) && Frame(m1, m2, B) && B <= A
    ensures Writes(m0, m2, A, H)
  {}

  lemma WritesThenWord(m0: seq<int>, m1: seq<int>, A: set<int>, H: set<int>, w: nat, v: int)
    requires Writes(m0, m1, A, H) && w < |m1| && (w in H || w - 8 in A || w - 12 in A)
    ensures Writes(m0, m1[w := v], A, H)
  {}

  // The headers outside lo..hi are kept by writes to blocks lo..hi and to links
  ghost predicate Away(bs: seq<Block>, lo: nat, hi: nat, A: set<int>, H: set<int>)
    requires lo < hi < |bs|
  {
    && (forall a :: a in A ==> a % 8 == 0)
    && (forall i, a :: 0 <= i < |bs| && a in A ==> a == bs[i].addr || a >= bs[i].addr + 8 || a + 16 <= bs[i].addr)
    && (forall i, w :: 0 <= i < |bs| && (i < lo || hi < i) && w in H ==> w != bs[i].addr && w != bs[i].addr + 4)
  }

  lemma HeaderKept(m: seq<int>, m': seq<int>, bs: seq<Block>, lo: nat, hi: nat, A: set<int>, H: set<int>, i: nat)
    requires Chained(bs) && lo < hi < |bs| && Writes(m, m', A, H) && Away(bs, lo, hi, A, H)
    requires i < |bs| && (i < lo || hi < i) && bs[i].addr + 8 <= |m| && bs[i].addr % 8 == 0
    ensures m'[bs[i].addr] == m[bs[i].addr] && m'[bs[i].addr + 4] == m[bs[i].addr + 4]
  {
  }

  lemma SpliceHeaders(m: seq<int>, m': seq<int>, bs: seq<Block>, lo: nat, hi: nat, seg: seq<Block>,
                      A: set<int>, H: set<int>)
    requires Tiled(bs) && Covers(bs, lo, hi, seg)
    requires forall i :: 0 <= i < |bs| && (i < lo || hi < i) ==> Header(m, bs, i)
    requires Writes(m, m', A, H) && Away(bs, lo, hi, A, H)
    requires var t := Splice(bs, lo, hi, seg); forall j :: lo <= j <= lo + |seg| ==> Header(m', t, j)
    ensures Headers(m', Splice(bs, lo, hi, seg))
  {
    assert |m'| == |m|;
    hide Writes, Away, Tag;
    var t := Splice(bs, lo, hi, seg);
    forall j | 0 <= j < |t| ensures Header(m', t, j) {
      if j < lo {
        assert Header(m, bs, j);
        Aligned(bs, j);
        HeaderKept(m, m', bs, lo, hi, A, H, j);
        assert t[j] == bs[j] && (j > 0 ==> t[j - 1] == bs[j - 1]);
      } else if j > lo + |seg| {
        var i := j - lo - |seg| + hi;
        assert Header(m, bs, i);
        Aligned(bs, i);
        HeaderKept(m, m', bs, lo, hi, A, H, i);
        assert t[j] == bs[i] && t[j - 1] == bs[i - 1];
      }
    }
  }

  // ---- writes that leave the lists linked ---------------------------------------------------

  lemma LinkedKept(m: seq<int>, m': seq<int>, matrix: seq<int>, lists: seq<seq<Block>>)
    requires Linked(m, matrix, lists) && |m'| == |m|
    requires forall c, k :: 0 <= c < CELLS && 0 <= k < |lists[c]| && lists[c][k].addr + 16 <= |m| ==>
               var a := lists[c][k].addr; m'[a + 8] == m[a + 8] && m'[a + 12] == m[a + 12]
    ensures Linked(m', matrix, lists)
  {
    forall c | 0 <= c < CELLS ensures Chain(m', matrix[c], lists[c]) {
      assert Chain(m, matrix[c], lists[c]);
      forall k | 0 <= k < |lists[c]| ensures Node(m', lists[c], k) {
        assert Node(m, lists[c], k);
      }
    }
  }

  // A word of the header of a block
  lemma HeaderWrite(m: seq<int>, matrix: seq<int>, bs: seq<Block>, lists: seq<seq<Block>>, x: Block, w: nat, v: int)
    requires Chained(bs) && Listed(bs, lists) && Linked(m, matrix, lists)
    requires x in bs && (w == x.addr || w == x.addr + 4) && w < |m|
    ensures Linked(m[w := v], matrix, lists)
  {
    hide ClassOf, Linked;
    forall c, k | 0 <= c < CELLS && 0 <= k < |lists[c]| ensures var a := lists[c][k].addr; w != a + 8 && w != a + 12 {
      assert lists[c][k] in lists[c];
      if lists[c][k] != x { BlocksApart(bs, lists[c][k], x); }
    }
    LinkedKept(m, m[w := v], matrix, lists);
  }

  lemma BlocksApart(bs: seq<Block>, x: Block, y: Block)
    requires Chained(bs) && x in bs && y in bs && x != y
    ensures x.addr + 16 <= x.End() <= y.addr || y.addr + 16 <= y.End() <= x.addr
  {
    var i, j := Index(bs, x), Index(bs, y);
    if i < j { Apart(bs, i, j); } else { Apart(bs, j, i); }
  }

  // A word inside a block that is in no list
  lemma InnerWrite(m: seq<int>, matrix: seq<int>, bs: seq<Block>, lists: seq<seq<Block>>, x: Block, w: nat, v: int)
    requires Chained(bs) && Listed(bs, lists) && Linked(m, matrix, lists)
    requires x in bs && (forall c :: 0 <= c < CELLS ==> x !in lists[c])
    requires x.addr <= w < x.End() && w < |m|
    ensures Linked(m[w := v], matrix, lists)
  {
    hide ClassOf, Linked;
    forall c, k | 0 <= c < CELLS && 0 <= k < |lists[c]| ensures var a := lists[c][k].addr; w != a + 8 && w != a + 12 {
      assert lists[c][k] in lists[c];
      BlocksApart(bs, lists[c][k], x);
    }
    LinkedKept(m, m[w := v], matrix, lists);
  }

  // List operations do not touch headers
  lemma HeaderWordsKept(m: seq<int>, m': seq<int>, bs: seq<Block>, x: Block)
    requires Tiled(bs) && x in bs && Frame(m, m', FreeAddrs(bs)) && x.addr + 8 <= |m|
    ensures m'[x.addr] == m[x.addr] && m'[x.addr + 4] == m[x.addr + 4]
  {
    var i := Index(bs, x);
    Aligned(bs, i);
    forall a | a in FreeAddrs(bs) ensures a != x.addr - 8 && a % 8 == 0 {
      var y :| y in bs && y.free && y.addr == a;
      Aligned(bs, Index(bs, y));
      if x != y { BlocksApart(bs, x, y); }
    }
  }

  // ---- carving -----------------------------------------------------------------------------

  lemma FreeAddrsAway(bs: seq<Block>, a: int, i: nat)
    requires Tiled(bs) && a in FreeAddrs(bs) && i < |bs|
    ensures a % 8 == 0 && (a == bs[i].addr || a >= bs[i].addr + 8 || a + 16 <= bs[i].addr)
  {
    var y :| y in bs && y.free && y.addr == a;
    var j := Index(bs, y);
    Aligned(bs, j);
    if i < j { Apart(bs, i, j); }
    if j < i { Apart(bs, j, i); }
  }

  lemma SplitAway(bs: seq<Block>, i: nat, r: nat)
    requires Tiled(bs) && i < |bs| - 1 && bs[i].free && r % 8 == 0 && 8 <= r && r + 16 <= bs[i].size
    ensures var b, b2, n := bs[i].addr, bs[i].addr + 8 + r, bs[i + 1].addr;
            Away(bs, i, i + 1, FreeAddrs(bs) + {b2}, {b + 4, b2 + 4, n, n + 4})
  {
    var b, b2, n := bs[i].addr, bs[i].addr + 8 + r, bs[i + 1].addr;
    var A, H := FreeAddrs(bs) + {b2}, {b + 4, b2 + 4, n, n + 4};
    Aligned(bs, i);
    assert Adjacent(bs, i);
    forall j, a | 0 <= j < |bs| && a in A
      ensures a % 8 == 0 && (a == bs[j].addr || a >= bs[j].addr + 8 || a + 16 <= bs[j].addr)
    {
      if a in FreeAddrs(bs) { FreeAddrsAway(bs, a, j); }
      if i < j { Apart(bs, i, j); }
      if j < i { Apart(bs, j, i); }
    }
    assert forall a :: a in A ==> a == bs[0].addr || a % 8 == 0;
    Aligned(bs, 0);
    forall j, w | 0 <= j < |bs| && (j < i || i + 1 < j) && w in H ensures w != bs[j].addr && w != bs[j].addr + 4 {
      if j < i { Apart(bs, j, i); Apart(bs, j, i + 1); } else { Apart(bs, i, j); Apart(bs, i + 1, j); }
      Aligned(bs, j);
    }
  }

  lemma SplitHeaders(m: seq<int>, m': seq<int>, bs: seq<Block>, i: nat, r: nat)
    requires Tiled(bs) && Coalesced(bs) && Headers(m, bs)
    requires i < |bs| - 1 && bs[i].free && r % 8 == 0 && 8 <= r && r + 16 <= bs[i].size
    requires var b, b2, n := bs[i].addr, bs[i].addr + 8 + r, bs[i + 1].addr;
             && Writes(m, m', FreeAddrs(bs) + {b2}, {b + 4, b2 + 4, n, n + 4})
             && n + 8 <= |m| && b2 + 8 <= |m| && b + 8 <= |m|
             && m'[b + 4] == Tag(r, false, false)
             && m'[b2 + 4] == Tag(bs[i].size - r - 8, true, false)
             && m'[n] == b2 && m'[n + 4] == m[n + 4]
    ensures Headers(m', Splice(bs, i, i + 1, Segment(bs[i], r)))
  {
    hide Writes, Tag;
    var b2, n := bs[i].addr + 8 + r, bs[i + 1].addr;
    var seg := Segment(bs[i], r);
    var t := Splice(bs, i, i + 1, seg);
    SegmentFacts(bs, i, r);
    SplitAway(bs, i, r);
    assert Header(m, bs, i + 1);
    assert !BothFree(bs, i);
    if i > 0 { assert !BothFree(bs, i - 1); assert t[i - 1] == bs[i - 1]; }
    assert t[i] == seg[0] && t[i + 1] == seg[1] && t[i + 2] == bs[i + 1];
    WritesLength(m, m', FreeAddrs(bs) + {b2}, {bs[i].addr + 4, b2 + 4, n, n + 4});
    forall j | i <= j <= i + |seg| ensures Header(m', t, j) {
      assert j == i || j == i + 1 || j == i + 2;
    }
    SpliceHeaders(m, m', bs, i, i + 1, seg, FreeAddrs(bs) + {b2}, {bs[i].addr + 4, b2 + 4, n, n + 4});
  }

  lemma WritesLength(m: seq<int>, m': seq<int>, A: set<int>, H: set<int>)
    requires Writes(m, m', A, H)
    ensures |m'| == |m|
  {}

  lemma WholeAway(bs: seq<Block>, i: nat)
    requires Tiled(bs) && i < |bs| - 1
    ensures Away(bs, i, i + 1, FreeAddrs(bs), {bs[i].addr + 4, bs[i + 1].addr + 4})
  {
    var A, H := FreeAddrs(bs), {bs[i].addr + 4, bs[i + 1].addr + 4};
    forall j, a | 0 <= j < |bs| && a in A
      ensures a % 8 == 0 && (a == bs[j].addr || a >= bs[j].addr + 8 || a + 16 <= bs[j].addr)
    {
      FreeAddrsAway(bs, a, j);
    }
    assert forall a :: a in A ==> a == bs[0].addr || a % 8 == 0;
    Aligned(bs, 0);
    forall j, w | 0 <= j < |bs| && (j < i || i + 1 < j) && w in H ensures w != bs[j].addr && w != bs[j].addr + 4 {
      if j < i { Apart(bs, j, i); Apart(bs, j, i + 1); } else { Apart(bs, i, j); Apart(bs, i + 1, j); }
    }
  }

  lemma WholeHeaders(m: seq<int>, m': seq<int>, bs: seq<Block>, i: nat, r: nat)
    requires Tiled(bs) && Coalesced(bs) && Headers(m, bs)
    requires i < |bs| - 1 && bs[i].free && r % 8 == 0 && 8 <= r <= bs[i].size < r + 16
    requires var b, n := bs[i].addr, bs[i + 1].addr;
             && Writes(m, m', FreeAddrs(bs), {b + 4, n + 4})
             && n + 8 <= |m| && b + 8 <= |m|
             && m'[b + 4] == Tag(bs[i].size, false, false)
             && m'[n + 4] == Tag(bs[i + 1].size, bs[i + 1].free, false)
    ensures Headers(m', Splice(bs, i, i + 1, Segment(bs[i], r)))
  {
    hide Writes, Tag;
    var n := bs[i + 1].addr;
    var seg := Segment(bs[i], r);
    var t := Splice(bs, i, i + 1, seg);
    SegmentFacts(bs, i, r);
    WholeAway(bs, i);
    assert !BothFree(bs, i);
    if i > 0 { assert !BothFree(bs, i - 1); assert t[i - 1] == bs[i - 1]; }
    assert t[i] == seg[0] && t[i + 1] == bs[i + 1];
    WritesLength(m, m', FreeAddrs(bs), {bs[i].addr + 4, n + 4});
    forall j | i <= j <= i + |seg| ensures Header(m', t, j) {
      assert j == i || j == i + 1;
    }
    SpliceHeaders(m, m', bs, i, i + 1, seg, FreeAddrs(bs), {bs[i].addr + 4, n + 4});
  }

  // ---- merging -----------------------------------------------------------------------------

  ghost function MergeWords(bs: seq<Block>, i: nat): set<int>
    requires i < |bs| - 1
  {
    if MergeHi(bs, i) < |bs| then
      {bs[MergeLo(bs, i)].addr + 4, bs[i].addr + 4, bs[MergeHi(bs, i)].addr, bs[MergeHi(bs, i)].addr + 4}
    else {}
  }

  lemma MergeAway(bs: seq<Block>, i: nat)
    requires Tiled(bs) && i < |bs| - 1 && !bs[i].free && MergeHi(bs, i) < |bs|
    ensures Away(bs, MergeLo(bs, i), MergeHi(bs, i), FreeAddrs(bs) + {bs[i].addr}, MergeWords(bs, i))
  {
    var lo, hi := MergeLo(bs, i), MergeHi(bs, i);
    var A, H := FreeAddrs(bs) + {bs[i].addr}, MergeWords(bs, i);
    Aligned(bs, i);
    forall j, a | 0 <= j < |bs| && a in A
      ensures a % 8 == 0 && (a == bs[j].addr || a >= bs[j].addr + 8 || a + 16 <= bs[j].addr)
    {
      if a in FreeAddrs(bs) { FreeAddrsAway(bs, a, j); }
      if i < j { Apart(bs, i, j); }
      if j < i { Apart(bs, j, i); }
    }
    assert forall a :: a in A ==> a == bs[0].addr || a % 8 == 0;
    Aligned(bs, 0);
    forall j, w | 0 <= j < |bs| && (j < lo || hi < j) && w in H ensures w != bs[j].addr && w != bs[j].addr + 4 {
      if j < lo {
        Apart(bs, j, lo);
        Apart(bs, j, i);
        Apart(bs, j, hi);
      } else {
        Apart(bs, lo, j);
        Apart(bs, i, j);
        Apart(bs, hi, j);
      }
    }
  }

  lemma MergeHeaders(m: seq<int>, m': seq<int>, bs: seq<Block>, i: nat)
    requires Tiled(bs) && Coalesced(bs) && i < |bs| - 1 && !bs[i].free
    requires bs[|bs| - 1].addr <= FIRST + MAX_BLOCK - 8
    requires forall j :: 0 <= j < |bs| && j != i + 1 ==> Header(m, bs, j)
    requires MergeHi(bs, i) < |bs|
    requires var x, n := Merged(bs, i), bs[MergeHi(bs, i)];
             && Writes(m, m', FreeAddrs(bs) + {bs[i].addr}, MergeWords(bs, i))
             && n.addr + 8 <= |m| && x.addr + 8 <= |m|
             && m'[x.addr + 4] == Tag(x.size, true, false)
             && m'[n.addr] == x.addr && m'[n.addr + 4] == Tag(n.size, n.free, true)
    ensures Headers(m', Splice(bs, MergeLo(bs, i), MergeHi(bs, i), [Merged(bs, i)]))
  {
    hide Writes, Tag, MergeWords;
    var lo, hi := MergeLo(bs, i), MergeHi(bs, i);
    var seg := [Merged(bs, i)];
    var t := Splice(bs, lo, hi, seg);
    MergedFacts(bs, i);
    MergeAway(bs, i);
    assert t[lo] == seg[0] && t[lo + 1] == bs[hi];
    assert lo > 0 ==> t[lo - 1] == bs[lo - 1];
    WritesLength(m, m', FreeAddrs(bs) + {bs[i].addr}, MergeWords(bs, i));
    forall j | lo <= j <= lo + |seg| ensures Header(m', t, j) {
      assert j == lo || j == lo + 1;
    }
    SpliceHeaders(m, m', bs, lo, hi, seg, FreeAddrs(bs) + {bs[i].addr}, MergeWords(bs, i));
  }

  // ---- the two outcomes of malloc_ex on a block taken from its list --------------------------

  ghost predicate Takeable(m: seq<int>, matrix: seq<int>, bs: seq<Block>, lists: seq<seq<Block>>, i: nat)
  {
    && Tiled(bs) && Coalesced(bs) && Headers(m, bs) && |lists| == CELLS && Listed(bs, lists) && Linked(m, matrix, lists)
    && bs[|bs| - 1].addr + 8 <= |m|
    && i < |bs| - 1 && bs[i].free && bs[i].size < MAX_BLOCK
    && forall d :: 0 <= d < CELLS ==> bs[i] !in lists[d]
  }

  // What the header words of the block and its right neighbour say
  lemma TakeableWords(m: seq<int>, matrix: seq<int>, bs: seq<Block>, lists: seq<seq<Block>>, i: nat)
    requires Takeable(m, matrix, bs, lists, i)
    ensures var b, n := bs[i], bs[i + 1];
            && n.addr == b.End() && n.addr + 8 <= |m| && b.addr % 8 == 0 && b.size % 8 == 0 && 8 <= b.size
            && m[b.addr + 4] == Tag(b.size, true, false)
            && m[n.addr + 4] == Tag(n.size, n.free, true) && n.size % 8 == 0
  {
    hide Tag, Linked, Listed, Tiled, Coalesced, Headers;
    RightNeighbour(bs, i);
    TakeableHeaders(m, bs, i);
  }

  lemma RightNeighbour(bs: seq<Block>, i: nat)
    requires Tiled(bs) && i < |bs| - 1
    ensures var b, n := bs[i], bs[i + 1];
            && n.addr == b.End() && n.addr <= bs[|bs| - 1].addr && b.addr % 8 == 0 && b.size % 8 == 0
            && 8 <= b.size && n.size % 8 == 0
  {
    assert Adjacent(bs, i);
    Aligned(bs, i);
    Aligned(bs, i + 1);
    if i + 1 < |bs| - 1 {
      assert Adjacent(bs, i + 1);
      Apart(bs, i + 1, |bs| - 1);
    }
  }

  lemma TakeableHeaders(m: seq<int>, bs: seq<Block>, i: nat)
    requires Coalesced(bs) && Headers(m, bs) && i < |bs| - 1 && bs[i].free && bs[i + 1].addr + 8 <= |m|
    requires bs[i].addr + 8 <= |m|
    ensures m[bs[i].addr + 4] == Tag(bs[i].size, true, false)
    ensures m[bs[i + 1].addr + 4] == Tag(bs[i + 1].size, bs[i + 1].free, true)
  {
    hide Tag;
    assert Header(m, bs, i) && Header(m, bs, i + 1);
    if i > 0 { assert !BothFree(bs, i - 1); }
  }

  lemma SplitReady(m: seq<int>, matrix: seq<int>, bs: seq<Block>, lists: seq<seq<Block>>, i: nat, r: nat)
    requires Takeable(m, matrix, bs, lists, i) && r % 8 == 0 && 8 <= r && r + 16 <= bs[i].size
    requires bs[i + 1].addr + 8 <= |m| && bs[i].addr + r + 16 <= |m|
    ensures Linked(SplitWords(m, bs, i, r), matrix, lists)
    ensures var seg := Segment(bs[i], r); var t := Splice(bs, i, i + 1, seg);
            && |seg| == 2 && Tiled(t) && Listed(t, lists) && t[|t| - 1] == bs[|bs| - 1]
            && seg[0] in t && seg[1] in t && bs[i + 1] in t
            && seg[1].size < MAX_BLOCK && ClassOf(seg[1].size) == Cell(seg[1].size)
            && FreeAddrs(t) <= FreeAddrs(bs) + {seg[1].addr}
            && forall d :: 0 <= d < CELLS ==> seg[1] !in lists[d]
  {
    hide ClassOf, Linked, Headers, LiveBytes, Tag, Segment, Splice, Tiled, Listed, FreeAddrs, SplitWords;
    SplitLinked(m, matrix, bs, lists, i, r);
    SplitLayout(m, matrix, bs, lists, i, r);
  }

  lemma SplitLinked(m: seq<int>, matrix: seq<int>, bs: seq<Block>, lists: seq<seq<Block>>, i: nat, r: nat)
    requires Takeable(m, matrix, bs, lists, i) && r % 8 == 0 && 8 <= r && r + 16 <= bs[i].size
    requires bs[i + 1].addr + 8 <= |m| && bs[i].addr + r + 16 <= |m|
    ensures Linked(SplitWords(m, bs, i, r), matrix, lists)
  {
    hide ClassOf, Linked, Headers, LiveBytes, Tag;
    TakeableWords(m, matrix, bs, lists, i);
    var b2 := bs[i].addr + 8 + r;
    var v := Tag(bs[i].size - r - 8, true, false);
    InnerWrite(m, matrix, bs, lists, bs[i], b2 + 4, v);
    HeaderWrite(m[b2 + 4 := v], matrix, bs, lists, bs[i + 1], bs[i + 1].addr, b2);
  }

  lemma SplitLayout(m: seq<int>, matrix: seq<int>, bs: seq<Block>, lists: seq<seq<Block>>, i: nat, r: nat)
    requires Takeable(m, matrix, bs, lists, i) && r % 8 == 0 && 8 <= r && r + 16 <= bs[i].size
    ensures var seg := Segment(bs[i], r); var t := Splice(bs, i, i + 1, seg);
            && |seg| == 2 && Tiled(t) && Listed(t, lists) && t[|t| - 1] == bs[|bs| - 1]
            && seg[0] in t && seg[1] in t && bs[i + 1] in t
            && seg[1].size < MAX_BLOCK && ClassOf(seg[1].size) == Cell(seg[1].size)
            && FreeAddrs(t) <= FreeAddrs(bs) + {seg[1].addr}
            && forall d :: 0 <= d < CELLS ==> seg[1] !in lists[d]
  {
    hide ClassOf, Linked, Headers, LiveBytes, Tag;
    var seg := Segment(bs[i], r);
    CarveLayout(bs, i, r);
    assert bs[i..i + 1] == [bs[i]];
    SpliceKeepsListed(bs, lists, i, i + 1, seg);
    FreshPiece(bs, i, bs[i], r);
    SegmentShape(bs[i], r);
    ClassIsCell(seg[1].size);
    SplitParts(bs, i, r);
  }

  lemma ClassIsCell(size: nat)
    requires size < MAX_BLOCK
    ensures ClassOf(size) == Cell(size)
  {}

  // After the remainder b2 has been inserted (m2 to m3) the used block gets its size word (m4)
  lemma SplitDone(m: seq<int>, matrix: seq<int>, bs: seq<Block>, lists: seq<seq<Block>>, i: nat, r: nat,
                  m3: seq<int>, matrix3: seq<int>, lists3: seq<seq<Block>>)
    requires Takeable(m, matrix, bs, lists, i) && r % 8 == 0 && 8 <= r && r + 16 <= bs[i].size
    requires bs[i + 1].addr + 8 <= |m| && bs[i].addr + r + 16 <= |m|
    requires var t := Splice(bs, i, i + 1, Segment(bs[i], r));
             && Tiled(t) && Listed(t, lists3) && Linked(m3, matrix3, lists3)
             && Frame(SplitWords(m, bs, i, r), m3, FreeAddrs(t))
    ensures |m3| == |m| && m3[bs[i].addr + 4] == Tag(bs[i].size, true, false)
    ensures var m4 := m3[bs[i].addr + 4 := r];
            var t := Splice(bs, i, i + 1, Segment(bs[i], r));
            var b2 := bs[i].addr + 8 + r;
            && Linked(m4, matrix3, lists3) && Headers(m4, t)
            && Writes(m, m4, FreeAddrs(bs) + {b2}, {bs[i].addr + 4, b2 + 4, bs[i + 1].addr, bs[i + 1].addr + 4})
  {
    hide ClassOf, Linked, LiveBytes, Frame, Writes, Headers, FreeAddrs, Listed, Coalesced, Tiled, Chained, Tag;
    var b, n := bs[i], bs[i + 1];
    var b2 := b.addr + 8 + r;
    var A, H := FreeAddrs(bs) + {b2}, {b.addr + 4, b2 + 4, n.addr, n.addr + 4};
    var seg := Segment(b, r);
    var t := Splice(bs, i, i + 1, seg);
    TakeableWords(m, matrix, bs, lists, i);
    FrameLength(SplitWords(m, bs, i, r), m3, FreeAddrs(t));
    assert t[i] == seg[0] && t[i + 1] == seg[1] && t[i + 2] == n;
    SplitParts(bs, i, r);
    HeaderWordsKept(SplitWords(m, bs, i, r), m3, t, seg[0]);
    HeaderWordsKept(SplitWords(m, bs, i, r), m3, t, seg[1]);
    HeaderWordsKept(SplitWords(m, bs, i, r), m3, t, n);
    TiledChained(t);
    HeaderWrite(m3, matrix3, t, lists3, seg[0], b.addr + 4, r);
    WritesNone(m, A, H);
    WritesThenWord(m, m, A, H, b2 + 4, Tag(b.size - r - 8, true, false));
    WritesThenWord(m, m[b2 + 4 := Tag(b.size - r - 8, true, false)], A, H, n.addr, b2);
    WritesThenFrame(m, SplitWords(m, bs, i, r), m3, A, H, FreeAddrs(t));
    WritesThenWord(m, m3, A, H, b.addr + 4, r);
    TagUsed(r);
    TakeableParts(m, matrix, bs, lists, i);
    SplitHeaders(m, m3[b.addr + 4 := r], bs, i, r);
  }

  ghost function SplitWords(m: seq<int>, bs: seq<Block>, i: nat, r: nat): (m2: seq<int>)
    requires i + 1 < |bs| && r + 16 <= bs[i].size && bs[i].addr + r + 16 <= |m| && bs[i + 1].addr < |m|
    ensures |m2| == |m|
  {
    m[bs[i].addr + 8 + r + 4 := Tag(bs[i].size - r - 8, true, false)][bs[i + 1].addr := bs[i].addr + 8 + r]
  }

  lemma TagUsed(size: nat)
    ensures Tag(size, false, false) == size
  {}

  lemma TakeableParts(m: seq<int>, matrix: seq<int>, bs: seq<Block>, lists: seq<seq<Block>>, i: nat)
    requires Takeable(m, matrix, bs, lists, i)
    ensures Tiled(bs) && Coalesced(bs) && Headers(m, bs)
  {}

  lemma FrameLength(m: seq<int>, m': seq<int>, A: set<int>)
    requires Frame(m, m', A)
    ensures |m'| == |m|
  {}

  lemma WritesNone(m: seq<int>, A: set<int>, H: set<int>)
    ensures Writes(m, m, A, H)
  {}

  lemma SplitParts(bs: seq<Block>, i: nat, r: nat)
    requires Tiled(bs) && i < |bs| - 1 && bs[i].free && bs[i].size < MAX_BLOCK && r % 8 == 0 && 8 <= r
             && r + 16 <= bs[i].size
    ensures var seg := Segment(bs[i], r); var t := Splice(bs, i, i + 1, seg);
            && seg[0] in t && seg[1] in t && bs[i + 1] in t
            && FreeAddrs(t) <= FreeAddrs(bs) + {seg[1].addr}
  {
    var seg := Segment(bs[i], r);
    var t := Splice(bs, i, i + 1, seg);
    SegmentShape(bs[i], r);
    assert t[i] == seg[0] && t[i + 1] == seg[1] && t[i + 2] == bs[i + 1];
    forall x | x in t && x.free ensures x == seg[1] || x in bs {
      SpliceMembers(bs, i, i + 1, seg, x);
    }
  }

  ghost function WholeWords(m: seq<int>, bs: seq<Block>, i: nat): (m2: seq<int>)
    requires i + 1 < |bs| && bs[i].addr + 4 < |m| && bs[i + 1].addr + 4 < |m|
    ensures |m2| == |m|
  {
    m[bs[i + 1].addr + 4 := Tag(bs[i + 1].size, bs[i + 1].free, false)][bs[i].addr + 4 := Tag(bs[i].size, false, false)]
  }

  lemma WholeDone(m: seq<int>, matrix: seq<int>, bs: seq<Block>, lists: seq<seq<Block>>, i: nat, r: nat)
    requires Takeable(m, matrix, bs, lists, i) && r % 8 == 0 && 8 <= r <= bs[i].size < r + 16
    requires bs[i].addr + 4 < |m| && bs[i + 1].addr + 4 < |m|
    ensures var m2 := WholeWords(m, bs, i);
            var t := Splice(bs, i, i + 1, Segment(bs[i], r));
            && Tiled(t) && Listed(t, lists) && t[|t| - 1] == bs[|bs| - 1]
            && Linked(m2, matrix, lists) && Headers(m2, t)
            && Writes(m, m2, FreeAddrs(bs), {bs[i].addr + 4, bs[i + 1].addr + 4})
  {
    hide ClassOf, Linked, LiveBytes, Writes, Headers, FreeAddrs, Listed, Coalesced, Tiled, Chained, Tag;
    var b, n := bs[i], bs[i + 1];
    var A, H := FreeAddrs(bs), {b.addr + 4, n.addr + 4};
    var m1 := m[n.addr + 4 := Tag(n.size, n.free, false)];
    TakeableWords(m, matrix, bs, lists, i);
    TakeableParts(m, matrix, bs, lists, i);
    TiledChained(bs);
    HeaderWrite(m, matrix, bs, lists, n, n.addr + 4, Tag(n.size, n.free, false));
    HeaderWrite(m1, matrix, bs, lists, b, b.addr + 4, Tag(b.size, false, false));
    WritesNone(m, A, H);
    WritesThenWord(m, m, A, H, n.addr + 4, Tag(n.size, n.free, false));
    WritesThenWord(m, m1, A, H, b.addr + 4, Tag(b.size, false, false));
    CarveLayout(bs, i, r);
    assert bs[i..i + 1] == [bs[i]];
    SpliceKeepsListed(bs, lists, i, i + 1, Segment(b, r));
    WholeHeaders(m, WholeWords(m, bs, i), bs, i, r);
  }

  // ---- payloads ----------------------------------------------------------------------------

  // The payload words of the live blocks other than skip are the same in m and m'
  ghost predicate PayloadsKept(m: seq<int>, m': seq<int>, bs: seq<Block>, skip: set<Block>)
  {
    |m'| == |m| && forall x, w :: Live(bs, x) && x !in skip && x.addr + 8 <= w < x.End() && w < |m| ==> m'[w] == m[w]
  }

  ghost predicate Outside(bs: seq<Block>, A: set<int>, H: set<int>, x: Block)
  {
    && (forall a :: a in A ==> a % 8 == 0 && (a + 16 <= x.addr || x.End() <= a))
    && (forall h :: h in H ==> h < x.addr + 8 || x.End() <= h)
  }

  lemma OutsideKept(m: seq<int>, m': seq<int>, bs: seq<Block>, A: set<int>, H: set<int>, skip: set<Block>)
    requires Writes(m, m', A, H)
    requires forall x :: Live(bs, x) && x !in skip ==> x.addr % 8 == 0 && Outside(bs, A, H, x)
    ensures PayloadsKept(m, m', bs, skip)
  {}

  lemma FreeOutside(bs: seq<Block>, i: nat)
    requires Tiled(bs) && i < |bs| - 1 && !bs[i].free
    ensures forall a :: a in FreeAddrs(bs) ==> a % 8 == 0 && (a + 16 <= bs[i].addr || bs[i].End() <= a)
  {
    forall a | a in FreeAddrs(bs) ensures a % 8 == 0 && (a + 16 <= bs[i].addr || bs[i].End() <= a) {
      var y :| y in bs && y.free && y.addr == a;
      Aligned(bs, Index(bs, y));
      BlocksApart(bs, y, bs[i]);
    }
  }

  lemma SplitPayloads(m: seq<int>, m': seq<int>, bs: seq<Block>, i: nat, r: nat)
    requires Tiled(bs) && i < |bs| - 1 && bs[i].free && r % 8 == 0 && 8 <= r && r + 16 <= bs[i].size
    requires var b, b2, n := bs[i].addr, bs[i].addr + 8 + r, bs[i + 1].addr;
             Writes(m, m', FreeAddrs(bs) + {b2}, {b + 4, b2 + 4, n, n + 4})
    ensures PayloadsKept(m, m', bs, {})
  {
    hide Writes, FreeAddrs;
    var b, b2, n := bs[i].addr, bs[i].addr + 8 + r, bs[i + 1].addr;
    Aligned(bs, i);
    assert Adjacent(bs, i);
    forall x | Live(bs, x) ensures x.addr % 8 == 0 && Outside(bs, FreeAddrs(bs) + {b2}, {b + 4, b2 + 4, n, n + 4}, x) {
      var j := Index(bs, x);
      SizeZero(bs, j);
      Aligned(bs, j);
      FreeOutside(bs, j);
      if j < i { Apart(bs, j, i); } else { Apart(bs, i, j); }
      if i + 1 < j { Apart(bs, i + 1, j); }
    }
    OutsideKept(m, m', bs, FreeAddrs(bs) + {b2}, {b + 4, b2 + 4, n, n + 4}, {});
  }

  lemma WholePayloads(m: seq<int>, m': seq<int>, bs: seq<Block>, i: nat)
    requires Tiled(bs) && i < |bs| - 1 && bs[i].free
    requires Writes(m, m', FreeAddrs(bs), {bs[i].addr + 4, bs[i + 1].addr + 4})
    ensures PayloadsKept(m, m', bs, {})
  {
    hide Writes, FreeAddrs;
    forall x | Live(bs, x)
      ensures x.addr % 8 == 0 && Outside(bs, FreeAddrs(bs), {bs[i].addr + 4, bs[i + 1].addr + 4}, x) {
      var j := Index(bs, x);
      SizeZero(bs, j);
      Aligned(bs, j);
      FreeOutside(bs, j);
      if j < i { Apart(bs, j, i); } else { Apart(bs, i, j); }
      if i + 1 < j { Apart(bs, i + 1, j); }
      if j < i + 1 { Apart(bs, j, i + 1); }
    }
    OutsideKept(m, m', bs, FreeAddrs(bs), {bs[i].addr + 4, bs[i + 1].addr + 4}, {});
  }

  lemma MergePayloads(m: seq<int>, m': seq<int>, bs: seq<Block>, i: nat)
    requires Tiled(bs) && i < |bs| - 1 && !bs[i].free && MergeHi(bs, i) < |bs|
    requires Writes(m, m', FreeAddrs(bs) + {bs[i].addr}, MergeWords(bs, i))
    ensures PayloadsKept(m, m', bs, {bs[i]})
  {
    hide Writes, FreeAddrs;
    var lo, hi := MergeLo(bs, i), MergeHi(bs, i);
    Aligned(bs, i);
    forall x | Live(bs, x) && x !in {bs[i]}
      ensures x.addr % 8 == 0 && Outside(bs, FreeAddrs(bs) + {bs[i].addr}, MergeWords(bs, i), x) {
      var j := Index(bs, x);
      SizeZero(bs, j);
      Aligned(bs, j);
      FreeOutside(bs, j);
      if j < i { Apart(bs, j, i); } else { Apart(bs, i, j); }
      if j < hi { Apart(bs, j, hi); }
      if hi < j { Apart(bs, hi, j); }
      if lo < j { Apart(bs, lo, j); }
      if j < lo { Apart(bs, j, lo); }
    }
    OutsideKept(m, m', bs, FreeAddrs(bs) + {bs[i].addr}, MergeWords(bs, i), {bs[i]});
  }

  lemma FrameHeaders(m: seq<int>, m': seq<int>, bs: seq<Block>)
    requires Tiled(bs) && Headers(m, bs) && Frame(m, m', FreeAddrs(bs))
    ensures Headers(m', bs)
  {
    FrameLength(m, m', FreeAddrs(bs));
    hide Tiled, Frame, Tag, FreeAddrs;
    forall i | 0 <= i < |bs| ensures Header(m', bs, i) {
      assert Header(m, bs, i);
      HeaderWordsKept(m, m', bs, bs[i]);
    }
  }

  lemma FramePayloads(m: seq<int>, m': seq<int>, bs: seq<Block>)
    requires Tiled(bs) && Frame(m, m', FreeAddrs(bs))
    ensures PayloadsKept(m, m', bs, {})
  {
    hide FreeAddrs;
    forall x | Live(bs, x) ensures x.addr % 8 == 0 && Outside(bs, FreeAddrs(bs), {}, x) {
      var j := Index(bs, x);
      SizeZero(bs, j);
      Aligned(bs, j);
      FreeOutside(bs, j);
    }
    OutsideKept(m, m', bs, FreeAddrs(bs), {}, {});
  }

  lemma PayloadsTrans(m0: seq<int>, m1: seq<int>, m2: seq<int>, bs: seq<Block>, skip: set<Block>)
    requires PayloadsKept(m0, m1, bs, skip) && PayloadsKept(m1, m2, bs, skip)
    ensures PayloadsKept(m0, m2, bs, skip)
  {}

  // What holds once the head of a list has been taken out
  lemma TakeReady(h: Heap, m: seq<int>, m1: seq<int>, matrix1: seq<int>, i: nat, c: nat)
    requires HeapModel.Valid(h) && c < CELLS && h.lists[c] != [] && h.lists[c][0] in h.blocks
    requires i == Index(h.blocks, h.lists[c][0]) && h.lists[c][0].free && h.lists[c][0].size < MAX_BLOCK
    requires Headers(m, h.blocks) && Frame(m, m1, FreeAddrs(h.blocks))
    requires var l := h.lists[c := h.lists[c][1..]]; Listed(h.blocks, l) && Linked(m1, matrix1, l)
    requires h.blocks[|h.blocks| - 1].addr + 8 <= |m|
    ensures var l := h.lists[c := h.lists[c][1..]]; Takeable(m1, matrix1, h.blocks, l, i)
    ensures PayloadsKept(m, m1, h.blocks, {})
  {
    hide ClassOf, Headers, Linked, LiveBytes, Frame, FreeAddrs, PayloadsKept;
    FrameHeaders(m, m1, h.blocks);
    FramePayloads(m, m1, h.blocks);
    FrameLength(m, m1, FreeAddrs(h.blocks));
    SizeZero(h.blocks, i);
    TakeHeadListed(h.blocks, h.lists, c);
  }

  lemma TakenIndex(h: Heap, c: nat)
    requires HeapModel.Valid(h) && c < CELLS && h.lists[c] != [] && h.lists[c][0] in h.blocks && h.lists[c][0].free
    ensures var i := Index(h.blocks, h.lists[c][0]);
            && i < |h.blocks| - 1 && h.blocks[i] == h.lists[c][0] && h.blocks[i].size % 8 == 0
            && h.blocks[i].addr + 16 <= h.blocks[|h.blocks| - 1].addr
  {
    assert |h.lists| == CELLS;
    hide ClassOf, Listed, AllListed, LiveBytes;
    var i := Index(h.blocks, h.lists[c][0]);
    SizeZero(h.blocks, i);
    assert i < |h.blocks| - 1;
    assert Adjacent(h.blocks, i);
    Apart(h.blocks, i, |h.blocks| - 1);
  }

  lemma SegmentWord(b: Block, r: nat)
    requires r % 8 == 0 && 8 <= r <= b.size && b.size % 8 == 0
    ensures SizeOf(Segment(b, r)[0].size) == Segment(b, r)[0].size
  {
    TagFields(r, false, false);
    TagFields(b.size, false, false);
  }

  // ---- free_ex -----------------------------------------------------------------------------

  // Block i can be freed: the lists are right, and so is every header except that the PREV_FREE bit
  // of the right neighbour may already be set
  ghost predicate Releasable(m: seq<int>, bs: seq<Block>, lists: seq<seq<Block>>, i: nat)
  {
    && Tiled(bs) && Coalesced(bs) && |lists| == CELLS && Listed(bs, lists) && AllListed(bs, lists, {})
    && bs[|bs| - 1].addr <= FIRST + MAX_BLOCK - 8 && bs[|bs| - 1].addr + 8 <= |m|
    && i < |bs| - 1 && !bs[i].free && bs[i].size > 0 && bs[i + 1].addr + 8 <= |m|
    && (forall j :: 0 <= j < |bs| && j != i + 1 ==> Header(m, bs, j))
    && (m[bs[i + 1].addr + 4] == Tag(bs[i + 1].size, bs[i + 1].free, false)
        || m[bs[i + 1].addr + 4] == Tag(bs[i + 1].size, bs[i + 1].free, true))
  }

  // Size of block i joined with its right neighbour, if that is free
  function RightSize(bs: seq<Block>, i: nat): nat
    requires i + 1 < |bs|
  {
    bs[i].size + if bs[i + 1].free then bs[i + 1].size + 8 else 0
  }

  lemma ReleaseSelf(m: seq<int>, bs: seq<Block>, lists: seq<seq<Block>>, i: nat)
    requires Releasable(m, bs, lists, i)
    ensures var b, n := bs[i], bs[i + 1];
            && n.addr == b.End() && n.addr + 8 <= |m| && b.addr + 16 <= n.addr && FIRST <= b.addr
            && b.addr % 8 == 0 && b.size % 8 == 0 && n.size % 8 == 0
            && m[b.addr + 4] == Tag(b.size, false, PrevFree(bs, i))
            && (n.free ==> n.size < MAX_BLOCK && n in lists[ClassOf(n.size)] && ClassOf(n.size) == Cell(n.size))
  {
    hide Tag, Cell, Listed, Coalesced;
    SizeZero(bs, i);
    SizeZero(bs, i + 1);
    Aligned(bs, i);
    assert Adjacent(bs, i) && Header(m, bs, i);
    Apart(bs, i, |bs| - 1);
    if i + 1 < |bs| - 1 { assert Adjacent(bs, i + 1); Apart(bs, i + 1, |bs| - 1); }
  }

  lemma ReleasePrev(m: seq<int>, bs: seq<Block>, lists: seq<seq<Block>>, i: nat)
    requires Releasable(m, bs, lists, i) && PrevFree(bs, i) && bs[i + 1].addr + 8 <= |m|
    ensures var p, b := bs[i - 1], bs[i];
            && p.End() == b.addr && p.addr + 16 <= b.addr < |m| && p.size % 8 == 0 && FIRST <= p.addr
            && m[b.addr] == p.addr && m[p.addr + 4] == Tag(p.size, true, false)
            && p.size < MAX_BLOCK && p in lists[ClassOf(p.size)] && ClassOf(p.size) == Cell(p.size) && p != bs[i + 1]
  {
    hide Tag, Cell, Listed;
    Aligned(bs, i - 1);
    assert Adjacent(bs, i - 1) && Adjacent(bs, i) && Header(m, bs, i - 1) && Header(m, bs, i);
    if i > 1 { assert !BothFree(bs, i - 2); }
    hide Coalesced;
  }

  lemma ReleaseEnd(m: seq<int>, bs: seq<Block>, lists: seq<seq<Block>>, i: nat)
    requires Releasable(m, bs, lists, i)
    ensures MergeHi(bs, i) < |bs|
    ensures var x, e := Merged(bs, i), bs[MergeHi(bs, i)];
            && x.size == RightSize(bs, i) + (if PrevFree(bs, i) then bs[i - 1].size + 8 else 0)
            && x.free && x.End() == e.addr && x.addr + 16 <= e.addr && e.addr + 8 <= |m|
            && x.size % 8 == 0 && x.size < MAX_BLOCK && ClassOf(x.size) == Cell(x.size)
            && e.size % 8 == 0 && !e.free
            && (m[e.addr + 4] == Tag(e.size, false, false) || m[e.addr + 4] == Tag(e.size, false, true))
  {
    hide Tag, Cell, Listed, AllListed;
    MergedFacts(bs, i);
    var hi := MergeHi(bs, i);
    if hi == i + 2 { assert Header(m, bs, hi); }
    if hi < |bs| - 1 { assert Adjacent(bs, hi); Apart(bs, hi, |bs| - 1); }
    SizeZero(bs, hi);
  }

  // Headers of two blocks after a list operation
  lemma JoinWords(m: seq<int>, m1: seq<int>, bs: seq<Block>, x: Block, y: Block)
    requires Tiled(bs) && Frame(m, m1, FreeAddrs(bs)) && x in bs && y in bs && x.addr + 8 <= |m| && y.addr + 8 <= |m|
    ensures |m1| == |m|
    ensures m1[x.addr + 4] == m[x.addr + 4] && m1[y.addr + 4] == m[y.addr + 4]
  {
    HeaderWordsKept(m, m1, bs, x);
    HeaderWordsKept(m, m1, bs, y);
  }

  lemma WritesJoined(m: seq<int>, m1: seq<int>, m2: seq<int>, A: set<int>, w: int)
    requires Frame(m, m1, A) && 0 <= w < |m1| && |m2| == |m1| && m2 == m1[w := m2[w]]
    ensures Writes(m, m2, A, {w})
  {}

  lemma WritesTrans(m0: seq<int>, m1: seq<int>, m2: seq<int>, A: set<int>, H: set<int>, A': set<int>, H': set<int>)
    requires Writes(m0, m1, A, H) && Writes(m1, m2, A', H') && A' <= A && H' <= H
    ensures Writes(m0, m2, A, H)
  {}

  lemma WritesHeader(m: seq<int>, m': seq<int>, bs: seq<Block>, H: set<int>, x: Block)
    requires Tiled(bs) && x in bs && Writes(m, m', FreeAddrs(bs), H) && x.addr + 8 <= |m|
    ensures |m'| == |m|
    ensures x.addr !in H ==> m'[x.addr] == m[x.addr]
    ensures x.addr + 4 !in H ==> m'[x.addr + 4] == m[x.addr + 4]
  {
    var i := Index(bs, x);
    Aligned(bs, i);
    forall a | a in FreeAddrs(bs) ensures a != x.addr - 8 && a % 8 == 0 {
      var y :| y in bs && y.free && y.addr == a;
      Aligned(bs, Index(bs, y));
      if x != y { BlocksApart(bs, x, y); }
    }
  }

  lemma MergeWordsHas(bs: seq<Block>, i: nat)
    requires i < |bs| - 1 && MergeHi(bs, i) < |bs|
    ensures var e := bs[MergeHi(bs, i)];
            bs[i].addr + 4 in MergeWords(bs, i) && e.addr in MergeWords(bs, i) && e.addr + 4 in MergeWords(bs, i)
    ensures PrevFree(bs, i) ==> bs[i - 1].addr + 4 in MergeWords(bs, i)
  {}

  lemma TagSum(size: nat, more: nat, free: bool, prevFree: bool)
    ensures Tag(size, free, prevFree) + more == Tag(size + more, free, prevFree)
  {}

  // ---- summary of free_ex ------------------------------------------------------------------

  // From the words m of a releasable heap to the words m' after free_ex of block i
  lemma ReleaseDone(m: seq<int>, m': seq<int>, bs: seq<Block>, lists: seq<seq<Block>>, i: nat)
    requires Releasable(m, bs, lists, i) && MergeHi(bs, i) < |bs|
    requires Writes(m, m', FreeAddrs(bs) + {bs[i].addr}, MergeWords(bs, i))
    requires var x, e := Merged(bs, i), bs[MergeHi(bs, i)];
             && e.addr + 8 <= |m| && x.addr + 8 <= |m|
             && m'[x.addr + 4] == Tag(x.size, true, false)
             && m'[e.addr] == x.addr && m'[e.addr + 4] == Tag(e.size, e.free, true)
    ensures Headers(m', Splice(bs, MergeLo(bs, i), MergeHi(bs, i), [Merged(bs, i)]))
    ensures PayloadsKept(m, m', bs, {bs[i]})
  {
    hide Writes, Tag, MergeWords, Header, PayloadsKept, Listed, AllListed;
    MergeHeaders(m, m', bs, i);
    MergePayloads(m, m', bs, i);
  }

  lemma MergedInLayout(m: seq<int>, bs: seq<Block>, lists: seq<seq<Block>>, i: nat)
    requires Releasable(m, bs, lists, i)
    ensures var l, x := Detached(bs, lists, i), Merged(bs, i);
            var t := Splice(bs, MergeLo(bs, i), MergeHi(bs, i), [x]);
            && Tiled(t) && Coalesced(t) && Listed(t, l) && Listed(bs, l) && x in t && t[|t| - 1] == bs[|bs| - 1]
            && MergeHi(bs, i) < |bs| && bs[MergeHi(bs, i)] in t
            && FreeAddrs(t) <= FreeAddrs(bs) + {bs[i].addr}
            && forall d :: 0 <= d < CELLS ==> x !in l[d]
  {
    hide ClassOf, Tag, Header, LiveBytes, FreeAddrs, Splice, Listed, AllListed, Merged, Detached, Coalesced;
    MergeLayout(bs, i);
    MergedLists(bs, lists, i);
    MergedFacts(bs, i);
    MergedPlace(bs, i);
    MergedAddrs(bs, i);
  }

  lemma MergedLists(bs: seq<Block>, lists: seq<seq<Block>>, i: nat)
    requires Tiled(bs) && Coalesced(bs) && |lists| == CELLS && Listed(bs, lists) && AllListed(bs, lists, {})
    requires bs[|bs| - 1].addr <= FIRST + MAX_BLOCK - 8 && i < |bs| - 1 && !bs[i].free
    ensures var l, x := Detached(bs, lists, i), Merged(bs, i);
            && Listed(Splice(bs, MergeLo(bs, i), MergeHi(bs, i), [x]), l) && Listed(bs, l)
            && forall d :: 0 <= d < CELLS ==> x !in l[d]
  {
    hide ClassOf, LiveBytes, Splice, Listed, AllListed, Detached;
    MergedFacts(bs, i);
    DetachedListed(bs, lists, i);
    MergedUnlisted(bs, Detached(bs, lists, i), MergeLo(bs, i), MergeHi(bs, i), Merged(bs, i), Near(bs, i));
  }

  lemma MergedPlace(bs: seq<Block>, i: nat)
    requires i < |bs| - 1 && MergeHi(bs, i) < |bs|
    ensures var t := Splice(bs, MergeLo(bs, i), MergeHi(bs, i), [Merged(bs, i)]);
            Merged(bs, i) in t && bs[MergeHi(bs, i)] in t
  {
    hide Merged;
    var lo, hi, x := MergeLo(bs, i), MergeHi(bs, i), Merged(bs, i);
    var t := Splice(bs, lo, hi, [x]);
    assert t[lo] == x && t[lo + 1] == bs[hi];
  }

  lemma MergedAddrs(bs: seq<Block>, i: nat)
    requires Chained(bs) && i < |bs| - 1 && MergeHi(bs, i) < |bs|
    ensures FreeAddrs(Splice(bs, MergeLo(bs, i), MergeHi(bs, i), [Merged(bs, i)])) <= FreeAddrs(bs) + {bs[i].addr}
  {
    var lo, hi, x := MergeLo(bs, i), MergeHi(bs, i), Merged(bs, i);
    var t := Splice(bs, lo, hi, [x]);
    assert lo < i ==> bs[lo] in bs && bs[lo].addr in FreeAddrs(bs);
    forall y | y in t && y.free ensures y.addr in FreeAddrs(bs) + {bs[i].addr} {
      SpliceMembers(bs, lo, hi, [x], y);
    }
  }

  lemma WritesTwo(m: seq<int>, m1: seq<int>, m2: seq<int>, A: set<int>, w: int, z: int)
    requires Frame(m, m1, A) && 0 <= w < |m1| && 0 <= z < |m1| && |m2| == |m1|
    requires m2 == m1[w := m2[w]][z := m2[z]]
    ensures Writes(m, m2, A, {w, z})
  {}

  // b's own words are marked free and unlinked (m1), then the neighbours are joined (m2)
  lemma WritesSoFar(m0: seq<int>, m1: seq<int>, m2: seq<int>, bs: seq<Block>, i: nat, v: int)
    requires i < |bs| - 1 && MergeHi(bs, i) < |bs| && bs[i].addr + 16 <= |m0| == |m1|
    requires m1 == m0[bs[i].addr + 4 := v][bs[i].addr + 8 := 0][bs[i].addr + 12 := 0]
    requires Writes(m1, m2, FreeAddrs(bs), {bs[i].addr + 4, Merged(bs, i).addr + 4})
    ensures Writes(m0, m2, FreeAddrs(bs) + {bs[i].addr}, MergeWords(bs, i))
  {
    hide FreeAddrs;
    var A, H := FreeAddrs(bs) + {bs[i].addr}, MergeWords(bs, i);
    assert Writes(m0, m1, A, H);
    WritesTrans(m0, m1, m2, A, H, FreeAddrs(bs), {bs[i].addr + 4, Merged(bs, i).addr + 4});
  }

  lemma ReleaseUnlisted(m: seq<int>, bs: seq<Block>, lists: seq<seq<Block>>, i: nat)
    requires Releasable(m, bs, lists, i)
    ensures |lists| == CELLS && forall c :: 0 <= c < CELLS ==> bs[i] !in lists[c]
  {
    hide ClassOf;
    forall c | 0 <= c < CELLS ensures bs[i] !in lists[c] { NotListed(bs, lists, bs[i], c); }
  }

  lemma NeighbourBit(m: seq<int>, bs: seq<Block>, lists: seq<seq<Block>>, i: nat) returns (q: bool)
    requires Releasable(m, bs, lists, i)
    ensures i + 1 < |bs| && bs[i + 1].addr + 4 < |m| && m[bs[i + 1].addr + 4] == Tag(bs[i + 1].size, bs[i + 1].free, q)
  {
    ReleaseSelf(m, bs, lists, i);
    q := m[bs[i + 1].addr + 4] == Tag(bs[i + 1].size, bs[i + 1].free, true);
  }

  lemma WritesTwice(m: seq<int>, m1: seq<int>, m2: seq<int>, A: set<int>, H1: set<int>, H2: set<int>, H: set<int>)
    requires Writes(m, m1, A, H1) && Writes(m1, m2, A, H2) && H1 <= H && H2 <= H
    ensures Writes(m, m2, A, H)
  {}

  // The left neighbour is still listed after the right one has been taken out
  lemma StillListed(bs: seq<Block>, lists: seq<seq<Block>>, i: nat)
    requires 0 < i && i + 1 < |bs| && |lists| == CELLS && bs[i - 1].size < MAX_BLOCK
    requires bs[i - 1] in lists[Cell(bs[i - 1].size)] && bs[i - 1] != bs[i + 1]
    ensures bs[i - 1] in (if bs[i + 1].free then Unlink(lists, bs[i + 1]) else lists)[Cell(bs[i - 1].size)]
  {
    var n, x := bs[i + 1], bs[i - 1];
    var c := ClassOf(n.size);
    if n.free && c < CELLS && n in lists[c] && c == Cell(x.size) {
      var s, k := lists[c], Index(lists[c], n);
      var j := Index(s, x);
      assert (s[..k] + s[k + 1..])[if j < k then j else j - 1] == x;
    }
  }

  // used_size of a valid heap is a 32-bit number
  lemma UsedFits(h: Heap)
    requires HeapModel.Valid(h)
    ensures 0 <= h.used < 0x1_0000_0000 && Word32(h.used) == h.used
  {
    LiveBytesBound(h.blocks);
    NoWrap(h.used);
  }

  lemma ReleasableValid(h: Heap, m: seq<int>, i: nat)
    requires HeapModel.Valid(h) && Headers(m, h.blocks) && i < |h.blocks| - 1 && Live(h.blocks, h.blocks[i])
    requires h.blocks[|h.blocks| - 1].addr + 8 <= |m|
    ensures Releasable(m, h.blocks, h.lists, i)
    ensures h.blocks[i].addr + 16 <= |m|
  {
    assert Header(m, h.blocks, i + 1);
    ValidParts(h);
    assert Adjacent(h.blocks, i);
    Apart(h.blocks, i, |h.blocks| - 1);
  }

  // The header after the joined block is not touched by the joins
  lemma EndKept(m0: seq<int>, m1: seq<int>, m2: seq<int>, bs: seq<Block>, i: nat, v: int)
    requires Tiled(bs) && i < |bs| - 1 && MergeHi(bs, i) < |bs| && bs[i].addr + 16 <= |m0| == |m1|
    requires m1 == m0[bs[i].addr + 4 := v][bs[i].addr + 8 := 0][bs[i].addr + 12 := 0]
    requires Writes(m1, m2, FreeAddrs(bs), {bs[i].addr + 4, Merged(bs, i).addr + 4})
    requires bs[MergeHi(bs, i)].addr + 8 <= |m0|
    ensures |m2| == |m0| && m2[bs[MergeHi(bs, i)].addr + 4] == m0[bs[MergeHi(bs, i)].addr + 4]
  {
    hide FreeAddrs, Writes;
    var lo, hi := MergeLo(bs, i), MergeHi(bs, i);
    Apart(bs, i, hi);
    if lo < i { Apart(bs, lo, hi); }
    WritesHeader(m1, m2, bs, {bs[i].addr + 4, Merged(bs, i).addr + 4}, bs[hi]);
  }

  lemma KeptNone(m: seq<int>, bs: seq<Block>)
    ensures PayloadsKept(m, m, bs, {})
  {}

  // ---- a fresh pool ------------------------------------------------------------------------

  ghost function Empty(): (l: seq<seq<Block>>)
    ensures |l| == CELLS && forall c :: 0 <= c < CELLS ==> l[c] == []
  {
    seq(CELLS, _ => [])
  }

  lemma NothingLinked(m: seq<int>, matrix: seq<int>)
    requires |matrix| == CELLS && forall c :: 0 <= c < CELLS ==> matrix[c] == 0
    ensures Linked(m, matrix, Empty())
  {
    forall c | 0 <= c < CELLS ensures Chain(m, matrix[c], Empty()[c]) {}
  }

  ghost function AreaBlocks(pool: nat): seq<Block>
    requires MIN_POOL <= pool
  {
    [Block(FIRST, InitSize(pool), false), Sentinel(pool)]
  }

  lemma AreaReleasable(pool: nat, m: seq<int>)
    requires MIN_POOL <= pool <= MAX_POOL && |m| == pool
    requires FIRST + 16 + InitSize(pool) <= pool
    requires m[FIRST + 4] == InitSize(pool)
    requires m[FIRST + 12 + InitSize(pool)] == 2
    ensures Tiled(AreaBlocks(pool)) && Releasable(m, AreaBlocks(pool), Empty(), 0)
    ensures Listed(AreaBlocks(pool), Empty())
  {
    hide ClassOf;
    var bs := AreaBlocks(pool);
    assert Adjacent(bs, 0);
    assert !BothFree(bs, 0);
    assert Header(m, bs, 0);
  }

  lemma AreaFreed(pool: nat)
    requires MIN_POOL <= pool <= MAX_POOL
    ensures var bs := AreaBlocks(pool);
            && Merged(bs, 0) == Block(FIRST, InitSize(pool), true) && MergeLo(bs, 0) == 0 && MergeHi(bs, 0) == 1
            && Splice(bs, 0, 1, [Merged(bs, 0)]) == Init(pool).blocks
            && Push(Detached(bs, Empty(), 0), Merged(bs, 0)) == Init(pool).lists
  {
    hide ClassOf;
    var bs := AreaBlocks(pool);
    assert Empty() == seq(CELLS, _ => []);
  }

  lemma EmptyLists()
    ensures |Empty()| == CELLS && forall c :: 0 <= c < CELLS ==> Empty()[c] == []
  {}

  lemma InitHeader(pool: nat, m: seq<int>)
    requires MIN_POOL <= pool <= MAX_POOL && Headers(m, Init(pool).blocks)
    ensures FIRST + 4 < |m| && m[FIRST + 4] >= 0 && SizeOf(m[FIRST + 4]) == InitSize(pool)
  {
    hide Push;
    var bs := Init(pool).blocks;
    assert Header(m, bs, 0);
    TagFields(InitSize(pool), true, false);
  }

  lemma TakeableFree(m: seq<int>, matrix: seq<int>, bs: seq<Block>, lists: seq<seq<Block>>, i: nat)
    requires Takeable(m, matrix, bs, lists, i)
    ensures i < |bs| - 1 && bs[i].free && bs[i].size < MAX_BLOCK && |lists| == CELLS
    ensures forall d :: 0 <= d < CELLS ==> bs[i] !in lists[d]
  {}

  // What joining the neighbours of block i, whose size word is marked free, relies on
  ghost predicate Joinable(m: seq<int>, bs: seq<Block>, lists: seq<seq<Block>>, i: nat, p: bool, q: bool)
  {
    && |lists| == CELLS && i < |bs| - 1 && p == PrevFree(bs, i)
    && (var b, n := bs[i], bs[i + 1];
        && n.addr == b.addr + 8 + b.size && n.addr + 8 <= |m| && b.size % 8 == 0 && n.size % 8 == 0
        && m[b.addr + 4] == Tag(b.size, true, p) && m[n.addr + 4] == Tag(n.size, n.free, q)
        && (n.free ==> n.size < MAX_BLOCK && ClassOf(n.size) == Cell(n.size) && n in lists[Cell(n.size)]))
    && (p ==> var x, b := bs[i - 1], bs[i];
        && x.addr + 16 <= b.addr && x.size % 8 == 0
        && m[b.addr] == x.addr && m[x.addr + 4] == Tag(x.size, true, false)
        && x.size < MAX_BLOCK && ClassOf(x.size) == Cell(x.size) && x in lists[Cell(x.size)] && x != bs[i + 1])
  }

  lemma MarkedJoinable(m: seq<int>, m1: seq<int>, bs: seq<Block>, lists: seq<seq<Block>>, i: nat) returns (q: bool)
    requires i < |bs| - 1 && bs[i].addr + 16 <= |m| && Releasable(m, bs, lists, i)
    requires m1 == m[bs[i].addr + 4 := Tag(bs[i].size, true, PrevFree(bs, i))]
                   [bs[i].addr + 8 := 0][bs[i].addr + 12 := 0]
    ensures Joinable(m1, bs, lists, i, PrevFree(bs, i), q)
  {
    hide Releasable, Tag, Cell, ClassOf;
    ReleaseSelf(m, bs, lists, i);
    ReleaseUnlisted(m, bs, lists, i);
    if PrevFree(bs, i) { ReleasePrev(m, bs, lists, i); }
    q := NeighbourBit(m, bs, lists, i);
  }

  // Header words after the right neighbour has been joined
  lemma LeftWords(m: seq<int>, m1: seq<int>, bs: seq<Block>, lists: seq<seq<Block>>, i: nat, p: bool, q: bool)
    requires Joinable(m, bs, lists, i, p, q) && Tiled(bs) && Writes(m, m1, FreeAddrs(bs), {bs[i].addr + 4})
    ensures |m1| == |m|
    ensures p ==> i > 0 && bs[i - 1].addr + 16 <= bs[i].addr
    ensures p ==> m1[bs[i].addr] == bs[i - 1].addr && m1[bs[i - 1].addr + 4] == Tag(bs[i - 1].size, true, false)
  {
    hide Writes, FreeAddrs, Tag, Tiled;
    WritesHeader(m, m1, bs, {bs[i].addr + 4}, bs[i]);
    if p { WritesHeader(m, m1, bs, {bs[i].addr + 4}, bs[i - 1]); }
  }

  // The left neighbour as JoinPrev needs it
  lemma LeftFacts(m: seq<int>, bs: seq<Block>, lists: seq<seq<Block>>, i: nat, p: bool, q: bool)
    requires Joinable(m, bs, lists, i, p, q)
    ensures |lists| == CELLS && i < |bs| - 1 && p == PrevFree(bs, i) && bs[i].addr + 8 <= |m|
    ensures RightSize(bs, i) % 8 == 0
    ensures var l := if bs[i + 1].free then Unlink(lists, bs[i + 1]) else lists;
            p ==>
              var x := bs[i - 1];
              x.size % 8 == 0 && x.size < MAX_BLOCK && ClassOf(x.size) == Cell(x.size) && x in l[Cell(x.size)]
  {
    hide Tag, ClassOf, Cell, Unlink;
    if p { LeftListed(m, bs, lists, i, p, q); }
  }

  lemma LeftListed(m: seq<int>, bs: seq<Block>, lists: seq<seq<Block>>, i: nat, p: bool, q: bool)
    requires Joinable(m, bs, lists, i, p, q) && p
    ensures var l := if bs[i + 1].free then Unlink(lists, bs[i + 1]) else lists;
            bs[i - 1] in l[Cell(bs[i - 1].size)]
  {
    hide Tag, ClassOf, Cell, Unlink;
    StillListed(bs, lists, i);
  }

  lemma TakenOut(lists: seq<seq<Block>>, x: Block, c: nat)
    requires |lists| == CELLS && c < CELLS && ClassOf(x.size) == c && x in lists[c]
    ensures var k := Index(lists[c], x); Unlink(lists, x) == lists[c := lists[c][..k] + lists[c][k + 1..]]
  {}
}
