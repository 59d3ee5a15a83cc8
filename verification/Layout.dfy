// The physical layout of a pool: a sequence of blocks, each behind an 8-byte header, ending with a
// sentinel of size 0.
module Layout {
  import opened SizeClass

  const FIRST := 648

  datatype Block = Block(addr: nat, size: nat, free: bool)
  {
    function End(): nat { addr + 8 + size }
  }

  ghost predicate Adjacent(bs: seq<Block>, i: nat)
    requires i + 1 < |bs|
  {
    && bs[i + 1].addr == bs[i].End()
    && bs[i].size % 8 == 0
    && 8 <= bs[i].size < MAX_BLOCK
  }

  ghost predicate Chained(bs: seq<Block>)
  {
    forall i :: 0 <= i < |bs| - 1 ==> Adjacent(bs, i)
  }

  ghost predicate Tiled(bs: seq<Block>)
  {
    && |bs| >= 2
    && bs[0].addr == FIRST
    && Chained(bs)
    && bs[|bs| - 1].size == 0 && !bs[|bs| - 1].free
  }

  ghost predicate BothFree(bs: seq<Block>, i: nat)
    requires i + 1 < |bs|
  {
    bs[i].free && bs[i + 1].free
  }

  ghost predicate Coalesced(bs: seq<Block>)
  {
    forall i :: 0 <= i < |bs| - 1 ==> !BothFree(bs, i)
  }

  ghost function LiveBytes(bs: seq<Block>): nat
  {
    if bs == [] then 0
    else (if bs[0].free || bs[0].size == 0 then 0 else bs[0].size + 8) + LiveBytes(bs[1..])
  }

  lemma {:induction false} LiveBytesConcat(a: seq<Block>, b: seq<Block>)
    ensures LiveBytes(a + b) == LiveBytes(a) + LiveBytes(b)
  {
    if a == [] {
      assert a + b == b;
    } else {
      assert (a + b)[1..] == a[1..] + b;
      LiveBytesConcat(a[1..], b);
    }
  }

  // Blocks do not overlap
  lemma {:induction false} Apart(bs: seq<Block>, i: nat, j: nat)
    requires Chained(bs) && i < j < |bs|
    ensures bs[i].End() <= bs[j].addr && 8 <= bs[i].size < MAX_BLOCK && bs[i].size % 8 == 0
    decreases j
  {
    assert Adjacent(bs, j - 1);
    if i < j - 1 {
      Apart(bs, i, j - 1);
    }
  }

  lemma {:induction false} Aligned(bs: seq<Block>, i: nat)
    requires Tiled(bs) && i < |bs|
    ensures bs[i].addr % 8 == 0 && FIRST <= bs[i].addr
  {
    if i > 0 {
      assert Adjacent(bs, i - 1);
      Aligned(bs, i - 1);
    }
  }

  lemma SameAddr(bs: seq<Block>, x: Block, y: Block)
    requires Chained(bs) && x in bs && y in bs && x.addr == y.addr
    ensures x == y
  {
    var i :| 0 <= i < |bs| && bs[i] == x;
    var j :| 0 <= j < |bs| && bs[j] == y;
    if i < j { Apart(bs, i, j); }
    if j < i { Apart(bs, j, i); }
  }

  // Replacing the blocks lo..hi by seg
  ghost function Splice(bs: seq<Block>, lo: nat, hi: nat, seg: seq<Block>): seq<Block>
    requires lo <= hi <= |bs|
  {
    bs[..lo] + seg + bs[hi..]
  }

  // seg covers exactly the bytes of the blocks lo..hi
  ghost predicate Covers(bs: seq<Block>, lo: nat, hi: nat, seg: seq<Block>)
  {
    && lo < hi < |bs| && |seg| >= 1
    && Chained(seg)
    && seg[0].addr == bs[lo].addr
    && seg[|seg| - 1].End() == bs[hi].addr
    && seg[|seg| - 1].size % 8 == 0 && 8 <= seg[|seg| - 1].size < MAX_BLOCK
  }

  lemma SpliceTiled(bs: seq<Block>, lo: nat, hi: nat, seg: seq<Block>)
    requires Tiled(bs) && Covers(bs, lo, hi, seg)
    ensures Tiled(Splice(bs, lo, hi, seg))
    ensures Splice(bs, lo, hi, seg)[|Splice(bs, lo, hi, seg)| - 1] == bs[|bs| - 1]
  {
    var t := Splice(bs, lo, hi, seg);
    forall i | 0 <= i < |t| - 1 ensures Adjacent(t, i) {
      if i < lo {
        assert Adjacent(bs, i);
      } else if i < lo + |seg| - 1 {
        assert Adjacent(seg, i - lo);
      } else if i >= lo + |seg| {
        assert Adjacent(bs, i - lo - |seg| + hi);
      }
    }
  }

  lemma SpliceCoalesced(bs: seq<Block>, lo: nat, hi: nat, seg: seq<Block>)
    requires Coalesced(bs) && lo < hi < |bs| && |seg| >= 1
    requires Coalesced(seg)
    requires lo > 0 ==> !(bs[lo - 1].free && seg[0].free)
    requires !(bs[hi].free && seg[|seg| - 1].free)
    ensures Coalesced(Splice(bs, lo, hi, seg))
  {
    var t := Splice(bs, lo, hi, seg);
    forall i | 0 <= i < |t| - 1 ensures !BothFree(t, i) {
      if i < lo {
        if i < lo - 1 { assert !BothFree(bs, i); }
      } else if i < lo + |seg| - 1 {
        assert !BothFree(seg, i - lo);
      } else if i >= lo + |seg| {
        assert !BothFree(bs, i - lo - |seg| + hi);
      }
    }
  }

  lemma SpliceLiveBytes(bs: seq<Block>, lo: nat, hi: nat, seg: seq<Block>)
    requires lo <= hi <= |bs|
    ensures LiveBytes(Splice(bs, lo, hi, seg)) + LiveBytes(bs[lo..hi]) == LiveBytes(bs) + LiveBytes(seg)
  {
    LiveBytesConcat(bs[..lo] + seg, bs[hi..]);
    LiveBytesConcat(bs[..lo], seg);
    LiveBytesConcat(bs[..lo] + bs[lo..hi], bs[hi..]);
    LiveBytesConcat(bs[..lo], bs[lo..hi]);
    assert bs == bs[..lo] + bs[lo..hi] + bs[hi..];
  }

  lemma SpliceMembers(bs: seq<Block>, lo: nat, hi: nat, seg: seq<Block>, x: Block)
    requires Chained(bs) && lo <= hi <= |bs|
    ensures x in Splice(bs, lo, hi, seg) <==> x in seg || (x in bs && x !in bs[lo..hi])
  {
    assert forall i :: lo <= i < hi ==> bs[lo..hi][i - lo] == bs[i];
    assert forall i :: lo <= i < hi ==> bs[i] in bs[lo..hi];
    if x in bs && x !in bs[lo..hi] {
      var i :| 0 <= i < |bs| && bs[i] == x;
      assert i < lo ==> bs[..lo][i] == x;
      assert i >= hi ==> bs[hi..][i - hi] == x;
    }
    if x in bs[..lo] && x in bs[lo..hi] {
      var i :| 0 <= i < lo && bs[..lo][i] == x;
      var j :| 0 <= j < hi - lo && bs[lo..hi][j] == x;
      Apart(bs, i, lo + j);
    }
    if x in bs[hi..] && x in bs[lo..hi] {
      var i :| 0 <= i < |bs| - hi && bs[hi..][i] == x;
      var j :| 0 <= j < hi - lo && bs[lo..hi][j] == x;
      Apart(bs, lo + j, hi + i);
    }
  }

  ghost predicate Live(bs: seq<Block>, x: Block)
  {
    x in bs && !x.free && x.size > 0
  }

  lemma SizeZero(bs: seq<Block>, i: nat)
    requires Tiled(bs) && i < |bs|
    ensures bs[i].size == 0 <==> i == |bs| - 1
  {
    if i < |bs| - 1 { assert Adjacent(bs, i); }
  }

  // One step of LayoutUnique: equal prefixes are followed by equal blocks
  lemma SameNext(a: seq<Block>, b: seq<Block>, k: nat)
    requires Tiled(a) && Tiled(b) && Coalesced(a) && Coalesced(b)
    requires a[|a| - 1] == b[|b| - 1]
    requires forall x :: Live(a, x) <==> Live(b, x)
    requires k < |a| && k < |b| && a[..k] == b[..k]
    ensures a[k] == b[k]
  {
    SizeZero(a, k);
    SizeZero(b, k);
    if k > 0 {
      assert a[..k][k - 1] == b[..k][k - 1];
      assert Adjacent(a, k - 1) && Adjacent(b, k - 1);
    }
    if !a[k].free {
      assert a[k].size > 0 ==> Live(a, a[k]);
      SameAddr(b, a[k], b[k]);
    } else if !b[k].free {
      assert b[k].size > 0 ==> Live(b, b[k]);
      SameAddr(a, a[k], b[k]);
    } else {
      FreeFits(a, b, k);
      FreeFits(b, a, k);
    }
  }

  lemma FreeFits(a: seq<Block>, b: seq<Block>, k: nat)
    requires Tiled(a) && Tiled(b) && Coalesced(a)
    requires a[|a| - 1] == b[|b| - 1]
    requires forall x :: Live(a, x) ==> Live(b, x)
    requires k < |a| - 1 && k < |b| - 1 && a[k].free && b[k].free && a[k].addr == b[k].addr
    ensures b[k].size <= a[k].size
  {
    assert Adjacent(a, k) && !BothFree(a, k);
    SizeZero(a, k + 1);
    var x := a[k + 1];
    assert k + 1 < |a| - 1 ==> Live(a, x);
    assert x in b;
    var j :| 0 <= j < |b| && b[j] == x;
    if j > k {
      Apart(b, k, j);
    } else if j < k {
      Apart(b, j, k);
    }
  }

  // The physical layout is a function of the live blocks alone
  lemma {:induction false} LayoutUnique(a: seq<Block>, b: seq<Block>, k: nat)
    requires Tiled(a) && Tiled(b) && Coalesced(a) && Coalesced(b)
    requires a[|a| - 1] == b[|b| - 1]
    requires forall x :: Live(a, x) <==> Live(b, x)
    requires k <= |a| && k <= |b| && a[..k] == b[..k]
    ensures a == b
    decreases |a| - k
  {
    if k < |a| && k < |b| {
      SameNext(a, b, k);
      assert a[..k + 1] == a[..k] + [a[k]] && b[..k + 1] == b[..k] + [b[k]];
      LayoutUnique(a, b, k + 1);
    } else if k > 0 {
      assert a[..k][k - 1] == b[..k][k - 1];
      SizeZero(a, k - 1);
      SizeZero(b, k - 1);
      assert a == a[..k] && b == b[..k];
    }
  }

  // Live blocks take no more than the area
  lemma {:induction false} LiveBytesBound(bs: seq<Block>)
    requires Chained(bs) && |bs| > 0 && bs[|bs| - 1].size == 0
    ensures bs[0].addr + LiveBytes(bs) <= bs[|bs| - 1].addr
  {
    if |bs| > 1 {
      assert Adjacent(bs, 0);
      forall i | 0 <= i < |bs[1..]| - 1 ensures Adjacent(bs[1..], i) {
        assert Adjacent(bs, i + 1);
      }
      LiveBytesBound(bs[1..]);
    } else {
      assert bs[1..] == [];
    }
  }
}
