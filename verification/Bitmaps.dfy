// The two-level bitmap against the free lists: a bit is set exactly for a non-empty list, a row bit
// exactly for a row that holds one.
module Bitmaps {
  import opened Bits
  import opened SizeClass
  import opened Layout
  import opened HeapModel

  ghost predicate NonEmpty(lists: seq<seq<Block>>, f: nat, s: nat)
    requires |lists| == CELLS
  {
    f < REAL_FLI && s < MAX_SLI && lists[f * MAX_SLI + s] != []
  }

  // Bit s of word f says whether class (f, s) is non-empty; bit f of fl whether row f is
  ghost predicate Agree(fl: bv32, sl: seq<bv32>, lists: seq<seq<Block>>)
    requires |lists| == CELLS
  {
    && |sl| == REAL_FLI
    && (forall f, s :: 0 <= f < REAL_FLI && 0 <= s < 32 ==> Bit(sl[f], s) == NonEmpty(lists, f, s))
    && (forall f :: 0 <= f < 32 ==> Bit(fl, f) == (f < REAL_FLI && sl[f] != 0))
  }

  lemma CellParts(f: nat, s: nat, f': nat, s': nat)
    requires s < MAX_SLI && s' < MAX_SLI && f * MAX_SLI + s == f' * MAX_SLI + s'
    ensures f == f' && s == s'
  {}

  lemma SetAgrees(fl: bv32, sl: seq<bv32>, lists: seq<seq<Block>>, f: nat, s: nat, x: seq<Block>)
    requires |lists| == CELLS && Agree(fl, sl, lists) && f < REAL_FLI && s < MAX_SLI && x != []
    ensures Agree(SetBit(fl, f), sl[f := SetBit(sl[f], s)], lists[f * MAX_SLI + s := x])
  {
    hide Bit, SetBit;
    var lists' := lists[f * MAX_SLI + s := x];
    var sl' := sl[f := SetBit(sl[f], s)];
    forall g, t | 0 <= g < REAL_FLI && 0 <= t < 32 ensures Bit(sl'[g], t) == NonEmpty(lists', g, t) {
      SetBitAt(sl[f], s, t);
    }
    SetBitAt(sl[f], s, s);
    ZeroBits(s);
    forall g | 0 <= g < 32 ensures Bit(SetBit(fl, f), g) == (g < REAL_FLI && sl'[g] != 0) {
      SetBitAt(fl, f, g);
    }
  }

  lemma ClearAgrees(fl: bv32, sl: seq<bv32>, lists: seq<seq<Block>>, f: nat, s: nat)
    requires |lists| == CELLS && Agree(fl, sl, lists) && f < REAL_FLI && s < MAX_SLI
    ensures var w := ClearBit(sl[f], s);
            Agree(if w == 0 then ClearBit(fl, f) else fl, sl[f := w], lists[f * MAX_SLI + s := []])
  {
    hide Bit, ClearBit;
    var lists' := lists[f * MAX_SLI + s := []];
    var w := ClearBit(sl[f], s);
    var sl' := sl[f := w];
    var fl' := if w == 0 then ClearBit(fl, f) else fl;
    forall g, t | 0 <= g < REAL_FLI && 0 <= t < 32 ensures Bit(sl'[g], t) == NonEmpty(lists', g, t) {
      ClearBitAt(sl[f], s, t);
    }
    forall g | 0 <= g < 32 ensures Bit(fl', g) == (g < REAL_FLI && sl'[g] != 0) {
      ClearBitAt(fl, f, g);
      if g == f && w != 0 {
        LsIndexOf(w);
        var t := LsIndex(w);
        ClearBitAt(sl[f], s, t);
        ZeroBits(t);
      }
    }
  }

  // A list that stays non-empty leaves the bitmaps right
  lemma KeepAgrees(fl: bv32, sl: seq<bv32>, lists: seq<seq<Block>>, f: nat, s: nat, x: seq<Block>)
    requires |lists| == CELLS && Agree(fl, sl, lists) && f < REAL_FLI && s < MAX_SLI && x != []
    requires lists[f * MAX_SLI + s] != []
    ensures Agree(fl, sl, lists[f * MAX_SLI + s := x])
  {
    hide Bit;
    var lists' := lists[f * MAX_SLI + s := x];
    forall g, t | 0 <= g < REAL_FLI && 0 <= t < 32 ensures Bit(sl[g], t) == NonEmpty(lists', g, t) {
      if g == f && t < MAX_SLI && g * MAX_SLI + t == f * MAX_SLI + s { CellParts(f, s, g, t); }
    }
  }

  lemma FirstUnique(lists: seq<seq<Block>>, c: nat, d: nat)
    requires |lists| == CELLS && c <= d < CELLS && lists[d] != []
    requires forall k :: c <= k < d ==> lists[k] == []
    ensures FirstNonEmpty(lists, c) == d
  {}

  lemma NoneUnique(lists: seq<seq<Block>>, c: nat)
    requires |lists| == CELLS && c <= CELLS
    requires forall k :: c <= k < CELLS ==> lists[k] == []
    ensures FirstNonEmpty(lists, c) == CELLS
  {}

  lemma CellSplit(k: nat) returns (f: nat, s: nat)
    requires k < CELLS
    ensures f < REAL_FLI && s < MAX_SLI && k == f * MAX_SLI + s
  {
    f, s := k / MAX_SLI, k % MAX_SLI;
  }

  // A suitable class in the row itself
  lemma FoundInRow(fl: bv32, sl: seq<bv32>, lists: seq<seq<Block>>, f: nat, s: nat)
    requires |lists| == CELLS && Agree(fl, sl, lists) && f < REAL_FLI && s < MAX_SLI
    requires FromBit(sl[f], s) != 0
    ensures var t := LsIndex(FromBit(sl[f], s));
            t < MAX_SLI && lists[f * MAX_SLI + t] != [] && FirstNonEmpty(lists, f * MAX_SLI + s) == f * MAX_SLI + t
  {
    hide Bit, FromBit, LsIndex, FirstNonEmpty;
    var w := FromBit(sl[f], s);
    var t := LsIndex(w);
    LsIndexOf(w);
    FromBitAt(sl[f], s, t);
    assert NonEmpty(lists, f, t);
    forall k | f * MAX_SLI + s <= k < f * MAX_SLI + t ensures lists[k] == [] {
      var u := k - f * MAX_SLI;
      FromBitAt(sl[f], s, u);
      assert !NonEmpty(lists, f, u);
    }
    FirstUnique(lists, f * MAX_SLI + s, f * MAX_SLI + t);
  }

  // Otherwise the first class of the next non-empty row, if there is one
  lemma FoundBelow(fl: bv32, sl: seq<bv32>, lists: seq<seq<Block>>, f: nat, s: nat)
    requires |lists| == CELLS && Agree(fl, sl, lists) && f < REAL_FLI && s < MAX_SLI
    requires FromBit(sl[f], s) == 0
    ensures var g := LsIndex(FromBit(fl, f + 1));
            if g > 0 then
              && f < g < REAL_FLI && LsIndex(sl[g]) < MAX_SLI
              && lists[g * MAX_SLI + LsIndex(sl[g])] != []
              && FirstNonEmpty(lists, f * MAX_SLI + s) == g * MAX_SLI + LsIndex(sl[g])
            else FirstNonEmpty(lists, f * MAX_SLI + s) == CELLS
  {
    hide Bit, FromBit, LsIndex, FirstNonEmpty, Agree;
    RowEmpty(fl, sl, lists, f, s);
    if FromBit(fl, f + 1) == 0 {
      LsIndexZero();
      NoRowBelow(fl, sl, lists, f, s);
    } else {
      RowBelow(fl, sl, lists, f, s);
    }
  }

  lemma NoRowBelow(fl: bv32, sl: seq<bv32>, lists: seq<seq<Block>>, f: nat, s: nat)
    requires |lists| == CELLS && Agree(fl, sl, lists) && f < REAL_FLI && s < MAX_SLI
    requires forall k :: f * MAX_SLI + s <= k < f * MAX_SLI + MAX_SLI ==> lists[k] == []
    requires FromBit(fl, f + 1) == 0
    ensures FirstNonEmpty(lists, f * MAX_SLI + s) == CELLS
  {
    hide Bit, FromBit, FirstNonEmpty;
    forall k | f * MAX_SLI + s <= k < CELLS ensures lists[k] == [] {
      var g, t := CellSplit(k);
      if g > f {
        FromBitAt(fl, f + 1, g);
        ZeroBits(g);
        EmptyRow(fl, sl, lists, g, t);
      }
    }
    NoneUnique(lists, f * MAX_SLI + s);
  }

  lemma RowBelow(fl: bv32, sl: seq<bv32>, lists: seq<seq<Block>>, f: nat, s: nat)
    requires |lists| == CELLS && Agree(fl, sl, lists) && f < REAL_FLI && s < MAX_SLI
    requires forall k :: f * MAX_SLI + s <= k < f * MAX_SLI + MAX_SLI ==> lists[k] == []
    requires FromBit(fl, f + 1) != 0
    ensures var g := LsIndex(FromBit(fl, f + 1));
            && f < g < REAL_FLI && LsIndex(sl[g]) < MAX_SLI && lists[g * MAX_SLI + LsIndex(sl[g])] != []
            && FirstNonEmpty(lists, f * MAX_SLI + s) == g * MAX_SLI + LsIndex(sl[g])
  {
    hide Bit, FromBit, LsIndex, FirstNonEmpty;
    var w := FromBit(fl, f + 1);
    var g := LsIndex(w);
    LsIndexOf(w);
    FromBitAt(fl, f + 1, g);
    var t := LsIndex(sl[g]);
    LsIndexOf(sl[g]);
    assert NonEmpty(lists, g, t);
    forall k | f * MAX_SLI + s <= k < g * MAX_SLI + t ensures lists[k] == [] {
      var g', t' := CellSplit(k);
      if f < g' < g {
        FromBitAt(fl, f + 1, g');
        EmptyRow(fl, sl, lists, g', t');
      } else if g' == g {
        assert !NonEmpty(lists, g, t');
      }
    }
    FirstUnique(lists, f * MAX_SLI + s, g * MAX_SLI + t);
  }

  lemma RowEmpty(fl: bv32, sl: seq<bv32>, lists: seq<seq<Block>>, f: nat, s: nat)
    requires |lists| == CELLS && Agree(fl, sl, lists) && f < REAL_FLI && s < MAX_SLI
    requires FromBit(sl[f], s) == 0
    ensures forall k :: f * MAX_SLI + s <= k < f * MAX_SLI + MAX_SLI ==> lists[k] == []
  {
    hide Bit, FromBit;
    forall k | f * MAX_SLI + s <= k < f * MAX_SLI + MAX_SLI ensures lists[k] == [] {
      var u := k - f * MAX_SLI;
      FromBitAt(sl[f], s, u);
      ZeroBits(u);
      assert !NonEmpty(lists, f, u);
    }
  }

  lemma EmptyRow(fl: bv32, sl: seq<bv32>, lists: seq<seq<Block>>, g: nat, t: nat)
    requires |lists| == CELLS && Agree(fl, sl, lists) && g < REAL_FLI && t < MAX_SLI
    requires !Bit(fl, g) || sl[g] == 0
    ensures lists[g * MAX_SLI + t] == []
  {
    hide Bit;
    assert sl[g] == 0;
    ZeroBits(t);
    assert !NonEmpty(lists, g, t);
  }

  lemma LsIndexZero()
    ensures LsIndex(0) == 0
  {}

  lemma NothingAgrees(fl: bv32, sl: seq<bv32>, lists: seq<seq<Block>>)
    requires |lists| == CELLS && forall c :: 0 <= c < CELLS ==> lists[c] == []
    requires fl == 0 && |sl| == REAL_FLI && forall f :: 0 <= f < REAL_FLI ==> sl[f] == 0
    ensures Agree(fl, sl, lists)
  {
    hide Bit;
    forall f | 0 <= f < 32 ensures !Bit(0, f) { ZeroBits(f); }
  }

  // The lists determine the bitmaps
  lemma AgreeUnique(fl: bv32, sl: seq<bv32>, fl': bv32, sl': seq<bv32>, lists: seq<seq<Block>>)
    requires |lists| == CELLS && Agree(fl, sl, lists) && Agree(fl', sl', lists)
    ensures fl == fl' && sl == sl'
  {
    hide Bit, NonEmpty;
    forall f | 0 <= f < REAL_FLI ensures sl[f] == sl'[f] {
      forall s | 0 <= s < 32 ensures Bit(sl[f], s) == Bit(sl'[f], s) {
        assert Bit(sl[f], s) == NonEmpty(lists, f, s);
      }
      SameBits(sl[f], sl'[f]);
    }
    SameBits(fl, fl');
  }
}
