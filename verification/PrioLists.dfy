// A set of priorities as a two-level bitmap.
module PrioLists {
  import opened Bits

  // Greatest element, 0 for the empty set
  ghost function Top(s: set<nat>): (m: nat)
    ensures s == {} ==> m == 0
    ensures s != {} ==> m in s && forall p :: p in s ==> p <= m
  {
    if s == {} then 0
    else
      var x :| x in s;
      var m := Top(s - {x});
      assert s == (s - {x}) + {x};
      if x > m then x else if s - {x} == {} then x else m
  }

  lemma TopIs(s: set<nat>, m: nat)
    requires m in s && forall p :: p in s ==> p <= m
    ensures Top(s) == m
  {}

  const MAX_TASKS := 256

  // The bits of the words are the members of s
  ghost predicate Rows(tbl: seq<bv32>, s: set<nat>)
  {
    forall x, y :: 0 <= x < |tbl| && 0 <= y < 32 ==> Bit(tbl[x], y) == (32 * x + y in s)
  }

  // The bits of the group word are the non-zero words
  ghost predicate Groups(grp: bv32, tbl: seq<bv32>)
  {
    forall x :: 0 <= x < 32 ==> Bit(grp, x) == (x < |tbl| && tbl[x] != 0)
  }

  lemma RowsSet(tbl: seq<bv32>, s: set<nat>, x: nat, y: nat)
    requires Rows(tbl, s) && x < |tbl| && y < 32
    ensures Rows(tbl[x := SetBit(tbl[x], y)], s + {32 * x + y})
  {
    hide Bit, SetBit;
    forall j | 0 <= j < 32 ensures Bit(SetBit(tbl[x], y), j) == (Bit(tbl[x], j) || j == y) {
      SetBitAt(tbl[x], y, j);
    }
  }

  lemma RowsCleared(tbl: seq<bv32>, s: set<nat>, x: nat, y: nat)
    requires Rows(tbl, s) && x < |tbl| && y < 32
    ensures Rows(tbl[x := ClearBit(tbl[x], y)], s - {32 * x + y})
  {
    hide Bit, ClearBit;
    forall j | 0 <= j < 32 ensures Bit(ClearBit(tbl[x], y), j) == (Bit(tbl[x], j) && j != y) {
      ClearBitAt(tbl[x], y, j);
    }
  }

  lemma GroupsSet(grp: bv32, tbl: seq<bv32>, x: nat, y: nat)
    requires Groups(grp, tbl) && x < |tbl| && x < 32 && y < 32
    ensures Groups(SetBit(grp, x), tbl[x := SetBit(tbl[x], y)])
  {
    hide Bit, SetBit;
    SetBitAt(tbl[x], y, y);
    ZeroBits(y);
    forall j | 0 <= j < 32 ensures Bit(SetBit(grp, x), j) == (Bit(grp, j) || j == x) {
      SetBitAt(grp, x, j);
    }
  }

  lemma GroupsCleared(grp: bv32, tbl: seq<bv32>, x: nat, y: nat)
    requires Groups(grp, tbl) && x < |tbl| && x < 32 && y < 32
    ensures var w := ClearBit(tbl[x], y); Groups(if w == 0 then ClearBit(grp, x) else grp, tbl[x := w])
  {
    hide Bit, ClearBit;
    ClearKeeps(tbl[x], y);
    forall j | 0 <= j < 32 ensures Bit(ClearBit(grp, x), j) == (Bit(grp, j) && j != x) {
      ClearBitAt(grp, x, j);
    }
  }

  // A word left with a bit had one before
  lemma ClearKeeps(w: bv32, y: nat)
    requires y < 32
    ensures ClearBit(w, y) != 0 ==> w != 0
  {
    hide Bit, ClearBit;
    if ClearBit(w, y) != 0 {
      LsIndexOf(ClearBit(w, y));
      var t := LsIndex(ClearBit(w, y));
      ClearBitAt(w, y, t);
      ZeroBits(t);
    }
  }

  class PrioList {
    const n: nat
    var prioGrp: bv32
    const prioTbl: array<bv32>
    ghost var contents: set<nat>

    ghost predicate Valid()
      reads this, prioTbl
    {
      && 1 <= n <= MAX_TASKS && prioTbl.Length == n / 32 + 1
      && (forall p :: p in contents ==> p < n)
      && Rows(prioTbl[..], contents) && Groups(prioGrp, prioTbl[..])
    }

    constructor (tasks: nat)
      requires 1 <= tasks <= MAX_TASKS
      ensures Valid() && n == tasks && contents == {} && fresh(prioTbl)
    {
      n := tasks;
      prioGrp := 0;
      prioTbl := new bv32[tasks / 32 + 1](_ => 0);
      contents := {};
      new;
      forall y | 0 <= y < 32 ensures !Bit(0, y) { ZeroBits(y); }
    }

    // uLipePrioSet
    method Set(prio: nat)
      requires Valid() && prio < n
      modifies this, prioTbl
      ensures Valid() && contents == old(contents) + {prio}
    {
      hide Bit, SetBit, Rows, Groups;
      var x, y := prio / 32, prio % 32;
      RowsSet(prioTbl[..], contents, x, y);
      GroupsSet(prioGrp, prioTbl[..], x, y);
      prioGrp := SetBit(prioGrp, x);
      prioTbl[x] := SetBit(prioTbl[x], y);
      contents := contents + {prio};
    }

    // uLipePrioClr
    method Clr(prio: nat)
      requires Valid() && prio < n
      modifies this, prioTbl
      ensures Valid() && contents == old(contents) - {prio}
    {
      hide Bit, ClearBit, Rows, Groups;
      var x, y := prio / 32, prio % 32;
      RowsCleared(prioTbl[..], contents, x, y);
      GroupsCleared(prioGrp, prioTbl[..], x, y);
      prioTbl[x] := ClearBit(prioTbl[x], y);
      if prioTbl[x] == 0 {
        prioGrp := ClearBit(prioGrp, x);
      }
      contents := contents - {prio};
    }

    // uLipeKernelFindHighPrio; beyond is whatever word lies at index 31 of the table
    method FindHighPrio(beyond: bv32) returns (ret: nat)
      requires Valid()
      ensures ret == Top(contents)
      ensures ret < n
    {
      hide Bit;
      var x := HighIndex(prioGrp);
      var word := if x < prioTbl.Length then prioTbl[x] else beyond;
      var y := HighIndex(word);
      ret := x * 32 + y;
      if ret > n - 1 {
        ret := 0;
      }
      FoundTop(x, word, ret);
    }
  
    lemma FoundTop(x: nat, word: bv32, ret: nat)
      requires Valid() && x == HighIndex(prioGrp)
      requires x < prioTbl.Length ==> word == prioTbl[x]
      requires var r := x * 32 + HighIndex(word); ret == if r > n - 1 then 0 else r
      ensures ret == Top(contents) && ret < n
    {
      hide Bit, HighIndex;
      HighIndexOf(prioGrp);
      HighIndexOf(word);
      if contents == {} {
        if prioGrp != 0 {
          EmptyRow(x);
        }
      } else {
        var p :| p in contents;
        Member(p);
        ZeroBits(p / 32);
        assert prioGrp != 0;
        var m := 32 * x + HighIndex(word);
        forall q | q in contents ensures q <= m {
          Member(q);
        }
        TopIs(contents, m);
      }
    }

    // A member has its group bit and its bit in the group's word
    lemma Member(p: nat)
      requires Valid() && p in contents
      ensures p / 32 < prioTbl.Length && Bit(prioTbl[p / 32], p % 32) && Bit(prioGrp, p / 32) && prioTbl[p / 32] != 0
    {
      hide Bit;
      assert 32 * (p / 32) + p % 32 == p;
      ZeroBits(p % 32);
    }

    lemma EmptyRow(x: nat)
      requires Valid() && contents == {} && x < 32
      ensures !Bit(prioGrp, x)
    {
      hide Bit;
      if Bit(prioGrp, x) {
        HighIndexOf(prioTbl[x]);
      }
    }
  }

  // 31 minus the scan, as a 16-bit number with the result for an empty word replaced by 31
  function HighIndex(w: bv32): nat
  {
    var x := (31 - FSScan(w) as int) % 0x1_0000;
    if x > 32 then 31 else x
  }

  lemma HighIndexOf(w: bv32)
    ensures w == 0 ==> HighIndex(w) == 31
    ensures w != 0 ==> HighIndex(w) < 32 && Bit(w, HighIndex(w)) && forall j :: HighIndex(w) < j < 32 ==> !Bit(w, j)
  {
    hide Bit, FSScan, HighIndex;
    if w != 0 {
      MsBitAt(w);
      MsBitNat(FSScan(w));
      HighIndexIs(w, FSScan(w));
    } else {
      ScanZero();
      HighIndexNone(w);
    }
  }

  lemma HighIndexIs(w: bv32, b: bv32)
    requires b == FSScan(w) && b < 32
    ensures HighIndex(w) == 31 - b as int
  {
    hide FSScan;
  }

  lemma HighIndexNone(w: bv32)
    requires FSScan(w) == 32
    ensures HighIndex(w) == 31
  {
    hide FSScan;
  }

  lemma MsBitNat(b: bv32)
    requires b < 32
    ensures 31 - b as int == (31 - b) as nat
  {}
}
