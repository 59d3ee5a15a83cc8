// Size classes of the allocator: which class a size belongs to, and which class a request is served
// from. A class has a row-major index c; its sizes are those from CellLower(c) up to CellLower(c + 1).
module SizeClass {
  import opened Bits

  const MAX_LOG2_SLI := 4
  const MAX_SLI := 16
  const FLI_OFFSET := 6
  const SMALL_BLOCK := 128
  const REAL_FLI := 9
  const CELLS := 144
  const MAX_BLOCK := 32768
  const MAX_SEARCH := 31744

  // Smallest size of class sl in row fl
  function Lower(fl: nat, sl: nat): nat
  {
    if fl == 0 then 8 * sl else (MAX_SLI + sl) * Pow2(fl + 2)
  }

  // Smallest size of the class with row-major index c
  function CellLower(c: nat): nat
  {
    Lower(c / MAX_SLI, c % MAX_SLI)
  }

  lemma Pow2Three()
    ensures Pow2(3) == 8
  {
    assert Pow2(3) == 2 * 2 * 2 * Pow2(0);
  }

  lemma {:induction false} Pow2Eighths(k: nat)
    requires k >= 3
    ensures Pow2(k) >= 8 && Pow2(k) % 8 == 0
  {
    if k == 3 { Pow2Three(); } else { Pow2Eighths(k - 1); }
  }

  lemma Pow2Times16(k: nat)
    ensures Pow2(k + 4) == 16 * Pow2(k)
  {
    assert Pow2(k + 4) == 2 * Pow2(k + 3);
    assert Pow2(k + 2) == 2 * Pow2(k + 1);
  }

  lemma LowerStep(fl: nat, sl: nat)
    ensures Lower(fl, sl) + 8 <= Lower(fl, sl + 1)
    ensures Lower(fl, MAX_SLI) == Lower(fl + 1, 0)
  {
    if fl == 0 {
      assert Pow2(3) == 2 * 2 * 2 * Pow2(0);
    } else {
      Pow2Eighths(fl + 2);
      assert Pow2(fl + 3) == 2 * Pow2(fl + 2);
    }
  }

  lemma IndexOf(fl: nat, sl: nat)
    requires sl < MAX_SLI
    ensures (fl * MAX_SLI + sl) / MAX_SLI == fl && (fl * MAX_SLI + sl) % MAX_SLI == sl
  {}

  lemma CellLowerAt(fl: nat, sl: nat)
    requires sl <= MAX_SLI
    ensures CellLower(fl * MAX_SLI + sl) == Lower(fl, sl)
  {
    if sl < MAX_SLI {
      IndexOf(fl, sl);
    } else {
      IndexOf(fl + 1, 0);
      LowerStep(fl, 0);
    }
  }

  lemma CellLowerStep(c: nat)
    ensures CellLower(c) + 8 <= CellLower(c + 1)
  {
    var fl, sl := c / MAX_SLI, c % MAX_SLI;
    CellLowerAt(fl, sl);
    CellLowerAt(fl, sl + 1);
    LowerStep(fl, sl);
  }

  lemma CellLowerAligned(c: nat)
    ensures CellLower(c) % 8 == 0
  {
    var fl, sl := c / MAX_SLI, c % MAX_SLI;
    if fl > 0 {
      Pow2Eighths(fl + 2);
      MulEighths(MAX_SLI + sl, Pow2(fl + 2) / 8);
    }
  }

  lemma MulEighths(a: nat, e: nat)
    ensures (a * (8 * e)) % 8 == 0
  {
    assert a * (8 * e) == 8 * (a * e);
  }

  lemma {:induction false} CellLowerMonotone(c: nat, d: nat)
    requires c <= d
    ensures CellLower(c) + 8 * (d - c) <= CellLower(d)
    decreases d
  {
    hide *;
    if c < d {
      CellLowerMonotone(c, d - 1);
      CellLowerStep(d - 1);
    }
  }

  lemma CellLowerTop()
    ensures CellLower(CELLS) == MAX_BLOCK && CellLower(CELLS - 1) == MAX_SEARCH && CellLower(0) == 0
  {
    Pow2Times16(6);
    assert Pow2(6) == 2 * 2 * 2 * 2 * Pow2(2) == 64;
  }

  ghost function CellFrom(size: nat, c: nat): (d: nat)
    requires size < MAX_BLOCK && c < CELLS && CellLower(c) <= size
    ensures d < CELLS && CellLower(d) <= size < CellLower(d + 1)
    decreases CELLS - c
  {
    CellLowerTop();
    if size < CellLower(c + 1) then c else CellFrom(size, c + 1)
  }

  // The class a free block of the given size is kept in
  ghost function Cell(size: nat): (c: nat)
    requires size < MAX_BLOCK
    ensures c < CELLS && CellLower(c) <= size < CellLower(c + 1)
  {
    CellLowerTop();
    CellFrom(size, 0)
  }

  lemma CellUnique(size: nat, c: nat)
    requires size < MAX_BLOCK && CellLower(c) <= size < CellLower(c + 1)
    ensures c == Cell(size)
  {
    hide *;
    var d := Cell(size);
    if c < d {
      CellLowerMonotone(c + 1, d);
    } else if d < c {
      CellLowerMonotone(d + 1, c);
    }
  }

  lemma CellMonotone(a: nat, b: nat)
    requires a <= b < MAX_BLOCK
    ensures Cell(a) <= Cell(b)
  {
    hide *;
    if Cell(b) < Cell(a) {
      CellLowerMonotone(Cell(b) + 1, Cell(a));
    }
  }

  ghost function SearchFrom(r: nat, c: nat): (d: nat)
    requires c < CELLS && r <= CellLower(c)
    ensures d < CELLS && r <= CellLower(d) && (d > 0 ==> CellLower(d - 1) < r)
  {
    if c == 0 || CellLower(c - 1) < r then c else SearchFrom(r, c - 1)
  }

  // The class searched for a request: the least one all of whose sizes are large enough
  ghost function SearchCell(r: nat): (c: nat)
    requires r <= MAX_SEARCH
    ensures c < CELLS && r <= CellLower(c) && (c > 0 ==> CellLower(c - 1) < r)
  {
    CellLowerTop();
    SearchFrom(r, CELLS - 1)
  }

  lemma SearchCellUnique(r: nat, c: nat)
    requires r <= MAX_SEARCH && r <= CellLower(c) && (c > 0 ==> CellLower(c - 1) < r)
    ensures c == SearchCell(r)
  {
    hide *;
    var d := SearchCell(r);
    if c < d { CellLowerMonotone(c, d - 1); }
    if d < c { CellLowerMonotone(d, c - 1); }
  }

  lemma {:induction false} Pow2Monotone(j: nat, k: nat)
    requires j <= k
    ensures Pow2(j) <= Pow2(k)
  {
    if j < k { Pow2Monotone(j, k - 1); }
  }

  lemma Pow2Row14()
    ensures Pow2(10) == 1024 && Pow2(11) == 2048
  {
    Pow2Times16(6);
    Pow2Times16(2);
    assert Pow2(2) == 4;
  }

  lemma MulLe(a: int, b: int, p: nat)
    ensures a <= b ==> a * p <= b * p
  {}

  // x >> k on sizes
  function Shr(x: nat, k: nat): nat
  {
    if k == 0 then x else Shr(x / 2, k - 1)
  }

  lemma {:induction false} ShrRange(x: nat, k: nat, q: nat)
    requires q * Pow2(k) <= x < (q + 1) * Pow2(k)
    ensures Shr(x, k) == q
  {
    if k > 0 {
      HalfRange(x, Pow2(k - 1), q);
      ShrRange(x / 2, k - 1, q);
    }
  }

  lemma HalfRange(x: nat, h: nat, q: nat)
    requires q * (2 * h) <= x < (q + 1) * (2 * h)
    ensures q * h <= x / 2 < (q + 1) * h
  {
    assert q * (2 * h) == 2 * (q * h) && (q + 1) * (2 * h) == 2 * (q * h) + 2 * h;
    assert (q + 1) * h == q * h + h;
  }

  // x & ~t on sizes, for t one less than a power of two
  function AndNot(x: nat, t: nat): nat
  {
    x - x % (t + 1)
  }

  lemma Quotient(x: nat, p: nat) returns (q: nat)
    requires p > 0 && 16 * p <= x < 32 * p
    ensures 16 <= q < 32
    ensures q * p <= x < (q + 1) * p
    ensures AndNot(x, p - 1) == q * p
  {
    q := x / p;
    assert x == q * p + x % p;
    MulLe(q, 15, p);
    MulLe(32, q, p);
    assert (q + 1) * p == q * p + p;
  }

  ghost predicate InRow(x: nat, k: nat)
  {
    3 <= k <= 10 && 16 * Pow2(k) <= x < 32 * Pow2(k) && x < MAX_BLOCK
  }

  lemma RowCell(r: nat, k: nat)
    requires InRow(r, k)
    ensures MAX_SLI <= Shr(r, k) < 2 * MAX_SLI
    ensures (k - 2) * MAX_SLI + (Shr(r, k) - MAX_SLI) == Cell(r)
    ensures CellLower(Cell(r)) == AndNot(r, Pow2(k) - 1)
  {
    hide Pow2, Cell, CellLower, AndNot, Lower, Shr;
    var q := Quotient(r, Pow2(k));
    ShrRange(r, k, q);
    RowBounds(k, q);
    CellUnique(r, (k - 2) * MAX_SLI + (q - MAX_SLI));
  }

  // The bounds of class q - 16 of the row whose classes are 2^k wide
  lemma RowBounds(k: nat, q: nat)
    requires 3 <= k && MAX_SLI <= q < 2 * MAX_SLI
    ensures var c := (k - 2) * MAX_SLI + (q - MAX_SLI);
            CellLower(c) == q * Pow2(k) && CellLower(c + 1) == (q + 1) * Pow2(k)
  {
    hide Pow2, CellLower;
    CellLowerAt(k - 2, q - MAX_SLI);
    CellLowerAt(k - 2, q - MAX_SLI + 1);
  }

  // The row of a size that is not small, and its most significant bit
  lemma {:induction false} RowOf(r: nat, j: nat) returns (k: nat)
    requires 3 <= j && 16 * Pow2(j) <= r < MAX_BLOCK
    ensures j <= k && InRow(r, k)
    ensures MsIndex(r) == k + MAX_LOG2_SLI
    decreases MAX_BLOCK - Pow2(j)
  {
    hide MsIndex;
    Pow2Times16(j);
    Pow2Row14();
    if j > 10 { Pow2Monotone(11, j); }
    if r < 32 * Pow2(j) {
      k := j;
      MsIndexOf(r, j + 4);
    } else {
      k := RowOf(r, j + 1);
    }
  }

  // Class of a small size in row 0
  function SmallClass(r: nat): (sl: nat)
    requires r < SMALL_BLOCK
    ensures sl < MAX_SLI && sl == Cell(r)
    ensures r % 8 == 0 ==> sl == SearchCell(r) && CellLower(sl) == r
  {
    var sl := r / (SMALL_BLOCK / MAX_SLI);
    SmallCell(r, sl);
    sl
  }

  lemma SmallCell(r: nat, sl: nat)
    requires r < SMALL_BLOCK && sl == r / 8
    ensures sl == Cell(r)
    ensures r % 8 == 0 ==> sl == SearchCell(r) && CellLower(sl) == r
  {
    hide CellLower, Cell, SearchCell;
    CellLowerAt(0, sl);
    CellLowerAt(0, sl + 1);
    CellUnique(r, sl);
    if r % 8 == 0 {
      CellLowerStep(if sl > 0 then sl - 1 else 0);
      SearchCellUnique(r, sl);
    }
  }

  method MappingInsert(r: nat) returns (fl: nat, sl: nat)
    requires r < MAX_BLOCK
    ensures fl < REAL_FLI && sl < MAX_SLI
    ensures fl * MAX_SLI + sl == Cell(r)
  {
    hide Cell, CellLower, Lower, SearchCell, SmallClass, Pow2, MsIndex, Shr, AndNot;
    if r < SMALL_BLOCK {
      fl := 0;
      sl := SmallClass(r);
    } else {
      Pow2Three();
      ghost var k := RowOf(r, 3);
      RowCell(r, k);
      fl := MsIndex(r);
      sl := Shr(r, fl - MAX_LOG2_SLI) - MAX_SLI;
      fl := fl - FLI_OFFSET;
    }
  }

  lemma Pow2Twice(k: nat)
    ensures Pow2(k + 1) == 2 * Pow2(k)
  {}

  // The rounded request stays in the row of the request
  lemma CarryStays(r: nat, k: nat, x: nat)
    requires 3 <= k <= 10 && r <= MAX_SEARCH && x == r + Pow2(k) - 1
    requires 16 * Pow2(k) <= r && x < 32 * Pow2(k) && x < MAX_BLOCK
    ensures MsIndex(x) == k + MAX_LOG2_SLI
    ensures Cell(x) == SearchCell(r)
  {
    hide Pow2, Cell, CellLower, SearchCell, MsIndex, AndNot, Shr;
    Pow2Times16(k);
    Pow2Twice(k + 4);
    MsIndexOf(x, k + 4);
    RowCell(x, k);
    var c := Cell(x);
    var m := Quotient(x, Pow2(k));
    CellLowerStep(c - 1);
    if m > 16 {
      ShrRange(x, k, m);
      CellLowerAt(k - 2, m - 17);
      assert (m - 1) * Pow2(k) == m * Pow2(k) - Pow2(k);
    }
    SearchCellUnique(r, c);
  }

  // The rounded request carries into the first class of the next row
  lemma CarryOver(r: nat, k: nat, x: nat)
    requires 3 <= k <= 9 && r <= MAX_SEARCH && x == r + Pow2(k) - 1
    requires 16 * Pow2(k) <= r < 32 * Pow2(k) && 32 * Pow2(k) <= x && x < MAX_BLOCK
    ensures InRow(x, k + 1) && MsIndex(x) == k + 1 + MAX_LOG2_SLI
    ensures Cell(x) == SearchCell(r)
    ensures AndNot(x, Pow2(k) - 1) == CellLower(SearchCell(r))
  {
    hide Pow2, Cell, CellLower, SearchCell, MsIndex;
    var p := Pow2(k);
    Pow2Twice(k);
    Pow2Times16(k + 1);
    Pow2Twice(k + 5);
    MsIndexOf(x, k + 5);
    var c := (k - 1) * MAX_SLI;
    CellLowerAt(k - 1, 0);
    CellLowerAt(k - 1, 1);
    CellLowerAt(k - 2, 15);
    CellUnique(x, c);
    SearchCellUnique(r, c);
    ModSmall(x, 32, p);
  }

  lemma ModSmall(x: nat, q: nat, p: nat)
    requires p > 0 && q * p <= x < q * p + p
    ensures x % p == x - q * p
  {
    QuotientUnique(x, p, x / p, x % p, q);
  }

  lemma QuotientUnique(x: nat, p: nat, d: nat, r: nat, q: nat)
    requires x == d * p + r && r < p && q * p <= x < q * p + p
    ensures d == q
  {
    assert (d + 1) * p == d * p + p && (q + 1) * p == q * p + p;
    MulLe(d + 1, q, p);
    MulLe(q + 1, d, p);
  }

  // Rounding r up to a multiple of the class width of its row, and the class that results
  lemma Carry(r: nat, k: nat) returns (j: nat)
    requires InRow(r, k) && r <= MAX_SEARCH
    ensures var x := r + Pow2(k) - 1;
            && InRow(x, j)
            && MsIndex(x) == j + MAX_LOG2_SLI
            && Cell(x) == SearchCell(r)
            && AndNot(x, Pow2(k) - 1) == CellLower(SearchCell(r))
  {
    var x := r + Pow2(k) - 1;
    hide Pow2, Cell, CellLower, Lower, SearchCell, MsIndex, AndNot, Shr;
    Pow2Row14();
    Pow2Monotone(k, 10);
    if x < 32 * Pow2(k) {
      j := k;
      RowCell(x, k);
      CarryStays(r, k, x);
    } else {
      j := k + 1;
      CarryOver(r, k, x);
    }
  }

  method MappingSearch(r: nat) returns (size: nat, fl: nat, sl: nat)
    requires r <= MAX_SEARCH && r % 8 == 0
    ensures fl < REAL_FLI && sl < MAX_SLI
    ensures fl * MAX_SLI + sl == SearchCell(r)
    ensures size == CellLower(SearchCell(r))
  {
    hide Cell, CellLower, Lower, SearchCell, SmallClass, Pow2, MsIndex, Shr, AndNot;
    size := r;
    if size < SMALL_BLOCK {
      fl := 0;
      sl := SmallClass(size);
    } else {
      Pow2Three();
      ghost var k := RowOf(r, 3);
      var t := Pow2(MsIndex(size) - MAX_LOG2_SLI) - 1;
      size := size + t;
      ghost var j := Carry(r, k);
      RowCell(size, j);
      fl := MsIndex(size);
      sl := Shr(size, fl - MAX_LOG2_SLI) - MAX_SLI;
      fl := fl - FLI_OFFSET;
      size := AndNot(size, t);
    }
  }

  // The rounding of a request costs nothing below SMALL_BLOCK and less than a sixteenth above
  lemma RoundingBound(r: nat)
    requires r % 8 == 0 && r <= MAX_SEARCH
    ensures r < SMALL_BLOCK ==> CellLower(SearchCell(r)) == r
    ensures r >= SMALL_BLOCK ==> 16 * (CellLower(SearchCell(r)) - r) < r
  {
    hide Cell, CellLower, Lower, SearchCell, Pow2, MsIndex, Shr;
    if r < SMALL_BLOCK {
      var sl := SmallClass(r);
    } else {
      Pow2Three();
      var k := RowOf(r, 3);
      var j := Carry(r, k);
    }
  }
}
