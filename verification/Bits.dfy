// Bit scans of 32-bit words, and single bits of a word.
// Sizes and bit numbers are naturals, words are bit vectors; WordOf and Ix lead from one to the other.
module Bits {
  const CLZ_LOOKUP: seq<bv32> :=
    [32, 31, 30, 30, 29, 29, 29, 29, 28, 28, 28, 28, 28, 28, 28, 28]

  // clz_lkup
  function Lookup(t: bv32): (r: bv32)
    requires t < 16
    ensures r == if t == 0 then 32 else if t == 1 then 31 else if t < 4 then 30 else if t < 8 then 29 else 28
  {
    CLZ_LOOKUP[t as nat]
  }

  // The shift that brings the highest set bit into the low four
  function Nibble(x: bv32): (n: bv32)
    ensures n <= 28 && x >> n < 16
  {
    if x >= 0x1_0000 then
      if x >= 0x100_0000 then
        if x >= 0x1000_0000 then 28 else 24
      else
        if x >= 0x10_0000 then 20 else 16
    else
      if x >= 0x100 then
        if x >= 0x1000 then 12 else 8
      else
        if x >= 0x10 then 4 else 0
  }

  // uLipePortBitFSScan
  function FSScan(x: bv32): bv32
  {
    Lookup(x >> Nibble(x)) - Nibble(x)
  }

  // uLipePortBitLSScan
  function LSScan(x: bv32): bv32
  {
    FSScan(!(x - 1) & x)
  }

  function MsBit(x: bv32): bv32 { if x == 0 then 0 else 31 - FSScan(x) }

  function LsBit(x: bv32): bv32 { if x == 0 then 0 else 31 - LSScan(x) }

  // Bit k is the highest set bit of x, and the scan says so
  predicate IsTop(x: bv32, k: bv32)
  {
    k < 32 && FSScan(x) == 31 - k && x >> k == 1
  }

  // The highest set bit of a word, for each value of Nibble
  lemma Top28(x: bv32) returns (k: bv32)
    requires 0x10000000 <= x
    ensures IsTop(x, k)
  {
    var t := x >> 28;
    if t == 1 {
      k := 28;
    } else if t < 4 {
      k := 29;
    } else if t < 8 {
      k := 30;
    } else {
      k := 31;
    }
  }

  lemma Top24(x: bv32) returns (k: bv32)
    requires 0x1000000 <= x < 0x10000000
    ensures IsTop(x, k)
  {
    var t := x >> 24;
    if t == 1 {
      k := 24;
    } else if t < 4 {
      k := 25;
    } else if t < 8 {
      k := 26;
    } else {
      k := 27;
    }
  }

  lemma Top20(x: bv32) returns (k: bv32)
    requires 0x100000 <= x < 0x1000000
    ensures IsTop(x, k)
  {
    var t := x >> 20;
    if t == 1 {
      k := 20;
    } else if t < 4 {
      k := 21;
    } else if t < 8 {
      k := 22;
    } else {
      k := 23;
    }
  }

  lemma Top16(x: bv32) returns (k: bv32)
    requires 0x10000 <= x < 0x100000
    ensures IsTop(x, k)
  {
    var t := x >> 16;
    if t == 1 {
      k := 16;
    } else if t < 4 {
      k := 17;
    } else if t < 8 {
      k := 18;
    } else {
      k := 19;
    }
  }

  lemma Top12(x: bv32) returns (k: bv32)
    requires 0x1000 <= x < 0x10000
    ensures IsTop(x, k)
  {
    var t := x >> 12;
    if t == 1 {
      k := 12;
    } else if t < 4 {
      k := 13;
    } else if t < 8 {
      k := 14;
    } else {
      k := 15;
    }
  }

  lemma Top8(x: bv32) returns (k: bv32)
    requires 0x100 <= x < 0x1000
    ensures IsTop(x, k)
  {
    var t := x >> 8;
    if t == 1 {
      k := 8;
    } else if t < 4 {
      k := 9;
    } else if t < 8 {
      k := 10;
    } else {
      k := 11;
    }
  }

  lemma Top4(x: bv32) returns (k: bv32)
    requires 0x10 <= x < 0x100
    ensures IsTop(x, k)
  {
    var t := x >> 4;
    if t == 1 {
      k := 4;
    } else if t < 4 {
      k := 5;
    } else if t < 8 {
      k := 6;
    } else {
      k := 7;
    }
  }

  lemma Top0(x: bv32) returns (k: bv32)
    requires 1 <= x < 0x10
    ensures IsTop(x, k)
  {
    var t := x >> 0;
    if t == 1 {
      k := 0;
    } else if t < 4 {
      k := 1;
    } else if t < 8 {
      k := 2;
    } else {
      k := 3;
    }
  }

  lemma HighestBitTop(x: bv32) returns (k: bv32)
    requires x >= 0x10_0000
    ensures IsTop(x, k)
  {
    hide IsTop;
    if x >= 0x1000_0000 {
      k := Top28(x);
    } else if x >= 0x100_0000 {
      k := Top24(x);
    } else {
      k := Top20(x);
    }
  }

  lemma HighestBitHigh(x: bv32) returns (k: bv32)
    requires x >= 0x1_0000
    ensures IsTop(x, k)
  {
    hide IsTop;
    if x >= 0x10_0000 {
      k := HighestBitTop(x);
    } else {
      k := Top16(x);
    }
  }

  lemma HighestBitLow(x: bv32) returns (k: bv32)
    requires 0 < x < 0x1_0000
    ensures IsTop(x, k)
  {
    hide IsTop;
    if x >= 0x1000 {
      k := Top12(x);
    } else if x >= 0x100 {
      k := Top8(x);
    } else if x >= 0x10 {
      k := Top4(x);
    } else {
      k := Top0(x);
    }
  }

  lemma TopExists(x: bv32) returns (k: bv32)
    requires x != 0
    ensures IsTop(x, k)
  {
    hide IsTop;
    if x >= 0x1_0000 {
      k := HighestBitHigh(x);
    } else {
      k := HighestBitLow(x);
    }
  }

  // 31 less the scan is the number of the highest set bit
  lemma HighestBit(x: bv32) returns (k: bv32)
    requires x != 0
    ensures k < 32 && FSScan(x) == 31 - k && x >> k == 1
  {
    hide FSScan;
    k := TopExists(x);
  }

  // ---- bits of a word --------------------------------------------------------------------------

  predicate At(w: bv32, j: bv32)
    requires j < 32
  {
    (w >> j) & 1 == 1
  }

  function And(w: bv32, a: bv32): bv32 { w & a }

  function Or(w: bv32, a: bv32): bv32 { w | a }

  lemma AndAt(w: bv32, a: bv32, j: bv32)
    requires j < 32
    ensures At(And(w, a), j) == (At(w, j) && At(a, j))
  {}

  lemma OrAt(w: bv32, a: bv32, j: bv32)
    requires j < 32
    ensures At(Or(w, a), j) == (At(w, j) || At(a, j))
  {}

  lemma AllButAt(i: bv32, j: bv32)
    requires i < 32 && j < 32
    ensures At(AllBut(i), j) == (i != j)
  {}

  lemma MaskAt(i: bv32, j: bv32)
    requires i < 32 && j < 32
    ensures At(OneBit(i), j) == (i == j)
  {}

  lemma FromAt(i: bv32, j: bv32)
    requires i < 32 && j < 32
    ensures At(OnesFrom(i), j) == (i <= j)
  {}

  lemma AboveAt(x: bv32, k: bv32, j: bv32)
    requires k < j < 32 && x >> k == 1
    ensures !At(x, j)
  {}

  lemma LowAt(x: bv32, k: bv32, j: bv32)
    requires k < 32 && j < k && (!(x - 1) & x) >> k == 1
    ensures At(x, k) && !At(x, j)
  {}

  lemma LowAt0(x: bv32, k: bv32)
    requires k < 32 && (!(x - 1) & x) >> k == 1
    ensures At(x, k) 
  {}

  lemma LowNZ(x: bv32)
    requires x != 0
    ensures !(x - 1) & x != 0
  {}

  // A bit number as a shift count
  function Ix(i: nat): (b: bv32)
    requires i < 32
    ensures b < 32
  {
    (i as bv5) as bv32
  }

  lemma IxNat(i: nat)
    requires i < 32
    ensures Ix(i) as nat == i
  {}

  lemma BvInc(b: bv32)
    requires b < 31
    ensures (b + 1) as nat == b as nat + 1
  {}

  lemma BvInj(b: bv32, c: bv32)
    requires b < 32 && c < 32 && b as nat == c as nat
    ensures b == c
  {}

  lemma BvLess(b: bv32, c: bv32)
    requires b < 32 && c < 32
    ensures b < c <==> b as nat < c as nat
  {}

  lemma IxLe(i: nat, j: nat)
    requires i < 32 && j < 32
    ensures Ix(i) <= Ix(j) <==> i <= j
    ensures Ix(i) == Ix(j) <==> i == j
  {
    hide Ix;
    IxNat(i);
    IxNat(j);
    BvLess(Ix(j), Ix(i));
  }

  lemma IxZero()
    ensures Ix(0) == 0
  {
    hide Ix;
    IxNat(0);
    BvInj(Ix(0), 0);
  }

  lemma IxStep(i: nat)
    requires 0 < i < 32
    ensures 0 < Ix(i) < 32 && Ix(i - 1) == Ix(i) - 1
  {
    hide Ix;
    IxNat(i);
    IxNat(i - 1);
    BvLess(Ix(i - 1), 31);
    BvInc(Ix(i - 1));
    BvInj(Ix(i), Ix(i - 1) + 1);
  }

  lemma IxOf(b: bv32)
    requires b < 32
    ensures b as nat < 32 && Ix(b as nat) == b
  {
    hide Ix;
    IxNat(b as nat);
    BvInj(Ix(b as nat), b);
  }

  // The 32-bit word whose value is n (modulo 2^32), built bit by bit
  function WordOf(n: nat): bv32
  {
    if n == 0 then 0 else (WordOf(n / 2) << 1) | (if n % 2 == 1 then 1 else 0)
  }

  lemma ShiftStep(w: bv32, b: bv32, k: bv32)
    requires 0 < k < 32 && b <= 1 && w >> (k - 1) == 1
    ensures ((w << 1) | b) >> k == 1
  {}

  lemma SameTop(x: bv32, j: bv32, k: bv32)
    requires j < 32 && k < 32 && x >> j == 1 && x >> k == 1
    ensures j == k
  {}

  lemma WordOfStep(n: nat)
    requires n > 0
    ensures WordOf(n) == (WordOf(n / 2) << 1) | (if n % 2 == 1 then 1 else 0)
    ensures WordOf(1) == 1
  {
    assert WordOf(1 / 2) == 0;
  }

  lemma {:induction false} WordTop(n: nat, k: nat)
    requires k < 32 && Pow2(k) <= n < Pow2(k + 1)
    ensures WordOf(n) >> Ix(k) == 1
  {
    hide WordOf, Ix;
    WordOfStep(n);
    if k == 0 {
      IxZero();
    } else {
      IxStep(k);
      WordTop(n / 2, k - 1);
      ShiftStep(WordOf(n / 2), if n % 2 == 1 then 1 else 0, Ix(k));
    }
  }

  function Pow2(k: nat): (p: nat)
    ensures p > 0
  {
    if k == 0 then 1 else 2 * Pow2(k - 1)
  }

  // Position of the most significant bit of a number
  function MsIndex(n: nat): nat
  {
    MsBit(WordOf(n)) as nat
  }

  lemma MsIndexOf(n: nat, k: nat)
    requires k < 32 && Pow2(k) <= n < Pow2(k + 1)
    ensures MsIndex(n) == k
  {
    hide Ix, WordOf, Pow2, FSScan;
    var x := WordOf(n);
    WordTop(n, k);
    var j := HighestBit(x);
    SameTop(x, j, Ix(k));
    IxNat(k);
  }

  // ---- bits by number ----------------------------------------------------------------------

  predicate Bit(w: bv32, i: nat)
    requires i < 32
  {
    At(w, Ix(i))
  }

  // 1 << k
  function OneBit(k: bv32): bv32
    requires k < 32
  {
    1 << k
  }

  // ~(1 << k)
  function AllBut(k: bv32): bv32
    requires k < 32
  {
    !(1 << k)
  }

  function SetBit(w: bv32, i: nat): bv32
    requires i < 32
  {
    Or(w, OneBit(Ix(i)))
  }

  function ClearBit(w: bv32, i: nat): bv32
    requires i < 32
  {
    And(w, AllBut(Ix(i)))
  }

  // ~0 << k
  function OnesFrom(k: bv32): bv32
    requires k < 32
  {
    0xFFFF_FFFF << k
  }

  // w & (~0 << i)
  function FromBit(w: bv32, i: nat): bv32
    requires i < 32
  {
    And(w, OnesFrom(Ix(i)))
  }

  lemma SetBitAt(w: bv32, i: nat, j: nat)
    requires i < 32 && j < 32
    ensures Bit(SetBit(w, i), j) <==> Bit(w, j) || i == j
  {
    hide Ix, At, OneBit, Or;
    OrAt(w, OneBit(Ix(i)), Ix(j));
    OneBitIx(i, j);
  }

  lemma OneBitIx(i: nat, j: nat)
    requires i < 32 && j < 32
    ensures At(OneBit(Ix(i)), Ix(j)) == (i == j)
  {
    hide Ix, At, OneBit;
    MaskAt(Ix(i), Ix(j));
    IxLe(i, j);
  }

  lemma ClearBitAt(w: bv32, i: nat, j: nat)
    requires i < 32 && j < 32
    ensures Bit(ClearBit(w, i), j) <==> Bit(w, j) && i != j
  {
    hide Ix, At, AllBut, And;
    AndAt(w, AllBut(Ix(i)), Ix(j));
    AllButIx(i, j);
  }

  lemma AllButIx(i: nat, j: nat)
    requires i < 32 && j < 32
    ensures At(AllBut(Ix(i)), Ix(j)) == (i != j)
  {
    hide Ix, At, AllBut;
    AllButAt(Ix(i), Ix(j));
    IxLe(i, j);
  }

  lemma FromBitAt(w: bv32, i: nat, j: nat)
    requires i < 32 && j < 32
    ensures Bit(FromBit(w, i), j) <==> Bit(w, j) && i <= j
  {
    hide Ix, At, OnesFrom, And;
    AndAt(w, OnesFrom(Ix(i)), Ix(j));
    FromAt(Ix(i), Ix(j));
    IxLe(i, j);
  }

  lemma ZeroBits(j: nat)
    requires j < 32
    ensures !Bit(0, j)
  {
    hide Ix;
    ZeroAt(Ix(j));
  }

  lemma ZeroAt(j: bv32)
    requires j < 32
    ensures !At(0, j)
  {}

  // Position of the least significant set bit, 0 for none (ls_bit)
  function LsIndex(w: bv32): nat
  {
    LsBit(w) as nat
  }

  lemma LsIndexOf(w: bv32)
    requires w != 0
    ensures LsIndex(w) < 32 && Bit(w, LsIndex(w))
    ensures forall j :: 0 <= j < LsIndex(w) ==> !Bit(w, j)
  {
    hide Ix, At, FSScan;
    var low := !(w - 1) & w;
    LowNZ(w);
    var k := HighestBit(low);
    assert LsBit(w) == k;
    IxOf(k);
    var n := k as nat;
    LowAt0(w, k);
    forall j | 0 <= j < LsIndex(w) ensures !Bit(w, j) {
      IxLe(n, j);
      LowAt(w, k, Ix(j));
    }
  }

  // The scan counts leading zeros: 31 less the scan is the position of the most significant set bit
  lemma MsBitAt(w: bv32)
    requires w != 0
    ensures FSScan(w) < 32 && (31 - FSScan(w)) as nat < 32 && Bit(w, (31 - FSScan(w)) as nat)
    ensures forall j :: (31 - FSScan(w)) as nat < j < 32 ==> !Bit(w, j)
  {
    hide Ix, At, FSScan;
    var k := HighestBit(w);
    IxOf(k);
    TopAt(w, k);
    forall j | k as nat < j < 32 ensures !Bit(w, j) {
      IxLe(k as nat, j);
      AboveAt(w, k, Ix(j));
    }
  }

  lemma TopAt(x: bv32, k: bv32)
    requires k < 32 && x >> k == 1
    ensures At(x, k)
  {}

  // Both scans are exact for every word, 0 included: the first finds the most significant set bit,
  // the second the least significant one
  lemma ScanExact(w: bv32)
    ensures w == 0 ==> FSScan(w) == 32 && LSScan(w) == 32
    ensures w != 0 ==> FSScan(w) < 32 && LSScan(w) < 32
    ensures w != 0 ==> var hi, lo := (31 - FSScan(w)) as nat, (31 - LSScan(w)) as nat;
                       && lo < 32 && hi < 32 && Bit(w, lo) && Bit(w, hi)
                       && forall j :: 0 <= j < 32 && (j < lo || hi < j) ==> !Bit(w, j)
  {
    hide FSScan, LSScan, Bit, LsIndex;
    if w == 0 {
      ScanZero();
    } else {
      MsBitAt(w);
      LsIndexOf(w);
      LSScanRange(w);
    }
  }

  lemma ScanZero()
    ensures FSScan(0) == 32 && LSScan(0) == 32
  {}

  lemma LSScanRange(w: bv32)
    requires w != 0
    ensures LSScan(w) < 32 && LsIndex(w) == (31 - LSScan(w)) as nat
  {
    hide FSScan;
    LowNZ(w);
    var k := HighestBit(!(w - 1) & w);
  }

  // Two words with the same bits are the same word
  lemma SameBits(a: bv32, b: bv32)
    requires forall j :: 0 <= j < 32 ==> Bit(a, j) == Bit(b, j)
    ensures a == b
  {
    hide Ix, At;
    if a != b {
      var _ := DifferAt(a, b);
    }
  }

  // Bit number k, for k < 32, tells a from b
  predicate DiffersAt(a: bv32, b: bv32, k: bv32)
  {
    k < 32 && At(a, k) != At(b, k)
  }

  lemma DifferAt(a: bv32, b: bv32) returns (j: nat)
    requires a != b
    ensures j < 32 && Bit(a, j) != Bit(b, j)
  {
    hide DiffersAt, FSScan, Bit;
    XorNotZero(a, b);
    var k := HighestDiffering(a, b, a ^ b);
    j := DiffersBit(a, b, k);
  }

  lemma DiffersBit(a: bv32, b: bv32, k: bv32) returns (j: nat)
    requires DiffersAt(a, b, k)
    ensures j < 32 && Bit(a, j) != Bit(b, j)
  {
    hide Ix, At;
    IxOf(k);
    j := k as nat;
  }

  lemma HighestDiffering(a: bv32, b: bv32, x: bv32) returns (k: bv32)
    requires x == a ^ b && x != 0
    ensures DiffersAt(a, b, k)
  {
    hide DiffersAt, At, FSScan;
    k := HighestBit(x);
    XorAt(a, b, x, k);
  }

  lemma XorNotZero(a: bv32, b: bv32)
    requires a != b
    ensures a ^ b != 0
  {}

  lemma XorAt(a: bv32, b: bv32, x: bv32, k: bv32)
    requires x == a ^ b && k < 32 && x >> k == 1
    ensures DiffersAt(a, b, k)
  {}
}
