// The allocator as the program runs it, on the words of the pool.
module Tlsf {
  import opened Bits
  import opened SizeClass
  import opened Layout
  import opened HeapModel
  import opened Bitmaps
  import opened Memory
  import opened Tags
  import opened HeapTheorems

  const TLSF_SIGNATURE := 0x2A59FA59
  const CONTROL_SIZE := 632
  const OS_MAX_SIZED_HEAP_BLOCK := 16384

  class Pool {
    const size: nat
    const words: array<int>
    const matrix: array<int>
    const slBitmap: array<bv32>
    var flBitmap: bv32
    var usedSize: int
    var maxSize: int
    var signature: int
    var areaHead: int
    ghost var blocks: seq<Block>
    ghost var lists: seq<seq<Block>>

    ghost predicate Shape()
    {
      && words.Length == size && matrix.Length == CELLS && slBitmap.Length == REAL_FLI
      && words != matrix && slBitmap as object != words && slBitmap as object != matrix
    }

    ghost predicate Wired()
      reads `blocks, `lists, `flBitmap, words, matrix, slBitmap
    {
      && Shape() && Tiled(blocks) && blocks[|blocks| - 1].addr + 8 <= size
      && |lists| == CELLS && Listed(blocks, lists)
      && Linked(words[..], matrix[..], lists)
      && Agree(flBitmap, slBitmap[..], lists)
    }

    // FIND_SUITABLE_BLOCK: the head of the first non-empty class from (fl0, sl0) on
    method FindSuitableBlock(fl0: nat, sl0: nat) returns (b: int, fl: nat, sl: nat)
      requires Wired() && fl0 < REAL_FLI && sl0 < MAX_SLI
      ensures var c := FirstNonEmpty(lists, fl0 * MAX_SLI + sl0);
              if c == CELLS then b == 0
              else fl < REAL_FLI && sl < MAX_SLI && c == fl * MAX_SLI + sl && b == lists[c][0].addr && b != 0
    {
      hide Linked, Listed, Tiled, Agree, LsIndex, FromBit, FirstNonEmpty;
      fl, sl := fl0, sl0;
      var tmp := FromBit(slBitmap[fl], sl);
      b := 0;
      if tmp != 0 {
        sl := LsIndex(tmp);
        FoundInRow(flBitmap, slBitmap[..], lists, fl, sl0);
        b := matrix[fl * MAX_SLI + sl];
        HeadAddr(words[..], matrix[..], lists, fl * MAX_SLI + sl);
      } else {
        fl := LsIndex(FromBit(flBitmap, fl + 1));
        FoundBelow(flBitmap, slBitmap[..], lists, fl0, sl0);
        if fl > 0 {
          sl := LsIndex(slBitmap[fl]);
          b := matrix[fl * MAX_SLI + sl];
          HeadAddr(words[..], matrix[..], lists, fl * MAX_SLI + sl);
        }
      }
    }

    // clear_bit on both levels when a list has become empty
    method ClearClass(fl: nat, sl: nat)
      requires Shape() && |lists| == CELLS && Agree(flBitmap, slBitmap[..], lists) && fl < REAL_FLI && sl < MAX_SLI
      modifies this`flBitmap, slBitmap
      ensures Agree(flBitmap, slBitmap[..], lists[fl * MAX_SLI + sl := []])
    {
      hide Agree, ClearBit;
      ghost var slb := slBitmap[..];
      slBitmap[fl] := ClearBit(slBitmap[fl], sl);
      if slBitmap[fl] == 0 {
        flBitmap := ClearBit(flBitmap, fl);
      }
      ClearAgrees(old(flBitmap), slb, lists, fl, sl);
      assert slBitmap[..] == slb[fl := ClearBit(slb[fl], sl)];
    }

    // set_bit on both levels when a list has become s, not empty
    method SetClass(fl: nat, sl: nat, ghost s: seq<Block>)
      requires Shape() && |lists| == CELLS && Agree(flBitmap, slBitmap[..], lists) && fl < REAL_FLI && sl < MAX_SLI
      requires s != []
      modifies this`flBitmap, slBitmap
      ensures Agree(flBitmap, slBitmap[..], lists[fl * MAX_SLI + sl := s])
    {
      hide Agree, SetBit;
      ghost var slb := slBitmap[..];
      slBitmap[fl] := SetBit(slBitmap[fl], sl);
      flBitmap := SetBit(flBitmap, fl);
      SetAgrees(old(flBitmap), slb, lists, fl, sl, s);
      assert slBitmap[..] == slb[fl := SetBit(slb[fl], sl)];
    }

    // EXTRACT_BLOCK_HDR: take the head of a list
    method ExtractBlockHdr(b: int, fl: nat, sl: nat)
      requires Wired() && fl < REAL_FLI && sl < MAX_SLI
      requires lists[fl * MAX_SLI + sl] != [] && b == lists[fl * MAX_SLI + sl][0].addr
      modifies `flBitmap, `lists, words, matrix, slBitmap
      ensures Wired()
      ensures var c := fl * MAX_SLI + sl; lists == old(lists)[c := old(lists)[c][1..]]
      ensures Frame(old(words[..]), words[..], FreeAddrs(blocks))
    {
      hide Linked, Listed, Tiled, Chained, Agree, Frame, FreeAddrs, ClassOf, Node, DistinctAddrs;
      TiledChained(blocks);
      var c := fl * MAX_SLI + sl;
      ghost var m, mat := words[..], matrix[..];
      ghost var s := lists[c];
      UnlinkLinked(m, mat, blocks, lists, c, 0);
      NodeNeighbours(m, s, 0);
      assert s[..0] + s[1..] == s[1..];
      HeadListed(blocks, lists, c);
      matrix[c] := words[b + 12];
      if matrix[c] != 0 {
        words[matrix[c] + 8] := 0;
        KeepAgrees(flBitmap, slBitmap[..], lists, fl, sl, s[1..]);
      } else {
        ClearClass(fl, sl);
      }
      words[b + 8] := 0;
      words[b + 12] := 0;
      assert words[..] == UnlinkWords(m, 0, AddrOr0(s, 1), b);
      assert matrix[..] == mat[c := AddrOr0(s, 1)];
      lists := lists[c := s[1..]];
    }

    // EXTRACT_BLOCK: take a block, the k-th of its list, out of the list
    method ExtractBlock(b: int, fl: nat, sl: nat, ghost k: nat)
      requires Wired() && fl < REAL_FLI && sl < MAX_SLI
      requires k < |lists[fl * MAX_SLI + sl]| && b == lists[fl * MAX_SLI + sl][k].addr
      modifies `flBitmap, `lists, words, matrix, slBitmap
      ensures Wired()
      ensures var c := fl * MAX_SLI + sl; lists == old(lists)[c := old(lists)[c][..k] + old(lists)[c][k + 1..]]
      ensures Frame(old(words[..]), words[..], FreeAddrs(blocks))
    {
      hide Linked, Listed, Tiled, Chained, Agree, Frame, FreeAddrs, ClassOf, Node, DistinctAddrs;
      TiledChained(blocks);
      var c := fl * MAX_SLI + sl;
      ghost var m, mat := words[..], matrix[..];
      ghost var s := lists[c];
      ghost var rest := s[..k] + s[k + 1..];
      UnlinkLinked(m, mat, blocks, lists, c, k);
      NodeNeighbours(m, s, k);
      DropListed(blocks, lists, c, k);
      if words[b + 12] != 0 {
        words[words[b + 12] + 8] := words[b + 8];
      }
      if words[b + 8] != 0 {
        words[words[b + 8] + 12] := words[b + 12];
      }
      assert words[b + 8] == AddrOr0(s, k - 1) && words[b + 12] == AddrOr0(s, k + 1);
      if matrix[c] == b {
        matrix[c] := words[b + 12];
        if matrix[c] == 0 {
          assert rest == [];
          ClearClass(fl, sl);
        } else {
          KeepAgrees(flBitmap, slBitmap[..], lists, fl, sl, rest);
        }
      } else {
        KeepAgrees(flBitmap, slBitmap[..], lists, fl, sl, rest);
      }
      words[b + 8] := 0;
      words[b + 12] := 0;
      assert words[..] == UnlinkWords(m, AddrOr0(s, k - 1), AddrOr0(s, k + 1), b);
      assert matrix[..] == if k == 0 then mat[c := AddrOr0(s, 1)] else mat;
      lists := lists[c := rest];
    }

    // INSERT_BLOCK: put a block in front of the list of its class
    method InsertBlock(b: int, fl: nat, sl: nat, ghost x: Block)
      requires Wired() && fl < REAL_FLI && sl < MAX_SLI
      requires x in blocks && x.free && b == x.addr && ClassOf(x.size) == fl * MAX_SLI + sl
      requires forall d :: 0 <= d < CELLS ==> x !in lists[d]
      modifies this`flBitmap, this`lists, words, matrix, slBitmap
      ensures Wired()
      ensures lists == Push(old(lists), x)
      ensures Frame(old(words[..]), words[..], FreeAddrs(blocks))
    {
      hide Linked, Listed, Tiled, Chained, Agree, Frame, FreeAddrs, ClassOf, Node;
      TiledChained(blocks);
      FreeBlockRoom(blocks, x);
      var c := fl * MAX_SLI + sl;
      ghost var m, mat := words[..], matrix[..];
      PushLinked(m, mat, blocks, lists, x);
      PushedListed(blocks, lists, x);
      words[b + 8] := 0;
      words[b + 12] := matrix[c];
      if matrix[c] != 0 {
        words[matrix[c] + 8] := b;
      }
      assert words[..] == LinkWords(m, mat[c], b);
      matrix[c] := b;
      SetClass(fl, sl, [x] + lists[c]);
      assert matrix[..] == mat[c := b];
      lists := Push(lists, x);
    }

    lemma WiredParts()
      requires Wired()
      ensures Shape() && |lists| == CELLS && |blocks| >= 2 && blocks[|blocks| - 1].addr + 8 <= words.Length
      ensures Tiled(blocks)
    {}

    lemma WiredLists()
      requires Wired()
      ensures Listed(blocks, lists) && Linked(words[..], matrix[..], lists)
    {}

    ghost function H(): Heap
      reads this
    {
      Heap(size, blocks, lists, usedSize, maxSize)
    }

    ghost predicate Valid()
      reads this, words, matrix, slBitmap
    {
      Wired() && Headers(words[..], blocks) && HeapModel.Valid(H())
    }

    ghost predicate CanTake(i: nat)
      reads `blocks, `lists, `flBitmap, words, matrix, slBitmap
    {
      Wired() && Takeable(words[..], matrix[..], blocks, lists, i)
    }

    // Store a header word of block x
    method StoreHeader(w: nat, v: int, ghost x: Block)
      requires w < words.Length && x in blocks && (w == x.addr || w == x.addr + 4) && Wired()
      modifies words
      ensures Wired() && words[..] == old(words[..])[w := v]
    {
      hide Agree, Listed, Linked, Tiled;
      TiledChained(blocks);
      HeaderWrite(words[..], matrix[..], blocks, lists, x, w, v);
      words[w] := v;
    }

    // Store a word inside block x, which is in no list
    method StoreInner(w: nat, v: int, ghost x: Block)
      requires w < words.Length && x in blocks && x.addr <= w < x.End() && |lists| == CELLS
      requires (forall c :: 0 <= c < CELLS ==> x !in lists[c]) && Wired()
      modifies words
      ensures Wired() && words[..] == old(words[..])[w := v]
    {
      hide Agree, Listed, Linked, Tiled;
      TiledChained(blocks);
      InnerWrite(words[..], matrix[..], blocks, lists, x, w, v);
      words[w] := v;
    }

    // The layout seen as t: only ghost state changes
    ghost method Relayout(t: seq<Block>)
      requires Wired() && Tiled(t) && |lists| == CELLS && Listed(t, lists) && |blocks| > 0 && |t| > 0
               && t[|t| - 1] == blocks[|blocks| - 1]
      modifies `blocks
      ensures Wired() && blocks == t
    {
      hide Listed, Linked, Tiled, Agree;
      blocks := t;
    }

    // The first header words of a split: the remainder's size word, and the right neighbour's prev_hdr
    method StoreSplit(b: int, r: nat, ghost i: nat)
      requires i < |blocks| - 1 && b == blocks[i].addr && r % 8 == 0 && 8 <= r && r + 16 <= blocks[i].size
      requires b + r + 16 <= words.Length && blocks[i + 1].addr + 8 <= words.Length && |lists| == CELLS && CanTake(i)
      requires b + 8 <= words.Length && words[b + 4] == Tag(blocks[i].size, true, false)
      requires blocks[i + 1].addr == blocks[i].End() && blocks[i].size % 8 == 0
      modifies words
      ensures Wired() && words[..] == SplitWords(old(words[..]), blocks, i, r)
    {
      hide Wired, Takeable, Tag, SizeOf;
      ghost var m, mat, x := words[..], matrix[..], blocks[i];
      TakeableFree(m, mat, blocks, lists, i);
      TagFields(x.size, true, false);
      var nextB := b + 8 + SizeOf(words[b + 4]);
      var tmpSize := SizeOf(words[b + 4]) - r - 8;
      var b2 := b + 8 + r;
      StoreInner(b2 + 4, Tag(tmpSize, true, false), x);
      StoreHeader(nextB, b2, blocks[i + 1]);
    }

    // malloc_ex, first branch: split the free block into the used part and a free remainder
    method SplitBlock(b: int, r: nat, ghost i: nat)
      requires i < |blocks| - 1 && b == blocks[i].addr && r % 8 == 0 && 8 <= r && r + 16 <= blocks[i].size
      requires b + 8 <= words.Length && |lists| == CELLS && CanTake(i)
      modifies `flBitmap, `lists, `blocks, words, matrix, slBitmap
      ensures Wired() && Headers(words[..], blocks) && words[b + 4] == r
      ensures var seg := Segment(old(blocks)[i], r);
              && blocks == Splice(old(blocks), i, i + 1, seg) && |seg| == 2 && lists == Push(old(lists), seg[1])
      ensures var b2, n := b + 8 + r, old(blocks)[i + 1].addr;
              Writes(old(words[..]), words[..], FreeAddrs(old(blocks)) + {b2}, {b + 4, b2 + 4, n, n + 4})
    {
      hide Wired, Writes, FreeAddrs, ClassOf, Cell, Takeable, Headers, Tag, SizeOf, IsPrevFree, IsFree, Splice, Push,
           Tiled, Listed;
      ghost var m, mat, bs, ls := words[..], matrix[..], blocks, lists;
      ghost var seg := Segment(bs[i], r);
      TakeableWords(m, mat, bs, ls, i);
      TagFields(bs[i].size, true, false);
      SplitReady(m, mat, bs, ls, i, r);
      var tmpSize := SizeOf(words[b + 4]) - r - 8;
      var b2 := b + 8 + r;
      StoreSplit(b, r, i);
      var fl, sl := MappingInsert(tmpSize);
      Relayout(Splice(bs, i, i + 1, seg));
      InsertBlock(b2, fl, sl, seg[1]);
      WiredParts();
      WiredLists();
      SplitDone(m, mat, bs, ls, i, r, words[..], matrix[..], lists);
      StoreHeader(b + 4, r + (if IsPrevFree(words[b + 4]) then 2 else 0), seg[0]);
    }

    // malloc_ex, second branch: the remainder would be too small, use the block whole
    method TakeWhole(b: int, r: nat, ghost i: nat)
      requires i < |blocks| - 1 && b == blocks[i].addr && r % 8 == 0 && 8 <= r <= blocks[i].size < r + 16
      requires b + 8 <= words.Length && CanTake(i)
      modifies this`blocks, words
      ensures Wired() && Headers(words[..], blocks) && words[b + 4] == old(blocks)[i].size
      ensures blocks == Splice(old(blocks), i, i + 1, Segment(old(blocks)[i], r))
      ensures var n := old(blocks)[i + 1].addr;
              Writes(old(words[..]), words[..], FreeAddrs(old(blocks)), {b + 4, n + 4})
    {
      hide Linked, Listed, Tiled, Chained, Agree, Frame, Writes, FreeAddrs, ClassOf, Takeable, Headers, Tag, SizeOf,
           ClearPrevFree, ClearFree, IsPrevFree, IsFree, Coalesced;
      ghost var m, mat, bs := words[..], matrix[..], blocks;
      TakeableWords(m, mat, bs, lists, i);
      TagFields(bs[i].size, true, false);
      TagFields(bs[i + 1].size, bs[i + 1].free, true);
      TagUsed(bs[i].size);
      WholeDone(m, mat, bs, lists, i, r);
      var nextB := b + 8 + SizeOf(words[b + 4]);
      words[nextB + 4] := ClearPrevFree(words[nextB + 4]);
      words[b + 4] := ClearFree(words[b + 4]);
      assert words[..] == WholeWords(m, bs, i);
      blocks := Splice(bs, i, i + 1, Segment(bs[i], r));
    }

    // malloc_ex on a block taken from its list: split it if the rest is large enough
    method Carve(b: int, r: nat, ghost i: nat)
      requires i < |blocks| - 1 && b == blocks[i].addr && r % 8 == 0 && 8 <= r <= blocks[i].size
      requires b + 8 <= words.Length && |lists| == CELLS && CanTake(i)
      modifies this`flBitmap, this`lists, this`blocks, words, matrix, slBitmap
      ensures Wired() && Headers(words[..], blocks)
      ensures var seg := Segment(old(blocks)[i], r);
              && blocks == Splice(old(blocks), i, i + 1, seg)
              && lists == (if |seg| == 2 then Push(old(lists), seg[1]) else old(lists))
              && words[b + 4] == seg[0].size
      ensures PayloadsKept(old(words[..]), words[..], old(blocks), {})
    {
      hide Wired, Writes, FreeAddrs, ClassOf, Headers, Tag, SizeOf, PayloadsKept, Splice, Push, Headers, Linked,
           Listed, Tiled, Coalesced;
      ghost var m, bs := words[..], blocks;
      TakeableWords(m, matrix[..], bs, lists, i);
      TakeableParts(m, matrix[..], bs, lists, i);
      TagFields(bs[i].size, true, false);
      var tmpSize := SizeOf(words[b + 4]) - r;
      if tmpSize >= 16 {
        SplitBlock(b, r, i);
        SplitPayloads(m, words[..], bs, i, r);
      } else {
        TakeWhole(b, r, i);
        WholePayloads(m, words[..], bs, i);
      }
    }

    // TLSF_ADD_SIZE
    method AddSize(b: int)
      requires 0 <= b && b + 4 < words.Length && words[b + 4] >= 0
      modifies this`usedSize, this`maxSize
      ensures usedSize == Word32(old(usedSize) + SizeOf(words[b + 4]) + 8)
      ensures maxSize == if usedSize > old(maxSize) then usedSize else old(maxSize)
    {
      usedSize := Word32(usedSize + SizeOf(words[b + 4]) + 8);
      if usedSize > maxSize {
        maxSize := usedSize;
      }
    }

    // malloc_ex from the block found (head of class (fl, sl)) to the accounting
    method TakeBlock(b: int, r: nat, fl: nat, sl: nat, ghost c: nat)
      requires c == fl * MAX_SLI + sl && fl < REAL_FLI && sl < MAX_SLI
      requires |lists| == CELLS && lists[c] != [] && lists[c][0] in blocks
      requires b == lists[c][0].addr && r % 8 == 0 && 8 <= r <= lists[c][0].size < MAX_BLOCK && lists[c][0].free
      requires Valid()
      modifies `blocks, `flBitmap, `lists, `usedSize, `maxSize, words, matrix, slBitmap
      ensures Valid() && H() == AllocAt(old(H()), c, r)
      ensures PayloadsKept(old(words[..]), words[..], old(blocks), {})
    {
      hide Wired, Linked, Listed, Tiled, Chained, Agree, Frame, FreeAddrs, ClassOf, Takeable, Headers, Tag, SizeOf,
           Coalesced, PayloadsKept, AllListed, LiveBytes, HeapModel.Valid, Splice, Push, Index, Segment, Word32;
      ghost var h, m, bs := H(), words[..], blocks;
      ghost var i := Index(bs, lists[c][0]);
      WiredParts();
      ValidParts(h);
      TakenIndex(h, c);
      AllocValid(h, c, r);
      UsedFits(AllocAt(h, c, r));
      ExtractBlockHdr(b, fl, sl);
      WiredParts();
      WiredLists();
      ghost var m1 := words[..];
      TakeReady(h, m, m1, matrix[..], i, c);
      Carve(b, r, i);
      PayloadsTrans(m, m1, words[..], bs, {});
      SegmentWord(bs[i], r);
      AddSize(b);
    }

    // free_ex: join block i, whose size word is marked free, with a free right neighbour
    method JoinNext(b: int, ghost i: nat, ghost p: bool, ghost q: bool)
      requires i < |blocks| - 1 && b == blocks[i].addr && |lists| == CELLS
      requires var s, n := blocks[i].size, blocks[i + 1];
               && n.addr == b + 8 + s && n.addr + 8 <= words.Length && s % 8 == 0 && n.size % 8 == 0
               && words[b + 4] == Tag(s, true, p) && words[n.addr + 4] == Tag(n.size, n.free, q)
               && (n.free ==> n.size < MAX_BLOCK && ClassOf(n.size) == Cell(n.size) && n in lists[Cell(n.size)])
      requires Wired()
      modifies this`flBitmap, this`lists, words, matrix, slBitmap
      ensures Wired() && Writes(old(words[..]), words[..], FreeAddrs(blocks), {b + 4})
      ensures lists == (if blocks[i + 1].free then Unlink(old(lists), blocks[i + 1]) else old(lists))
      ensures words[b + 4] == Tag(RightSize(blocks, i), true, p)
    {
      hide Wired, Tag, SizeOf, IsFree, ClassOf, Cell, FreeAddrs, Frame, Writes, Tiled, Unlink;
      ghost var m, n := words[..], blocks[i + 1];
      WiredParts();
      WritesNone(m, FreeAddrs(blocks), {b + 4});
      TagFields(blocks[i].size, true, p);
      TagFields(n.size, n.free, q);
      var tmp := b + 8 + SizeOf(words[b + 4]);
      if IsFree(words[tmp + 4]) {
        var fl, sl := MappingInsert(SizeOf(words[tmp + 4]));
        TakenOut(lists, n, fl * MAX_SLI + sl);
        ExtractBlock(tmp, fl, sl, Index(lists[fl * MAX_SLI + sl], n));
        ghost var m1 := words[..];
        JoinWords(m, m1, blocks, blocks[i], n);
        TagSum(blocks[i].size, n.size + 8, true, p);
        StoreHeader(b + 4, words[b + 4] + SizeOf(words[tmp + 4]) + 8, blocks[i]);
        WritesJoined(m, m1, words[..], FreeAddrs(blocks), b + 4);
      }
    }

    // free_ex: join the bytes joined so far with the left neighbour of block i, if that is free
    method JoinPrev(b0: nat, ghost i: nat, ghost right: nat, ghost p: bool) returns (b: nat)
      requires i < |blocks| - 1 && b0 == blocks[i].addr && |lists| == CELLS && p == PrevFree(blocks, i)
      requires b0 + 8 <= words.Length && right % 8 == 0 && words[b0 + 4] == Tag(right, true, p)
      requires p ==> var x := blocks[i - 1];
               && x.addr + 16 <= b0 && x.size % 8 == 0 && words[b0] == x.addr
               && words[x.addr + 4] == Tag(x.size, true, false)
               && x.size < MAX_BLOCK && ClassOf(x.size) == Cell(x.size) && x in lists[Cell(x.size)]
      requires Wired()
      modifies `flBitmap, `lists, words, matrix, slBitmap
      ensures Wired() && Writes(old(words[..]), words[..], FreeAddrs(blocks), {b + 4}) && b + 4 < words.Length
      ensures b == (if p then blocks[i - 1] else blocks[i]).addr
      ensures lists == (if p then Unlink(old(lists), blocks[i - 1]) else old(lists))
      ensures words[b + 4] == Tag(right + (if p then blocks[i - 1].size + 8 else 0), true, false)
    {
      hide Wired, Tag, SizeOf, IsFree, IsPrevFree, ClassOf, Cell, FreeAddrs, Frame, Writes, Tiled, Unlink;
      ghost var m := words[..];
      WiredParts();
      TagFields(right, true, p);
      WritesNone(m, FreeAddrs(blocks), {b0 + 4});
      b := b0;
      if IsPrevFree(words[b + 4]) {
        ghost var x := blocks[i - 1];
        TagFields(x.size, true, false);
        var tmp := words[b];
        var fl, sl := MappingInsert(SizeOf(words[tmp + 4]));
        TakenOut(lists, x, fl * MAX_SLI + sl);
        ExtractBlock(tmp, fl, sl, Index(lists[fl * MAX_SLI + sl], x));
        ghost var m1 := words[..];
        JoinWords(m, m1, blocks, blocks[i], x);
        TagSum(x.size, right + 8, true, false);
        StoreHeader(tmp + 4, words[tmp + 4] + SizeOf(words[b + 4]) + 8, x);
        WritesJoined(m, m1, words[..], FreeAddrs(blocks), tmp + 4);
        b := tmp;
      }
    }

    // Clear the link words of a block that is in no list
    method ClearLinks(b: nat, ghost x: Block)
      requires x in blocks && b == x.addr && b + 16 <= words.Length && 8 <= x.size && |lists| == CELLS
      requires (forall c :: 0 <= c < CELLS ==> x !in lists[c]) && Wired()
      modifies words
      ensures Wired() && words[..] == old(words[..])[b + 8 := 0][b + 12 := 0]
    {
      hide Agree, Listed, Linked, Tiled;
      TiledChained(blocks);
      InnerWrite(words[..], matrix[..], blocks, lists, x, b + 8, 0);
      InnerWrite(words[..][b + 8 := 0], matrix[..], blocks, lists, x, b + 12, 0);
      words[b + 8] := 0;
      words[b + 12] := 0;
    }

    // free_ex: insert the joined block x and tell its right neighbour e about it
    method FinishRelease(b: nat, ghost x: Block, ghost e: Block, ghost q: bool)
      requires x in blocks && x.free && b == x.addr && e in blocks && e.addr == x.End() && |lists| == CELLS
      requires e.addr + 8 <= words.Length && x.addr + 16 <= e.addr && x.size % 8 == 0 && e.size % 8 == 0
      requires words[b + 4] == Tag(x.size, true, false) && words[e.addr + 4] == Tag(e.size, e.free, q)
      requires x.size < MAX_BLOCK && ClassOf(x.size) == Cell(x.size)
      requires (forall d :: 0 <= d < CELLS ==> x !in lists[d]) && Wired()
      modifies this`flBitmap, this`lists, words, matrix, slBitmap
      ensures Wired() && Writes(old(words[..]), words[..], FreeAddrs(blocks), {e.addr, e.addr + 4})
      ensures lists == Push(old(lists), x)
      ensures words[b + 4] == Tag(x.size, true, false)
      ensures words[e.addr] == b && words[e.addr + 4] == Tag(e.size, e.free, true)
    {
      hide Wired, Tag, SizeOf, SetPrevFree, IsPrevFree, ClassOf, Cell, FreeAddrs, Frame, Writes, Tiled, Push;
      ghost var m := words[..];
      WiredParts();
      TagFields(x.size, true, false);
      TagFields(e.size, e.free, q);
      TagFields(e.size, e.free, true);
      var fl, sl := MappingInsert(SizeOf(words[b + 4]));
      InsertBlock(b, fl, sl, x);
      ghost var m1 := words[..];
      JoinWords(m, m1, blocks, x, e);
      var tmp := b + 8 + SizeOf(words[b + 4]);
      StoreHeader(tmp + 4, SetPrevFree(words[tmp + 4]), e);
      StoreHeader(tmp, b, e);
      WritesTwo(m, m1, words[..], FreeAddrs(blocks), e.addr, e.addr + 4);
    }

    // free_ex: mark the block free, TLSF_REMOVE_SIZE, clear its links
    method MarkFree(b: nat, ghost x: Block, ghost p: bool)
      requires x in blocks && b == x.addr && b + 16 <= words.Length && 8 <= x.size && x.size % 8 == 0
               && |lists| == CELLS
      requires words[b + 4] == Tag(x.size, false, p)
      requires (forall c :: 0 <= c < CELLS ==> x !in lists[c]) && Wired()
      modifies `usedSize, words
      ensures Wired() && words[..] == old(words[..])[b + 4 := Tag(x.size, true, p)][b + 8 := 0][b + 12 := 0]
      ensures usedSize == Word32(old(usedSize) - (x.size + 8))
    {
      hide Wired, Tag, SizeOf, IsFree, SetFree, ClassOf, Word32;
      TagFields(x.size, false, p);
      TagFields(x.size, true, p);
      StoreHeader(b + 4, SetFree(words[b + 4]), x);
      usedSize := Word32(usedSize - (SizeOf(words[b + 4]) + 8));
      ClearLinks(b, x);
    }

    // free_ex: join both free neighbours
    method JoinBoth(b0: nat, ghost i: nat, ghost p: bool, ghost q: bool) returns (b: nat)
      requires i < |blocks| - 1 && b0 == blocks[i].addr && |lists| == CELLS && b0 + 8 <= words.Length
      requires Joinable(words[..], blocks, lists, i, p, q) && Wired()
      modifies `flBitmap, `lists, words, matrix, slBitmap
      ensures Wired() && lists == Detached(blocks, old(lists), i)
      ensures b == Merged(blocks, i).addr && b + 4 < words.Length
              && words[b + 4] == Tag(Merged(blocks, i).size, true, false)
      ensures Writes(old(words[..]), words[..], FreeAddrs(blocks), {b0 + 4, b + 4})
    {
      hide Wired, Tag, ClassOf, Cell, FreeAddrs, Writes, Tiled, Unlink;
      ghost var m, right, ls := words[..], RightSize(blocks, i), lists;
      WiredParts();
      LeftFacts(m, blocks, lists, i, p, q);
      JoinNext(b0, i, p, q);
      ghost var m1 := words[..];
      LeftWords(m, m1, blocks, ls, i, p, q);
      b := JoinPrev(b0, i, right, p);
      WritesTwice(m, m1, words[..], FreeAddrs(blocks), {b0 + 4}, {b + 4}, {b0 + 4, b + 4});
    }

    // free_ex, first part: everything up to the insertion of the joined block
    method JoinAll(b0: nat, ghost i: nat) returns (b: nat)
      requires i < |blocks| - 1 && b0 == blocks[i].addr && b0 + 16 <= words.Length && |lists| == CELLS
      requires MergeHi(blocks, i) < |blocks| && blocks[MergeHi(blocks, i)].addr + 8 <= words.Length
      requires Wired() && Releasable(words[..], blocks, lists, i)
      modifies `flBitmap, `lists, `usedSize, words, matrix, slBitmap
      ensures Wired() && lists == Detached(blocks, old(lists), i)
      ensures var e := blocks[MergeHi(blocks, i)]; words[e.addr + 4] == old(words[e.addr + 4])
      ensures b == Merged(blocks, i).addr && b + 4 < words.Length
              && words[b + 4] == Tag(Merged(blocks, i).size, true, false)
      ensures Writes(old(words[..]), words[..], FreeAddrs(blocks) + {b0}, MergeWords(blocks, i))
      ensures usedSize == Word32(old(usedSize) - (blocks[i].size + 8))
    {
      hide Wired, Releasable, Joinable, Tag, FreeAddrs, Writes, Detached, Word32, MergeWords, Merged, Tiled, MergeHi,
           MergeLo;
      ghost var m, x, p := words[..], blocks[i], PrevFree(blocks, i);
      WiredParts();
      ReleaseSelf(m, blocks, lists, i);
      ReleaseUnlisted(m, blocks, lists, i);
      MarkFree(b0, x, p);
      ghost var m1 := words[..];
      ghost var q := MarkedJoinable(m, m1, blocks, lists, i);
      b := JoinBoth(b0, i, p, q);
      EndKept(m, m1, words[..], blocks, i, Tag(x.size, true, p));
      WritesSoFar(m, m1, words[..], blocks, i, Tag(x.size, true, p));
    }

    // free_ex from the size word of block i to the end
    method ReleaseBlock(b0: nat, ghost i: nat)
      requires i < |blocks| - 1 && b0 == blocks[i].addr && b0 + 16 <= words.Length && |lists| == CELLS
      requires Wired() && Releasable(words[..], blocks, lists, i)
      modifies `blocks, `flBitmap, `lists, `usedSize, words, matrix, slBitmap
      ensures Wired() && Headers(words[..], blocks)
      ensures blocks == Splice(old(blocks), MergeLo(old(blocks), i), MergeHi(old(blocks), i), [Merged(old(blocks), i)])
      ensures lists == Push(Detached(old(blocks), old(lists), i), Merged(old(blocks), i))
      ensures usedSize == Word32(old(usedSize) - (old(blocks)[i].size + 8))
      ensures PayloadsKept(old(words[..]), words[..], old(blocks), {old(blocks)[i]})
    {
      hide Wired, Releasable, Tag, ClassOf, Cell, FreeAddrs, Writes, Detached, Word32, MergeWords, Merged, Headers,
           PayloadsKept, Splice, MergeLo, MergeHi, Push;
      ghost var m, bs, ls, x := words[..], blocks, lists, Merged(blocks, i);
      ReleaseEnd(m, bs, ls, i);
      MergedInLayout(m, bs, ls, i);
      ghost var e := bs[MergeHi(bs, i)];
      var b := JoinAll(b0, i);
      ghost var m1 := words[..];
      WiredLists();
      Relayout(Splice(bs, MergeLo(bs, i), MergeHi(bs, i), [x]));
      FinishRelease(b, x, e, m[e.addr + 4] != Tag(e.size, false, false));
      MergeWordsHas(bs, i);
      WritesTrans(m, m1, words[..], FreeAddrs(bs) + {b0}, MergeWords(bs, i), FreeAddrs(blocks), {e.addr, e.addr + 4});
      ReleaseDone(m, words[..], bs, ls, i);
    }

    // free_ex
    method FreeEx(ptr: nat)
      requires Valid() && (ptr == 0 || IsLive(H(), ptr))
      modifies `blocks, `flBitmap, `lists, `usedSize, words, matrix, slBitmap
      ensures Valid()
      ensures ptr == 0 ==> H() == old(H()) && words[..] == old(words[..])
      ensures ptr != 0 ==> H() == Free(old(H()), ptr)
      ensures ptr != 0 ==> PayloadsKept(old(words[..]), words[..], old(blocks), {old(blocks)[LiveAt(old(H()), ptr)]})
    {
      hide Wired, Headers, HeapModel.Valid, PayloadsKept, Releasable, IsLive, Splice, MergeLo, MergeHi, Merged,
           Detached, Push, Live, Word32, LiveAt;
      if ptr == 0 {
        return;
      }
      ghost var h := H();
      ghost var i := LiveAt(h, ptr);
      ValidParts(h);
      WiredParts();
      ReleasableValid(h, words[..], i);
      FreeValid(h, i);
      UsedFits(FreeAt(h, i));
      ReleaseBlock(ptr - 8, i);
    }

    // malloc_ex
    method MallocEx(n: nat) returns (ptr: nat)
      requires Valid() && n <= MAX_SEARCH
      modifies `blocks, `flBitmap, `lists, `usedSize, `maxSize, words, matrix, slBitmap
      ensures Valid() && (H(), ptr) == Malloc(old(H()), n)
      ensures PayloadsKept(old(words[..]), words[..], old(blocks), {})
    {
      hide Wired, Headers, HeapModel.Valid, PayloadsKept, AllocAt, Cell, CellLower, SearchCell, FirstNonEmpty;
      ghost var h := H();
      ValidParts(h);
      var size := if n < 8 then 8 else (n + 7) - (n + 7) % 8;
      var fl, sl;
      size, fl, sl := MappingSearch(size);
      var b;
      b, fl, sl := FindSuitableBlock(fl, sl);
      if b == 0 {
        KeptNone(words[..], blocks);
        return 0;
      }
      AllocBounds(h, n, fl * MAX_SLI + sl);
      TakeBlock(b, size, fl, sl, fl * MAX_SLI + sl);
      ptr := b + 8;
    }

    // A pool in zero-initialised memory
    constructor (n: nat)
      ensures size == n && Shape() && fresh(words) && fresh(matrix) && fresh(slBitmap)
      ensures Blank() && signature == 0
    {
      size := n;
      words := new int[n](_ => 0);
      matrix := new int[CELLS](_ => 0);
      slBitmap := new bv32[REAL_FLI](_ => 0);
      flBitmap, usedSize, maxSize, signature, areaHead := 0, 0, 0, 0, 0;
      blocks, lists := [], Empty();
    }

    ghost predicate Blank()
      reads this, matrix, slBitmap
    {
      && Shape() && lists == Empty() && flBitmap == 0 && usedSize == 0
      && (forall c :: 0 <= c < CELLS ==> matrix[c] == 0)
      && (forall f :: 0 <= f < REAL_FLI ==> slBitmap[f] == 0)
    }

    // process_area: lay out the area header, one used block and the sentinel
    method ProcessArea(area: nat, areaSize: nat) returns (ib: nat)
      requires Shape() && area % 8 == 0 && 64 <= areaSize && areaSize % 8 == 0 && area + areaSize <= words.Length
      modifies words
      ensures ib == area && words[area + 4] == 8
      ensures var b, s := area + 16, areaSize - 32;
              && words[b + 4] == s && words[b + 8] == 0 && words[b + 12] == 0
              && words[b + 8 + s] == b && words[b + 8 + s + 4] == 2
              && words[area + 8] == b + 8 + s && words[area + 12] == 0
    {
      ib := area;
      words[ib + 4] := 8;
      var b := ib + 8 + 8;
      var s := areaSize - 3 * 8 - 8;
      words[b + 4] := s;
      words[b + 8] := 0;
      words[b + 12] := 0;
      var lb := b + 8 + s;
      words[lb] := b;
      words[lb + 4] := 2;
      words[ib + 8 + 4] := 0;
      words[ib + 8] := lb;
    }

    // The area of a blank pool as one used block, with empty lists
    method PrepareArea() returns (b: nat)
      requires Blank() && MIN_POOL <= size <= MAX_POOL
      modifies `blocks, words
      ensures b == FIRST && blocks == AreaBlocks(size) && lists == Empty() && b + 16 <= words.Length
      ensures Wired() && Releasable(words[..], blocks, lists, 0)
    {
      hide Releasable, Linked, Listed, Tiled, Agree, Empty;
      var ib := ProcessArea(CONTROL_SIZE, RoundDown8(size - CONTROL_SIZE));
      b := ib + 16;
      blocks := AreaBlocks(size);
      AreaReleasable(size, words[..]);
      NothingLinked(words[..], matrix[..]);
      EmptyLists();
      NothingAgrees(flBitmap, slBitmap[..], lists);
    }

    // init_memory_pool; base is the address of the pool. A pool that carries the signature is left
    // alone, and the size word behind its control block is reported
    method InitMemoryPool(base: nat) returns (r: int)
      requires size <= MAX_POOL
      requires if signature == TLSF_SIGNATURE then CONTROL_SIZE + 4 < words.Length && words[CONTROL_SIZE + 4] >= 0
               else Blank()
      modifies this, words, matrix, slBitmap
      ensures base == 0 || size < MIN_POOL || base % 4 != 0 ==>
                r == -1 && unchanged(this) && unchanged(words) && unchanged(matrix) && unchanged(slBitmap)
      ensures base != 0 && size >= MIN_POOL && base % 4 == 0 && old(signature) == TLSF_SIGNATURE ==>
                r == SizeOf(old(words[CONTROL_SIZE + 4]))
                && unchanged(this) && unchanged(words) && unchanged(matrix) && unchanged(slBitmap)
      ensures base != 0 && size >= MIN_POOL && base % 4 == 0 && old(signature) != TLSF_SIGNATURE ==>
                && Valid() && H() == Init(size) && r == InitSize(size)
                && signature == TLSF_SIGNATURE && areaHead == CONTROL_SIZE + 8
    {
      hide Wired, Releasable, Headers, PayloadsKept, HeapModel.Valid, Detached, Push, Splice, Merged, MergeLo, MergeHi,
           SizeOf;
      if base == 0 || size == 0 || size < CONTROL_SIZE + 8 * 8 {
        return -1;
      }
      if base % 4 != 0 {
        return -1;
      }
      if signature == TLSF_SIGNATURE {
        return SizeOf(words[CONTROL_SIZE + 4]);
      }
      signature := TLSF_SIGNATURE;
      var b := PrepareArea();
      ReleaseBlock(b, 0);
      AreaFreed(size);
      InitValid(size);
      InitHeader(size, words[..]);
      areaHead := CONTROL_SIZE + 8;
      r := SizeOf(words[b + 4]);
      usedSize := size - r;
      maxSize := usedSize;
    }

    // What the owner of live block x may do between calls: store a word inside it
    method WritePayload(w: nat, v: int, ghost x: Block)
      requires Valid() && Live(blocks, x) && x.addr + 8 <= w < x.End() && w < words.Length
      requires w % 4 == 0 && 0 <= v < 0x1_0000_0000
      modifies words
      ensures Valid() && H() == old(H()) && words[..] == old(words[..])[w := v]
    {
      hide Agree, Listed, Linked, Tiled, Headers, HeapModel.Valid;
      ValidParts(H());
      forall c | 0 <= c < CELLS ensures x !in lists[c] {
        NotListed(blocks, lists, x, c);
      }
      InnerWrite(words[..], matrix[..], blocks, lists, x, w, v);
      InnerHeaders(words[..], blocks, x, w, v);
      words[w] := v;
      assert words[..] == old(words[..])[w := v];
    }

    // uLipeMemAlloc
    method MemAlloc(n: nat) returns (ptr: nat)
      requires Valid()
      modifies `blocks, `flBitmap, `lists, `usedSize, `maxSize, words, matrix, slBitmap
      ensures Valid() && H() == Step(old(H()), Alloc(n)) && ptr == Malloc(old(H()), Clamp(n)).1
      ensures PayloadsKept(old(words[..]), words[..], old(blocks), {})
    {
      var m := n;
      if m > OS_MAX_SIZED_HEAP_BLOCK {
        m := OS_MAX_SIZED_HEAP_BLOCK;
      }
      ptr := MallocEx(m);
    }

    // uLipeMemFree
    method MemFree(mem: nat)
      requires Valid() && Enabled(H(), Release(mem))
      modifies `blocks, `flBitmap, `lists, `usedSize, words, matrix, slBitmap
      ensures Valid() && H() == Step(old(H()), Release(mem))
      ensures mem == 0 ==> words[..] == old(words[..])
      ensures mem != 0 ==> PayloadsKept(old(words[..]), words[..], old(blocks), {old(blocks)[LiveAt(old(H()), mem)]})
    {
      if mem != 0 {
        FreeEx(mem);
      }
    }
  }
}
