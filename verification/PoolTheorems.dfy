// Round trips through the words of the pool.
module PoolTheorems {
  import opened SizeClass
  import opened Layout
  import opened HeapModel
  import opened HeapTheorems
  import opened Bitmaps
  import opened Memory
  import opened Tags
  import opened Tlsf

  // What the control structures of a pool hold: bitmaps, list heads and the words themselves
  datatype Image = Image(fl: bv32, sl: seq<bv32>, heads: seq<int>, words: seq<int>)

  ghost function ImageOf(p: Pool): Image
    reads p, p.words, p.matrix, p.slBitmap
  {
    Image(p.flBitmap, p.slBitmap[..], p.matrix[..], p.words[..])
  }

  // a and b hold the same bitmaps, list heads, boundary tags and links for the heap h
  ghost predicate SameControl(a: Image, b: Image, h: Heap)
  {
    && a.fl == b.fl && a.sl == b.sl && a.heads == b.heads
    && TagsKept(a.words, b.words, h.blocks) && LinksKept(a.words, b.words, h.lists)
  }

  // Everything in a that says which heap it holds
  ghost predicate Holds(a: Image, h: Heap)
  {
    && |h.lists| == CELLS
    && Linked(a.words, a.heads, h.lists) && Agree(a.fl, a.sl, h.lists) && Headers(a.words, h.blocks)
  }

  lemma PoolHolds(p: Pool)
    requires p.Valid()
    ensures Holds(ImageOf(p), p.H())
  {
    hide Linked, Agree, Headers, Tiled, Listed, HeapModel.Valid;
  }

  // The heap a pool holds determines its control structures
  lemma ControlDetermined(a: Image, b: Image, h: Heap)
    requires Holds(a, h) && Holds(b, h)
    ensures SameControl(a, b, h)
  {
    hide Linked, Agree, Headers, TagsKept, LinksKept;
    AgreeUnique(a.fl, a.sl, b.fl, b.sl, h.lists);
    HeadersUnique(a.words, b.words, h.blocks);
    LinkedUnique(a.words, a.heads, b.words, b.heads, h.lists);
  }

  lemma MaxIrrelevant(a: Image, h: Heap, max: int)
    requires Holds(a, h)
    ensures Holds(a, h.(max := max))
  {}

  // malloc_ex followed at once by free_ex of its result: besides the value of the heap, both bitmaps,
  // the list heads, every boundary tag and every link are as before, and no payload of a live block
  // was written; only max_size may differ
  method AllocateAndRelease(p: Pool, n: nat) returns (ptr: nat)
    requires p.Valid() && n <= MAX_SEARCH
    modifies p`blocks, p`flBitmap, p`lists, p`usedSize, p`maxSize, p.words, p.matrix, p.slBitmap
    ensures p.Valid() && p.H() == old(p.H()).(max := p.maxSize)
    ensures SameControl(old(ImageOf(p)), ImageOf(p), old(p.H()))
    ensures PayloadsKept(old(p.words[..]), p.words[..], old(p.blocks), {})
  {
    hide Pool.Valid, Holds, SameControl, PayloadsKept, Malloc, Free, IsLive, Adjust, HeapModel.Valid;
    ghost var h, a := p.H(), ImageOf(p);
    PoolHolds(p);
    PoolValue(p);
    ptr := p.MallocEx(n);
    ghost var m := p.words[..];
    if ptr != 0 {
      RoundTrip(h, n);
      ghost var g := p.H();
      p.FreeEx(ptr);
      PayloadsBack(h, n, a.words, m, p.words[..]);
    } else {
      MallocFailsIff(h, n);
    }
    PoolHolds(p);
    MaxIrrelevant(a, h, p.maxSize);
    MaxIrrelevant(ImageOf(p), p.H(), p.maxSize);
    ControlDetermined(a, ImageOf(p), h.(max := p.maxSize));
    ControlMax(a, ImageOf(p), h, p.maxSize);
  }

  lemma PoolValue(p: Pool)
    requires p.Valid()
    ensures HeapModel.Valid(p.H())
  {
    hide HeapModel.Valid, Linked, Agree, Headers;
  }

  lemma ControlMax(a: Image, b: Image, h: Heap, max: int)
    requires SameControl(a, b, h.(max := max))
    ensures SameControl(a, b, h)
  {}

  // The blocks live before are live in between and are not the one that is released
  lemma PayloadsBack(h: Heap, n: nat, m0: seq<int>, m1: seq<int>, m2: seq<int>)
    requires HeapModel.Valid(h) && n <= MAX_SEARCH && Malloc(h, n).1 != 0
    requires HeapModel.Valid(Malloc(h, n).0) && IsLive(Malloc(h, n).0, Malloc(h, n).1)
    requires PayloadsKept(m0, m1, h.blocks, {})
    requires var g := Malloc(h, n).0; PayloadsKept(m1, m2, g.blocks, {g.blocks[LiveAt(g, Malloc(h, n).1)]})
    ensures PayloadsKept(m0, m2, h.blocks, {})
  {
    hide Malloc, Adjust, HeapModel.Valid, Live;
    var (g, ptr) := Malloc(h, n);
    MallocLive(h, n);
    var x := g.blocks[LiveAt(g, ptr)];
    forall y | Live(h.blocks, y) ensures Live(g.blocks, y) && y != x {
      if y == x { LiveSameAddr(g, x, Got(h, n)); }
    }
  }
}
