// Free lists as doubly linked lists in the words of the pool.
module Memory {
  import opened SizeClass
  import opened Layout
  import opened HeapModel

  // ---- free-list links ---------------------------------------------------------------------

  ghost predicate Node(m: seq<int>, s: seq<Block>, k: nat)
    requires k < |s|
  {
    var a := s[k].addr;
    && a % 8 == 0 && FIRST <= a && a + 16 <= |m|
    && m[a + 8] == (if k == 0 then 0 else s[k - 1].addr)
    && m[a + 12] == (if k + 1 < |s| then s[k + 1].addr else 0)
  }

  // The words of m link exactly the blocks of s, from head on
  ghost predicate Chain(m: seq<int>, head: int, s: seq<Block>)
  {
    && head == (if s == [] then 0 else s[0].addr)
    && forall k :: 0 <= k < |s| ==> Node(m, s, k)
  }

  ghost predicate Linked(m: seq<int>, matrix: seq<int>, lists: seq<seq<Block>>)
  {
    && |matrix| == CELLS == |lists|
    && forall c :: 0 <= c < CELLS ==> Chain(m, matrix[c], lists[c])
  }

  // Only link words of the blocks at the addresses A differ
  ghost predicate Frame(m: seq<int>, m': seq<int>, A: set<int>)
  {
    && |m'| == |m|
    && forall w :: 0 <= w < |m| && w - 8 !in A && w - 12 !in A ==> m'[w] == m[w]
  }

  ghost predicate Aligned8(A: set<int>)
  {
    forall a :: a in A ==> a % 8 == 0
  }

  lemma ChainFrame(m: seq<int>, m': seq<int>, head: int, s: seq<Block>, A: set<int>)
    requires Chain(m, head, s) && Frame(m, m', A) && Aligned8(A)
    requires forall x :: x in s ==> x.addr !in A
    ensures Chain(m', head, s)
  {
    forall k | 0 <= k < |s| ensures Node(m', s, k) {
      assert Node(m, s, k);
      var a := s[k].addr;
      assert s[k] in s;
      assert a - 4 !in A && a + 4 !in A;
    }
  }

  ghost predicate DistinctAddrs(s: seq<Block>)
  {
    forall i, j :: 0 <= i < j < |s| ==> s[i].addr != s[j].addr
  }

  // Different list elements are at different addresses
  lemma ListAddrs(bs: seq<Block>, lists: seq<seq<Block>>, c: nat, x: Block, d: nat, y: Block)
    requires Chained(bs) && Listed(bs, lists) && c < CELLS && d < CELLS && x in lists[c] && y in lists[d]
    requires c != d || x != y
    ensures x.addr != y.addr
  {
    hide ClassOf;
    if x.addr == y.addr {
      SameAddr(bs, x, y);
    }
  }

  // Words after taking b out between the neighbours p and n (0: none)
  ghost function UnlinkWords(m: seq<int>, p: int, n: int, b: int): (r: seq<int>)
    requires p == 0 || (0 <= p && p + 16 <= |m|)
    requires n == 0 || (0 <= n && n + 16 <= |m|)
    requires 0 <= b && b + 16 <= |m|
    ensures |r| == |m|
  {
    var m1 := if n != 0 then m[n + 8 := p] else m;
    var m2 := if p != 0 then m1[p + 12 := n] else m1;
    m2[b + 8 := 0][b + 12 := 0]
  }

  // Words after putting b in front of head (0: none)
  ghost function LinkWords(m: seq<int>, head: int, b: int): (r: seq<int>)
    requires head == 0 || (0 <= head && head + 16 <= |m|)
    requires 0 <= b && b + 16 <= |m|
    ensures |r| == |m|
  {
    var m1 := m[b + 8 := 0][b + 12 := head];
    if head != 0 then m1[head + 8 := b] else m1
  }

  function AddrOr0(s: seq<Block>, k: int): int
  {
    if 0 <= k < |s| then s[k].addr else 0
  }

  lemma UnlinkAt(m: seq<int>, p: int, n: int, b: int, w: int)
    requires p == 0 || (0 <= p && p + 16 <= |m|)
    requires n == 0 || (0 <= n && n + 16 <= |m|)
    requires 0 <= b && b + 16 <= |m| && 0 <= w < |m|
    requires p != b && n != b && p % 8 == 0 && n % 8 == 0 && b % 8 == 0
    ensures UnlinkWords(m, p, n, b)[w] ==
            if w == b + 8 || w == b + 12 then 0
            else if p != 0 && w == p + 12 then n
            else if n != 0 && w == n + 8 then p
            else m[w]
  {}

  // The links of element j once element k is out
  lemma UnlinkedLinks(m: seq<int>, s: seq<Block>, k: nat, j: nat)
    requires forall i :: 0 <= i < |s| ==> Node(m, s, i)
    requires k < |s| && j < |s| && j != k
    requires DistinctAddrs(s)
    requires var p, n := AddrOr0(s, k - 1), AddrOr0(s, k + 1);
             (p == 0 || (0 <= p && p + 16 <= |m|)) && (n == 0 || (0 <= n && n + 16 <= |m|))
             && 0 <= s[k].addr && s[k].addr + 16 <= |m|
    ensures 0 <= s[j].addr && s[j].addr + 16 <= |m|
    ensures var p, n, a := AddrOr0(s, k - 1), AddrOr0(s, k + 1), s[j].addr;
            var m' := UnlinkWords(m, p, n, s[k].addr);
            && m'[a + 8] == (if j == k + 1 then p else m[a + 8])
            && m'[a + 12] == (if j + 1 == k then n else m[a + 12])
  {
    hide UnlinkWords;
    var p, n, b := AddrOr0(s, k - 1), AddrOr0(s, k + 1), s[k].addr;
    assert Node(m, s, k) && Node(m, s, j);
    assert k > 0 ==> Node(m, s, k - 1);
    assert k + 1 < |s| ==> Node(m, s, k + 1);
    UnlinkAt(m, p, n, b, s[j].addr + 8);
    UnlinkAt(m, p, n, b, s[j].addr + 12);
  }

  lemma UnlinkNode(m: seq<int>, s: seq<Block>, k: nat, i: nat)
    requires forall i :: 0 <= i < |s| ==> Node(m, s, i)
    requires k < |s| && i < |s| - 1
    requires DistinctAddrs(s)
    requires var p, n := AddrOr0(s, k - 1), AddrOr0(s, k + 1);
             (p == 0 || (0 <= p && p + 16 <= |m|)) && (n == 0 || (0 <= n && n + 16 <= |m|))
             && s[k].addr + 16 <= |m|
    ensures Node(UnlinkWords(m, AddrOr0(s, k - 1), AddrOr0(s, k + 1), s[k].addr), s[..k] + s[k + 1..], i)
  {
    hide UnlinkWords, DistinctAddrs;
    var j := if i < k then i else i + 1;
    assert Node(m, s, j);
    assert Node(m, s, k);
    UnlinkedLinks(m, s, k, j);
  }

  lemma UnlinkChain(m: seq<int>, head: int, s: seq<Block>, k: nat)
    requires Chain(m, head, s) && k < |s|
    requires DistinctAddrs(s)
    ensures Node(m, s, k) && (k > 0 ==> Node(m, s, k - 1)) && (k + 1 < |s| ==> Node(m, s, k + 1))
    ensures var p, n, b := AddrOr0(s, k - 1), AddrOr0(s, k + 1), s[k].addr;
            Chain(UnlinkWords(m, p, n, b), if k == 0 then n else head, s[..k] + s[k + 1..])
  {
    hide UnlinkWords;
    assert Node(m, s, k);
    if k > 0 { assert Node(m, s, k - 1); }
    if k + 1 < |s| { assert Node(m, s, k + 1); }
    var m' := UnlinkWords(m, AddrOr0(s, k - 1), AddrOr0(s, k + 1), s[k].addr);
    var t := s[..k] + s[k + 1..];
    forall i | 0 <= i < |t| ensures Node(m', t, i) {
      UnlinkNode(m, s, k, i);
    }
  }

  lemma LinkChain(m: seq<int>, head: int, s: seq<Block>, b: Block)
    requires Chain(m, head, s) && b.addr % 8 == 0 && FIRST <= b.addr && b.addr + 16 <= |m|
    requires DistinctAddrs(s)
    requires forall i :: 0 <= i < |s| ==> s[i].addr != b.addr
    ensures head == 0 || (s != [] && Node(m, s, 0))
    ensures Chain(LinkWords(m, head, b.addr), b.addr, [b] + s)
  {
    if s != [] { assert Node(m, s, 0); }
    var m' := LinkWords(m, head, b.addr);
    var t := [b] + s;
    forall i | 0 <= i < |t| ensures Node(m', t, i) {
      if i > 0 { assert Node(m, s, i - 1); }
    }
  }

  lemma UnlinkFrame(m: seq<int>, p: int, n: int, b: int)
    requires p == 0 || (0 <= p && p + 16 <= |m|)
    requires n == 0 || (0 <= n && n + 16 <= |m|)
    requires 0 <= b && b + 16 <= |m|
    ensures Frame(m, UnlinkWords(m, p, n, b), {b} + (if p != 0 then {p} else {}) + (if n != 0 then {n} else {}))
  {}

  lemma LinkFrame(m: seq<int>, head: int, b: int)
    requires head == 0 || (0 <= head && head + 16 <= |m|)
    requires 0 <= b && b + 16 <= |m|
    ensures Frame(m, LinkWords(m, head, b), {b} + (if head != 0 then {head} else {}))
  {}

  // ---- the matrix of lists -----------------------------------------------------------------

  ghost function FreeAddrs(bs: seq<Block>): set<int>
  {
    set x | x in bs && x.free :: x.addr
  }

  lemma AddrsDiffer(bs: seq<Block>, lists: seq<seq<Block>>, c: nat)
    requires Chained(bs) && Listed(bs, lists) && c < CELLS
    ensures DistinctAddrs(lists[c])
  {
    hide ClassOf;
    var s := lists[c];
    forall i, j | 0 <= i < j < |s| ensures s[i].addr != s[j].addr {
      assert s[i] in s && s[j] in s;
      ListAddrs(bs, lists, c, s[i], c, s[j]);
    }
  }

  lemma FrameWiden(m: seq<int>, m': seq<int>, A: set<int>, B: set<int>)
    requires Frame(m, m', A) && A <= B
    ensures Frame(m, m', B)
  {}

  // The other lists are untouched when only nodes of list c (and x) are written
  lemma OthersKept(m: seq<int>, m': seq<int>, matrix: seq<int>, matrix': seq<int>,
                   bs: seq<Block>, lists: seq<seq<Block>>, lists': seq<seq<Block>>, c: nat, A: set<int>)
    requires Chained(bs) && Listed(bs, lists) && Linked(m, matrix, lists) && c < CELLS
    requires |matrix'| == CELLS == |lists'|
    requires forall d :: 0 <= d < CELLS && d != c ==> matrix'[d] == matrix[d] && lists'[d] == lists[d]
    requires Frame(m, m', A) && Aligned8(A)
    requires forall d, y :: 0 <= d < CELLS && d != c && y in lists[d] ==> y.addr !in A
    requires Chain(m', matrix'[c], lists'[c])
    ensures Linked(m', matrix', lists')
  {
    hide ClassOf, Listed, Frame, Aligned8;
    forall d | 0 <= d < CELLS ensures Chain(m', matrix'[d], lists'[d]) {
      if d != c {
        ChainFrame(m, m', matrix[d], lists[d], A);
      }
    }
  }

  lemma UnlinkLinked(m: seq<int>, matrix: seq<int>, bs: seq<Block>, lists: seq<seq<Block>>, c: nat, k: nat)
    requires Chained(bs) && Listed(bs, lists) && Linked(m, matrix, lists) && c < CELLS && k < |lists[c]|
    ensures Node(m, lists[c], k) && (k > 0 ==> Node(m, lists[c], k - 1))
    ensures k + 1 < |lists[c]| ==> Node(m, lists[c], k + 1)
    ensures matrix[c] == lists[c][k].addr <==> k == 0
    ensures DistinctAddrs(lists[c])
    ensures var s := lists[c]; var p, n, b := AddrOr0(s, k - 1), AddrOr0(s, k + 1), s[k].addr;
            var m' := UnlinkWords(m, p, n, b);
            && Linked(m', if k == 0 then matrix[c := n] else matrix, lists[c := s[..k] + s[k + 1..]])
            && Frame(m, m', FreeAddrs(bs))
  {
    hide ClassOf, UnlinkWords, Node, Frame;
    var s := lists[c];
    var p, n, b := AddrOr0(s, k - 1), AddrOr0(s, k + 1), s[k].addr;
    assert Chain(m, matrix[c], s);
    AddrsDiffer(bs, lists, c);
    UnlinkChain(m, matrix[c], s, k);
    NodeFacts(m, s, k);
    if k > 0 { NodeFacts(m, s, k - 1); }
    if k + 1 < |s| { NodeFacts(m, s, k + 1); }
    UnlinkFrame(m, p, n, b);
    var m' := UnlinkWords(m, p, n, b);
    var A := {b} + (if p != 0 then {p} else {}) + (if n != 0 then {n} else {});
    forall a | a in A ensures exists i :: 0 <= i < |s| && s[i].addr == a {
      if a == p {
        assert s[k - 1].addr == a;
      } else if a == n {
        assert s[k + 1].addr == a;
      } else {
        assert s[k].addr == a;
      }
    }
    NodesOfList(m, matrix, bs, lists, c, A);
    FrameWiden(m, m', A, FreeAddrs(bs));
    OthersKept(m, m', matrix, if k == 0 then matrix[c := n] else matrix, bs, lists,
               lists[c := s[..k] + s[k + 1..]], c, A);
  }

  lemma NodeFacts(m: seq<int>, s: seq<Block>, k: nat)
    requires k < |s| && Node(m, s, k)
    ensures s[k].addr % 8 == 0 && FIRST <= s[k].addr && s[k].addr + 16 <= |m|
  {}

  lemma NodesOfList(m: seq<int>, matrix: seq<int>, bs: seq<Block>, lists: seq<seq<Block>>, c: nat, A: set<int>)
    requires Chained(bs) && Listed(bs, lists) && Linked(m, matrix, lists) && c < CELLS
    requires forall a :: a in A ==> exists i :: 0 <= i < |lists[c]| && lists[c][i].addr == a
    ensures Aligned8(A) && A <= FreeAddrs(bs)
    ensures forall d, y :: 0 <= d < CELLS && d != c && y in lists[d] ==> y.addr !in A
  {
    hide ClassOf, Node;
    assert Chain(m, matrix[c], lists[c]);
    forall a | a in A ensures a % 8 == 0 && a in FreeAddrs(bs) {
      var i :| 0 <= i < |lists[c]| && lists[c][i].addr == a;
      NodeFacts(m, lists[c], i);
      assert lists[c][i] in lists[c];
    }
    forall d, y | 0 <= d < CELLS && d != c && y in lists[d] ensures y.addr !in A {
      if y.addr in A {
        var i :| 0 <= i < |lists[c]| && lists[c][i].addr == y.addr;
        assert lists[c][i] in lists[c];
        ListAddrs(bs, lists, c, lists[c][i], d, y);
      }
    }
  }

  lemma PushLinked(m: seq<int>, matrix: seq<int>, bs: seq<Block>, lists: seq<seq<Block>>, b: Block)
    requires Chained(bs) && Listed(bs, lists) && Linked(m, matrix, lists)
    requires b in bs && b.free && ClassOf(b.size) < CELLS
    requires forall d :: 0 <= d < CELLS ==> b !in lists[d]
    requires b.addr % 8 == 0 && FIRST <= b.addr && b.addr + 16 <= |m|
    ensures var c := ClassOf(b.size); var h := matrix[c];
            && (h == 0 || (FIRST <= h && h + 16 <= |m|))
            && (h == 0 <==> lists[c] == [])
            && Linked(LinkWords(m, h, b.addr), matrix[c := b.addr], Push(lists, b))
            && Frame(m, LinkWords(m, h, b.addr), FreeAddrs(bs))
  {
    hide ClassOf, LinkWords, Node, Frame;
    var c := ClassOf(b.size);
    var s, h := lists[c], matrix[c];
    assert Chain(m, h, s);
    if s != [] { NodeFacts(m, s, 0); }
    AddrsDiffer(bs, lists, c);
    NotAtAddr(bs, lists, b);
    LinkChain(m, h, s, b);
    LinkFrame(m, h, b.addr);
    var m' := LinkWords(m, h, b.addr);
    var A := {b.addr as int} + (if h != 0 then {h} else {});
    assert forall a :: a in A && a != b.addr ==> s != [] && s[0].addr == a;
    NodesOfList(m, matrix, bs, lists, c, A - {b.addr});
    FrameWiden(m, m', A, FreeAddrs(bs));
    OthersKept(m, m', matrix, matrix[c := b.addr], bs, lists, Push(lists, b), c, A);
  }

  lemma NotAtAddr(bs: seq<Block>, lists: seq<seq<Block>>, b: Block)
    requires Chained(bs) && Listed(bs, lists) && b in bs
    requires forall d :: 0 <= d < CELLS ==> b !in lists[d]
    ensures forall d, y :: 0 <= d < CELLS && y in lists[d] ==> y.addr != b.addr
    ensures forall d, i :: 0 <= d < CELLS && 0 <= i < |lists[d]| ==> lists[d][i].addr != b.addr
  {
    hide ClassOf;
    forall d, y | 0 <= d < CELLS && y in lists[d] ensures y.addr != b.addr {
      if y.addr == b.addr { SameAddr(bs, y, b); }
    }
    forall d, i | 0 <= d < CELLS && 0 <= i < |lists[d]| ensures lists[d][i].addr != b.addr {
      assert lists[d][i] in lists[d];
    }
  }

  lemma HeadAddr(m: seq<int>, matrix: seq<int>, lists: seq<seq<Block>>, c: nat)
    requires Linked(m, matrix, lists) && c < CELLS
    ensures matrix[c] == AddrOr0(lists[c], 0)
    ensures lists[c] != [] ==> matrix[c] != 0
  {
    assert Chain(m, matrix[c], lists[c]);
    if lists[c] != [] { assert Node(m, lists[c], 0); }
  }

  lemma HeadListed(bs: seq<Block>, lists: seq<seq<Block>>, c: nat)
    requires Listed(bs, lists) && c < CELLS && lists[c] != []
    ensures Listed(bs, lists[c := lists[c][1..]])
  {
    hide ClassOf;
    HeadDropped(lists[c]);
  }

  lemma DropListed(bs: seq<Block>, lists: seq<seq<Block>>, c: nat, k: nat)
    requires Listed(bs, lists) && c < CELLS && k < |lists[c]|
    ensures Listed(bs, lists[c := lists[c][..k] + lists[c][k + 1..]])
  {
    hide ClassOf;
    DropAt(lists[c], k);
  }

  lemma PushedListed(bs: seq<Block>, lists: seq<seq<Block>>, x: Block)
    requires Listed(bs, lists) && x in bs && x.free && ClassOf(x.size) < CELLS
    requires x !in lists[ClassOf(x.size)]
    ensures Listed(bs, Push(lists, x))
  {
    hide ClassOf;
  }

  // Neighbours of a list element, as its link words give them
  lemma NodeNeighbours(m: seq<int>, s: seq<Block>, k: nat)
    requires k < |s| && Node(m, s, k)
    requires k > 0 ==> Node(m, s, k - 1)
    requires k + 1 < |s| ==> Node(m, s, k + 1)
    requires DistinctAddrs(s)
    ensures var b, p, n := s[k].addr, AddrOr0(s, k - 1), AddrOr0(s, k + 1);
            && b % 8 == 0 && FIRST <= b && b + 16 <= |m| && m[b + 8] == p && m[b + 12] == n
            && (p == 0 <==> k == 0) && (n == 0 <==> k + 1 == |s|)
            && (p != 0 ==> FIRST <= p && p + 16 <= |m| && p != b && p % 8 == 0)
            && (n != 0 ==> FIRST <= n && n + 16 <= |m| && n != b && n % 8 == 0)
            && (p != 0 && n != 0 ==> p != n)
  {}

  lemma FreeBlockRoom(bs: seq<Block>, x: Block)
    requires Tiled(bs) && x in bs && x.free
    ensures x.addr % 8 == 0 && FIRST <= x.addr && x.addr + 16 <= bs[|bs| - 1].addr
  {
    var i := Index(bs, x);
    Aligned(bs, i);
    Apart(bs, i, |bs| - 1);
  }

  lemma TiledChained(bs: seq<Block>)
    requires Tiled(bs)
    ensures Chained(bs) && |bs| >= 2
  {}

  // The link words of every listed block are the same in m and m'
  ghost predicate LinksKept(m: seq<int>, m': seq<int>, lists: seq<seq<Block>>)
  {
    forall c, k :: 0 <= c < |lists| && 0 <= k < |lists[c]| ==>
      var a := lists[c][k].addr;
      0 <= a && a + 16 <= |m| && a + 16 <= |m'| && m'[a + 8] == m[a + 8] && m'[a + 12] == m[a + 12]
  }

  // The lists determine the list heads and the link words
  lemma LinkedUnique(m: seq<int>, matrix: seq<int>, m': seq<int>, matrix': seq<int>, lists: seq<seq<Block>>)
    requires Linked(m, matrix, lists) && Linked(m', matrix', lists)
    ensures matrix == matrix' && LinksKept(m, m', lists)
  {
    forall c | 0 <= c < CELLS ensures matrix[c] == matrix'[c] {
      assert Chain(m, matrix[c], lists[c]) && Chain(m', matrix'[c], lists[c]);
    }
    forall c, k | 0 <= c < |lists| && 0 <= k < |lists[c]|
      ensures var a := lists[c][k].addr;
              0 <= a && a + 16 <= |m| && a + 16 <= |m'| && m'[a + 8] == m[a + 8] && m'[a + 12] == m[a + 12]
    {
      assert Node(m, lists[c], k) && Node(m', lists[c], k);
    }
  }
}
