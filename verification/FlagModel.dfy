// Posting flags: one pass over the waiters of a flag group.
module FlagModel {
  import opened Bits
  import opened PrioLists

  const FLAG_ALL: bv16 := 0x10
  const FLAG_ANY: bv16 := 0x20
  const CONSUME: bv16 := 0x40
  const DELAYED: bv16 := 0x08

  // The part of a task's control block that flags use
  datatype Waiter = Waiter(status: bv16, pending: bv32)

  // The register, the control blocks, the ready tasks and the waiters kept for the next post
  datatype Group = Group(reg: bv32, tcb: map<nat, Waiter>, ready: set<nat>, kept: set<nat>)

  // The bits of a status word that say what flags the task waits for
  function Kind(status: bv16): bv16 { status & (FLAG_ALL | FLAG_ANY) }

  predicate WantsAll(w: Waiter) { Kind(w.status) == FLAG_ALL }

  predicate WantsAny(w: Waiter) { Kind(w.status) == FLAG_ANY }

  predicate Waits(w: Waiter) { Kind(w.status) != 0 }

  predicate Marked(status: bv16) { status & CONSUME != 0 }

  predicate Consumes(w: Waiter) { Marked(w.status) }

  function Common(reg: bv32, flags: bv32): bv32 { reg & flags }

  predicate HasAll(reg: bv32, flags: bv32) { Common(reg, flags) == flags }

  predicate Satisfied(reg: bv32, w: Waiter)
  {
    (WantsAll(w) && HasAll(reg, w.pending)) || (WantsAny(w) && reg != 0)
  }

  // The flags a satisfied waiter answers to
  function Matched(reg: bv32, w: Waiter): bv32
  {
    if WantsAll(w) then Common(reg, w.pending) else reg
  }

  // The low half of a register
  function Low(flags: bv32): bv32 { flags & 0xFFFF }

  // Only the low half of what a consuming waiter answers to is cleared
  function Consumed(reg: bv32, w: Waiter): bv32
  {
    if Satisfied(reg, w) && Consumes(w) then Low(Matched(reg, w)) else 0
  }

  function Not(flags: bv32): bv32 { !flags }

  function Without(reg: bv32, flags: bv32): bv32 { And(reg, Not(flags)) }

  function Unset(status: bv16, bits: bv16): bv16 { status & !bits }

  // The status word without the wait, CONSUME left in
  function Unmarked(w: Waiter): bv16
  {
    Unset(w.status, if WantsAll(w) then FLAG_ALL | DELAYED else FLAG_ANY | DELAYED)
  }

  // A released waiter has lost its wait, and the consume mark if it had one
  function Released(w: Waiter): Waiter
  {
    WithStatus(w, if Consumes(w) then Unset(Unmarked(w), CONSUME) else Unmarked(w))
  }

  function WithStatus(w: Waiter, status: bv16): (r: Waiter)
    ensures r.status == status
  {
    w.(status := status)
  }

  // Serving waiter i
  ghost function Serve(g: Group, i: nat): (r: Group)
    requires i in g.tcb
    ensures r.tcb.Keys == g.tcb.Keys
  {
    var w := g.tcb[i];
    if Satisfied(g.reg, w) then
      Group(Without(g.reg, Consumed(g.reg, w)), g.tcb[i := Released(w)],
            if Released(w).status == 0 then g.ready + {i} else g.ready, g.kept)
    else if Waits(w) then g.(kept := g.kept + {i})
    else g
  }

  // Serving all of ws, the greatest priority first, each from the register the ones before it left
  ghost function Post(g: Group, ws: set<nat>): (r: Group)
    requires ws <= g.tcb.Keys
    ensures r.tcb.Keys == g.tcb.Keys
    decreases |ws|
  {
    if ws == {} then g else Post(Serve(g, Top(ws)), ws - {Top(ws)})
  }

  // Serving a waiter twice in a row is serving it once
  lemma ServeTwice(g: Group, i: nat)
    requires i in g.tcb
    ensures Serve(Serve(g, i), i) == Serve(g, i)
  {
    hide Satisfied, Consumed, Released, Waits;
    var w := g.tcb[i];
    if Satisfied(g.reg, w) {
      ReleasedRests(g.reg, w);
      NotWaiting(Serve(g, i).reg, Released(w));
    }
  }

  lemma ReleasedRests(reg: bv32, w: Waiter)
    requires Satisfied(reg, w)
    ensures !Waits(Released(w)) && Waits(w)
  {}

  lemma NotWaiting(reg: bv32, w: Waiter)
    requires !Waits(w)
    ensures !Satisfied(reg, w)
  {}

  // ---- what a post does --------------------------------------------------------------------

  // Every flag of a is a flag of b
  predicate Within(a: bv32, b: bv32) { a & b == a }

  predicate SameHigh(a: bv32, b: bv32) { a & 0xFFFF_0000 == b & 0xFFFF_0000 }

  lemma WithinTrans(a: bv32, b: bv32, c: bv32)
    requires Within(a, b) && Within(b, c)
    ensures Within(a, c)
  {
    assert a & c == (a & b) & c;
    assert (a & b) & c == a & (b & c);
  }

  lemma ServeShrinks(g: Group, i: nat)
    requires i in g.tcb
    ensures Within(Serve(g, i).reg, g.reg) && SameHigh(Serve(g, i).reg, g.reg)
    ensures !Consumes(g.tcb[i]) ==> Serve(g, i).reg == g.reg
    ensures Serve(g, i).tcb.Keys == g.tcb.Keys && forall j :: j in g.tcb && j != i ==> Serve(g, i).tcb[j] == g.tcb[j]
  {
    hide Released, Waits, Within, SameHigh, Consumed, Without, Satisfied, Consumes;
    LowOnly(g.reg, g.tcb[i]);
    WithinSelf(g.reg);
  }

  lemma LowOnly(reg: bv32, w: Waiter)
    ensures var r := Without(reg, Consumed(reg, w));
            Within(r, reg) && SameHigh(r, reg) && (!Consumes(w) ==> r == reg)
  {
    hide Within, SameHigh, Without, Matched, Satisfied, Consumes, Low;
    WithoutLow(reg, Matched(reg, w));
  }

  lemma WithoutLow(reg: bv32, flags: bv32)
    ensures Within(Without(reg, Low(flags)), reg) && SameHigh(Without(reg, Low(flags)), reg)
    ensures Without(reg, 0) == reg && Within(reg, reg) && SameHigh(reg, reg)
  {
    hide Within, SameHigh, Without, Low;
    WithoutWithin(reg, Low(flags));
    WithoutKeepsHigh(reg, flags);
    WithoutNone(reg);
    WithinSelf(reg);
  }

  lemma WithoutWithin(reg: bv32, flags: bv32)
    ensures Within(Without(reg, flags), reg)
  {}

  lemma WithoutKeepsHigh(reg: bv32, flags: bv32)
    ensures SameHigh(Without(reg, Low(flags)), reg)
  {}

  lemma WithoutNone(reg: bv32)
    ensures Without(reg, 0) == reg
  {}

  // A post only clears flags, and none of the high half
  lemma {:induction false} PostShrinks(g: Group, ws: set<nat>)
    requires ws <= g.tcb.Keys
    ensures Within(Post(g, ws).reg, g.reg) && SameHigh(Post(g, ws).reg, g.reg)
    decreases |ws|
  {
    hide Serve, Within, SameHigh;
    if ws == {} {
      WithinSelf(g.reg);
    } else {
      ServeShrinks(g, Top(ws));
      PostShrinks(Serve(g, Top(ws)), ws - {Top(ws)});
      WithinTrans(Post(g, ws).reg, Serve(g, Top(ws)).reg, g.reg);
      HighTrans(Post(g, ws).reg, Serve(g, Top(ws)).reg, g.reg);
    }
  }

  lemma HighTrans(a: bv32, b: bv32, c: bv32)
    requires SameHigh(a, b) && SameHigh(b, c)
    ensures SameHigh(a, c)
  {}

  lemma WithinSelf(a: bv32)
    ensures Within(a, a) && SameHigh(a, a)
  {}

  // The waiters served before i
  ghost function Above(ws: set<nat>, i: nat): set<nat>
  {
    set j | j in ws && j > i
  }

  // The register waiter i finds
  ghost function Found(g: Group, ws: set<nat>, i: nat): bv32
    requires ws <= g.tcb.Keys
  {
    Post(g, Above(ws, i)).reg
  }

  lemma AboveTop(ws: set<nat>, i: nat)
    requires i in ws && i != Top(ws)
    ensures Top(ws) in Above(ws, i) && Top(Above(ws, i)) == Top(ws)
    ensures Above(ws, i) - {Top(ws)} == Above(ws - {Top(ws)}, i)
  {
    TopIs(Above(ws, i), Top(ws));
  }

  // Waiter i of ws is satisfied by the register it finds
  ghost predicate Served(g: Group, ws: set<nat>, i: nat)
    requires ws <= g.tcb.Keys
  {
    i in ws && Satisfied(Found(g, ws, i), g.tcb[i])
  }

  // A post releases exactly the waiters satisfied by the register they find, keeps the other
  // waiters, and touches no other task
  lemma {:induction false} PostExactly(g: Group, ws: set<nat>, i: nat)
    requires ws <= g.tcb.Keys && i in g.tcb
    ensures i in Post(g, ws).kept <==> i in g.kept || (i in ws && Waits(g.tcb[i]) && !Served(g, ws, i))
    ensures Post(g, ws).tcb[i] == if Served(g, ws, i) then Released(g.tcb[i]) else g.tcb[i]
    ensures i in Post(g, ws).ready <==> i in g.ready || (Served(g, ws, i) && Released(g.tcb[i]).status == 0)
    decreases |ws|
  {
    hide Waits, Satisfied, Released, Consumed, Without, Within, SameHigh, Consumes;
    if ws != {} {
      var t := Top(ws);
      ServeShrinks(g, t);
      PostExactly(Serve(g, t), ws - {t}, i);
      if i in ws {
        if i == t {
          assert Above(ws, i) == {};
        } else {
          AboveTop(ws, i);
        }
      }
    }
  }

  lemma {:induction false} NobodyElse(g: Group, ws: set<nat>, i: nat)
    requires ws <= g.tcb.Keys && i !in g.tcb
    ensures (i in Post(g, ws).kept <==> i in g.kept) && (i in Post(g, ws).ready <==> i in g.ready)
    decreases |ws|
  {
    hide Waits, Satisfied, Released, Consumed, Without;
    if ws != {} { NobodyElse(Serve(g, Top(ws)), ws - {Top(ws)}, i); }
  }

  // Whoever is released had what it wanted in the register as posted
  lemma ServedWasSatisfied(g: Group, ws: set<nat>, i: nat)
    requires ws <= g.tcb.Keys && Served(g, ws, i)
    ensures Satisfied(g.reg, g.tcb[i])
  {
    hide Post, WantsAll, WantsAny;
    PostShrinks(g, Above(ws, i));
    SatisfiedMore(Found(g, ws, i), g.reg, g.tcb[i]);
  }

  lemma SatisfiedMore(a: bv32, b: bv32, w: Waiter)
    requires Within(a, b) && Satisfied(a, w)
    ensures Satisfied(b, w)
  {
    hide WantsAll, WantsAny, Within, HasAll;
    NotBoth(w);
    if WantsAll(w) { WithinAll(w.pending, a, b); } else { WithinAny(a, b); }
  }

  lemma NotBoth(w: Waiter)
    ensures !(WantsAll(w) && WantsAny(w))
  {}

  lemma WithinAll(p: bv32, a: bv32, b: bv32)
    requires Within(a, b) && HasAll(a, p)
    ensures HasAll(b, p)
  {
    assert b & (a & p) == (a & b) & p;
  }

  lemma WithinAny(a: bv32, b: bv32)
    requires Within(a, b) && a != 0
    ensures b != 0
  {}

  // When nobody consumes, the register stays and the order of service does not matter
  lemma {:induction false} NoConsumers(g: Group, ws: set<nat>)
    requires ws <= g.tcb.Keys && forall i :: i in ws ==> !Consumes(g.tcb[i])
    ensures Post(g, ws).reg == g.reg
    decreases |ws|
  {
    hide Waits, Satisfied, Released, Consumed, Without, Within, SameHigh, Consumes, Serve;
    if ws != {} {
      ServeShrinks(g, Top(ws));
      NoConsumers(Serve(g, Top(ws)), ws - {Top(ws)});
    }
  }

  lemma OrderFree(g: Group, ws: set<nat>, i: nat)
    requires ws <= g.tcb.Keys && i in ws && forall j :: j in ws ==> !Consumes(g.tcb[j])
    ensures Served(g, ws, i) <==> Satisfied(g.reg, g.tcb[i])
  {
    hide Post, Satisfied, Consumes;
    NoConsumers(g, Above(ws, i));
  }

  predicate NoneOf(a: bv32, flags: bv32) { a & flags == 0 }

  // A low flag one waiter consumed is gone for all the waiters after it
  lemma {:induction false} ConsumedOnce(g: Group, ws: set<nat>, i: nat, j: nat)
    requires ws <= g.tcb.Keys && i in ws && j in ws && i > j
    ensures NoneOf(Found(g, ws, j), Consumed(Found(g, ws, i), g.tcb[i]))
    decreases |ws|
  {
    hide Serve, Found, Consumed, Within, SameHigh, Consumes, NoneOf;
    var t := Top(ws);
    ServeShrinks(g, t);
    if i == t {
      ConsumedFirst(g, ws, j);
    } else {
      FoundLater(g, ws, i);
      FoundLater(g, ws, j);
      ConsumedOnce(Serve(g, t), ws - {t}, i, j);
    }
  }

  // A waiter after the first finds what it finds once the first is served
  lemma FoundLater(g: Group, ws: set<nat>, i: nat)
    requires ws <= g.tcb.Keys && i in ws && i != Top(ws)
    ensures Found(g, ws, i) == Found(Serve(g, Top(ws)), ws - {Top(ws)}, i)
  {
    hide Serve;
    AboveTop(ws, i);
  }

  lemma ConsumedFirst(g: Group, ws: set<nat>, j: nat)
    requires ws <= g.tcb.Keys && j in ws && j != Top(ws)
    ensures NoneOf(Found(g, ws, j), Consumed(Found(g, ws, Top(ws)), g.tcb[Top(ws)]))
  {
    hide Consumed, Serve, Within, SameHigh, Without, NoneOf;
    var t := Top(ws);
    FoundLater(g, ws, j);
    assert Above(ws, t) == {};
    ServeReg(g, t);
    PostShrinks(Serve(g, t), Above(ws - {t}, j));
    GoneStays(Found(g, ws, j), g.reg, Consumed(g.reg, g.tcb[t]));
  }

  lemma ServeReg(g: Group, i: nat)
    requires i in g.tcb
    ensures Serve(g, i).reg == Without(g.reg, Consumed(g.reg, g.tcb[i]))
  {
    hide Satisfied, Matched, Consumes, Without, Waits;
    WithoutNone(g.reg);
  }

  lemma GoneStays(a: bv32, reg: bv32, flags: bv32)
    requires Within(a, Without(reg, flags))
    ensures NoneOf(a, flags)
  {}

  // ---- bit by bit --------------------------------------------------------------------------

  // A status word that says to wait for all flags, or for any
  predicate ForAll(w: Waiter) { w.status & 0x10 != 0 && w.status & 0x20 == 0 }

  predicate ForAny(w: Waiter) { w.status & 0x20 != 0 && w.status & 0x10 == 0 }

  // Every flag the waiter asked for is set, or it takes any and some flag is
  ghost predicate HasItsFlags(reg: bv32, w: Waiter)
  {
    || (ForAll(w) && forall j :: 0 <= j < 32 && Bit(w.pending, j) ==> Bit(reg, j))
    || (ForAny(w) && exists j :: 0 <= j < 32 && Bit(reg, j))
  }

  lemma KindIs(w: Waiter)
    ensures WantsAll(w) <==> ForAll(w)
    ensures WantsAny(w) <==> ForAny(w)
  {}

  lemma AllBits(reg: bv32, flags: bv32)
    ensures HasAll(reg, flags) <==> forall j :: 0 <= j < 32 && Bit(flags, j) ==> Bit(reg, j)
  {
    hide Bit;
    forall j | 0 <= j < 32 ensures Bit(Common(reg, flags), j) == (Bit(reg, j) && Bit(flags, j)) {
      CommonAt(reg, flags, j);
    }
    if forall j :: 0 <= j < 32 && Bit(flags, j) ==> Bit(reg, j) {
      SameBits(Common(reg, flags), flags);
    }
  }

  lemma CommonAt(reg: bv32, flags: bv32, j: nat)
    requires j < 32
    ensures Bit(Common(reg, flags), j) == (Bit(reg, j) && Bit(flags, j))
  {
    hide Ix, At;
    AndAt(reg, flags, Ix(j));
    CommonIs(reg, flags);
  }

  lemma CommonIs(reg: bv32, flags: bv32)
    ensures Common(reg, flags) == And(reg, flags)
  {}

  lemma AnyBit(reg: bv32)
    ensures reg != 0 <==> exists j :: 0 <= j < 32 && Bit(reg, j)
  {
    hide Bit;
    if reg != 0 {
      LsIndexOf(reg);
    } else {
      forall j | 0 <= j < 32 ensures !Bit(reg, j) { ZeroBits(j); }
    }
  }

  lemma SatisfiedBits(reg: bv32, w: Waiter)
    ensures Satisfied(reg, w) <==> HasItsFlags(reg, w)
  {
    hide Bit, HasAll, WantsAll, WantsAny, ForAll, ForAny;
    KindIs(w);
    AllBits(reg, w.pending);
    AnyBit(reg);
  }

  // Waiter i is served exactly when it finds the flags it asked for, and then has lost its wait, its
  // delay and its consume mark, and nothing else; it is ready when nothing is left in its status word
  lemma ServedMeans(g: Group, ws: set<nat>, i: nat)
    requires ws <= g.tcb.Keys && i in ws
    ensures Served(g, ws, i) <==> HasItsFlags(Found(g, ws, i), g.tcb[i])
    ensures var w, v := g.tcb[i], Post(g, ws).tcb[i];
            if HasItsFlags(Found(g, ws, i), w) then
              && v.pending == w.pending && v.status == w.status & !0x78
              && (i in Post(g, ws).ready <==> i in g.ready || v.status == 0)
              && (i in Post(g, ws).kept <==> i in g.kept)
            else
              && v == w && (i in Post(g, ws).ready <==> i in g.ready)
              && (i in Post(g, ws).kept <==> i in g.kept || ForAll(w) || ForAny(w) || w.status & 0x30 == 0x30)
  {
    hide Post, Found, Satisfied, HasItsFlags, ForAll, ForAny, Released, Waits;
    SatisfiedBits(Found(g, ws, i), g.tcb[i]);
    PostExactly(g, ws, i);
    WaitsBits(g.tcb[i]);
    if Served(g, ws, i) { ReleasedBits(Found(g, ws, i), g.tcb[i]); }
  }

  lemma WaitsBits(w: Waiter)
    ensures Waits(w) <==> ForAll(w) || ForAny(w) || w.status & 0x30 == 0x30
  {}

  lemma ReleasedBits(reg: bv32, w: Waiter)
    requires Satisfied(reg, w)
    ensures Released(w).pending == w.pending && Released(w).status == w.status & !0x78
  {
    hide HasAll;
  }

  // Flag j, one of the low half, goes to waiter i, which consumes it
  ghost predicate Consumer(reg: bv32, w: Waiter, j: nat)
    requires j < 32
  {
    && HasItsFlags(reg, w) && w.status & 0x40 != 0 && j < 16
    && Bit(reg, j) && (ForAll(w) ==> Bit(w.pending, j))
  }

  lemma ConsumedBits(reg: bv32, w: Waiter, j: nat)
    requires j < 32
    ensures Bit(Consumed(reg, w), j) <==> Consumer(reg, w, j)
  {
    hide Bit, HasItsFlags, ForAll, WantsAll, WantsAny, HasAll, Low, Common, Satisfied, Marked;
    SatisfiedBits(reg, w);
    KindIs(w);
    MarkBit(w.status);
    ZeroBits(j);
    LowAtBit(Matched(reg, w), j);
    CommonAt(reg, w.pending, j);
  }

  lemma MarkBit(status: bv16)
    ensures Marked(status) <==> status & 0x40 != 0
  {}

  lemma LowAtBit(flags: bv32, j: nat)
    requires j < 32
    ensures Bit(Low(flags), j) == (Bit(flags, j) && j < 16)
  {
    hide Ix, At, Low;
    var b: bv32 := 16;
    assert b as nat == 16;
    IxOf(b);
    IxLe(16, j);
    LowBit(flags, Ix(j));
  }

  lemma LowBit(flags: bv32, k: bv32)
    requires k < 32
    ensures At(Low(flags), k) == (At(flags, k) && k < 16)
  {}

  lemma WithoutAt(reg: bv32, flags: bv32, j: nat)
    requires j < 32
    ensures Bit(Without(reg, flags), j) == (Bit(reg, j) && !Bit(flags, j))
  {
    hide Ix, At, And, Not;
    AndAt(reg, Not(flags), Ix(j));
    NotAt(flags, Ix(j));
  }

  lemma NotAt(flags: bv32, k: bv32)
    requires k < 32
    ensures At(Not(flags), k) == !At(flags, k)
  {}

  ghost predicate Takes(g: Group, ws: set<nat>, i: nat, j: nat)
    requires ws <= g.tcb.Keys && j < 32
  {
    i in ws && Consumer(Found(g, ws, i), g.tcb[i], j)
  }

  // A post leaves exactly the flags that no waiter takes
  lemma {:induction false} PostRegister(g: Group, ws: set<nat>, j: nat)
    requires ws <= g.tcb.Keys && j < 32
    ensures Bit(Post(g, ws).reg, j) <==> Bit(g.reg, j) && forall i :: i in ws ==> !Takes(g, ws, i, j)
    decreases |ws|
  {
    hide Serve, Bit, Found, Consumer, Consumed, Without, Within, SameHigh, Consumes;
    if ws != {} {
      var t := Top(ws);
      var g1 := Serve(g, t);
      ServeShrinks(g, t);
      ServeReg(g, t);
      ConsumedBits(g.reg, g.tcb[t], j);
      WithoutAt(g.reg, Consumed(g.reg, g.tcb[t]), j);
      FoundFirst(g, ws);
      PostRegister(g1, ws - {t}, j);
      forall i | i in ws && i != t ensures Takes(g, ws, i, j) <==> Takes(g1, ws - {t}, i, j) {
        FoundLater(g, ws, i);
      }
    }
  }

  lemma FoundFirst(g: Group, ws: set<nat>)
    requires ws <= g.tcb.Keys && ws != {}
    ensures Found(g, ws, Top(ws)) == g.reg
  {
    assert Above(ws, Top(ws)) == {};
  }

  // ---- the loop's variables ----------------------------------------------------------------

  // What tmp has gathered is a 16-bit number, and all of it has left the register
  predicate Gone(reg: bv32, tmp: bv32)
  {
    reg & tmp == 0 && tmp & 0xFFFF == tmp
  }

  lemma Accumulates(reg: bv32, tmp: bv32, mask: bv32)
    requires Gone(reg, tmp)
    ensures var t := (tmp | mask) & 0xFFFF; Gone(reg & !t, t) && reg & !t == Without(reg, Low(mask))
  {}

  lemma WaitsIs(w: Waiter)
    ensures Waits(w) <==> Kind(w.status) != 0
  {}

  // The consume mark outlasts the wait
  lemma MarkStays(w: Waiter)
    ensures Consumes(w) <==> Marked(Unmarked(w))
  {
    hide Unset;
    if WantsAll(w) { UnsetOther(w.status, FLAG_ALL | DELAYED); } else { UnsetOther(w.status, FLAG_ANY | DELAYED); }
  }

  lemma UnsetOther(status: bv16, bits: bv16)
    requires bits & CONSUME == 0
    ensures Unset(status, bits) & CONSUME == status & CONSUME
  {}

  lemma ConsumedIs(reg: bv32, w: Waiter)
    requires Satisfied(reg, w)
    ensures Consumed(reg, w) == if Consumes(w) then Low(Matched(reg, w)) else 0
    ensures Without(reg, 0) == reg
  {
    hide Satisfied, Consumes, Matched, Without, Low;
    WithoutNone(reg);
  }

  lemma NothingGone(reg: bv32)
    ensures Gone(reg, 0)
  {}

  // Where the loop stands: group g, ws still listed, i found last. Before the first turn i is still
  // listed; after it i is not, and is yet to be served unless it is 0
  ghost predicate OnTrack(result: Group, g: Group, ws: set<nat>, i: nat, first: bool)
  {
    && ws <= g.tcb.Keys && 0 !in ws
    && (if i == 0 then !first && ws == {} && result == g
        else if first then i in ws && i == Top(ws) && result == Post(g, ws)
        else i in g.tcb && i !in ws && result == Post(Serve(g, i), ws))
  }

  lemma TrackStart(g: Group, ws: set<nat>)
    requires ws <= g.tcb.Keys && 0 !in ws
    ensures OnTrack(Post(g, ws), g, ws, Top(ws), Top(ws) != 0)
  {
    hide Serve;
  }

  lemma TrackTurn(result: Group, g: Group, ws: set<nat>, i: nat, first: bool)
    requires OnTrack(result, g, ws, i, first) && i != 0
    ensures i in g.tcb
    ensures var next := Top(ws);
            && OnTrack(result, Serve(g, i), ws - {next}, next, false)
            && |ws - {next}| + (if next != 0 then 1 else 0) < |ws| + 1
  {
    hide Serve;
    if first {
      ServeTwice(g, i);
    }
    if ws == {} {
      assert ws - {0} == {};
    }
  }

  lemma TrackEnd(result: Group, g0: Group, ws0: set<nat>, g: Group, ws: set<nat>, first: bool)
    requires OnTrack(result, g, ws, 0, first)
    requires ws0 <= g0.tcb.Keys && 0 !in ws0 && g0.kept == {} && result == Post(g0, ws0)
    ensures ws == {} && result == g && g.kept <= ws0 && g.tcb.Keys == g0.tcb.Keys
  {
    hide Serve, Post;
    forall i | i in g.kept ensures i in ws0 {
      if i in g0.tcb { PostExactly(g0, ws0, i); } else { NobodyElse(g0, ws0, i); }
    }
  }
}
