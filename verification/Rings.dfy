// Storage of a message queue: a circular buffer of non-NULL pointers.
module Rings {

  // Index of the k-th slot from back, going round
  function Slot(slots: nat, back: nat, k: nat): int
  {
    if back + k < slots then back + k else back + k - slots
  }

  // The elements held, oldest first
  ghost function Window(buf: seq<nat>, back: nat, used: nat): (s: seq<nat>)
    requires used <= |buf| && (used > 0 ==> back < |buf|)
    ensures |s| == used
  {
    seq(used, k requires 0 <= k < used => buf[Slot(|buf|, back, k)])
  }

  lemma WindowPut(buf: seq<nat>, back: nat, used: nat, x: nat)
    requires used < |buf| && back < |buf|
    ensures Window(buf[Slot(|buf|, back, used) := x], back, used + 1) == Window(buf, back, used) + [x]
  {}

  lemma WindowGet(buf: seq<nat>, back: nat, used: nat)
    requires 0 < used <= |buf| && back < |buf|
    ensures Window(buf, back, used) == [buf[back]] + Window(buf, Slot(|buf|, back, 1), used - 1)
  {}

  class Ring {
    const numSlots: nat
    const base: array<nat>
    var front: nat
    var back: nat
    var used: nat
    // what is held, and what was accepted and removed since the last flush
    ghost var contents: seq<nat>
    ghost var accepted: seq<nat>
    ghost var removed: seq<nat>

    ghost predicate Valid()
      reads this, base
    {
      && base.Length == numSlots && used <= numSlots
      && (if numSlots > 0 then back < numSlots && front < numSlots else front == back == 0)
      && front == Slot(numSlots, back, used)
      && contents == Window(base[..], back, used)
      && accepted == removed + contents
      && (forall x :: x in accepted ==> x != 0)
    }

    constructor (slots: nat)
      ensures Valid() && numSlots == slots && contents == [] && fresh(base)
      ensures accepted == [] && removed == []
    {
      numSlots := slots;
      base := new nat[slots](_ => 0);
      front, back, used := 0, 0, 0;
      contents, accepted, removed := [], [], [];
    }

    lemma Held()
      requires Valid()
      ensures |contents| == used <= numSlots
    {}

    // The store and the index update of uLipeQueueInsert
    method Put(data: nat)
      requires Valid() && used < numSlots && data != 0
      modifies this, base
      ensures Valid() && contents == old(contents) + [data]
      ensures accepted == old(accepted) + [data] && removed == old(removed)
    {
      WindowPut(base[..], back, used, data);
      base[front] := data;
      front := front + 1;
      if front > numSlots - 1 {
        front := 0;
      }
      used := used + 1;
      contents, accepted := contents + [data], accepted + [data];
      assert base[..] == old(base[..])[old(front) := data];
    }

    // The load and the index update of uLipeQueueRemove
    method Get() returns (ptr: nat)
      requires Valid() && used > 0
      modifies this
      ensures Valid() && ptr != 0 && old(contents) == [ptr] + contents
      ensures accepted == old(accepted) && removed == old(removed) + [ptr]
    {
      WindowGet(base[..], back, used);
      ghost var rest := Window(base[..], Slot(numSlots, back, 1), used - 1);
      ptr := base[back];
      Oldest(accepted, removed, ptr, rest);
      back := back + 1;
      if back > numSlots - 1 {
        back := 0;
      }
      used := used - 1;
      contents, removed := rest, removed + [ptr];
    }

    lemma Oldest(a: seq<nat>, r: seq<nat>, x: nat, rest: seq<nat>)
      requires a == r + ([x] + rest)
      ensures a == (r + [x]) + rest && x in a
    {
      assert a[|r|] == x;
    }

    // uLipeQueueFlush
    method Flush()
      requires Valid()
      modifies this
      ensures Valid() && contents == [] && accepted == [] && removed == []
    {
      back := 0;
      front := 0;
      used := 0;
      contents, accepted, removed := [], [], [];
    }
  }
}
