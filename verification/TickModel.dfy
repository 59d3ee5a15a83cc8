// The timer tick: what one pass over the active timer list does.
module TickModel {
  import opened PrioLists
  import opened TaskModel
  import opened KernelModel

  // activeList ^ 1
  function Flip(active: nat): (r: nat)
    ensures active < 2 ==> r < 2 && r != active
  {
    if active == 0 then 1 else 0
  }

  // An entry that runs out with this tick, and one that goes on waiting; an entry that does
  // neither was released early and is dropped
  predicate Expires(t: Tcb) { t.delayTime == 1 }

  predicate Survives(t: Tcb) { t.delayTime > 1 && t.status & PEND_DELAY != 0 }

  predicate PointsTo(t: Tcb, id: ListId) { t.semBmp == To(id) || t.queueBmp == To(id) }

  function TickTcb(t: Tcb): Tcb
  {
    if t.delayTime == 0 then t
    else if t.delayTime == 1 then Tcb(0, 0, Null, Null)
    else t.(delayTime := t.delayTime - 1)
  }

  // The task table once the entries done have been processed
  ghost function TickTasks(tcb: Tasks, done: set<nat>): (r: Tasks)
    ensures r.Keys == tcb.Keys
  {
    map p | p in tcb :: if p in done then TickTcb(tcb[p]) else tcb[p]
  }

  // List id once the entries done of the active timer list have been processed
  ghost function TickList(s: Lists, tcb: Tasks, active: nat, done: set<nat>, id: ListId): set<nat>
    requires id in s
  {
    if id == Timer(active) then s[id] - done
    else if id.Timer? then s[id] + set p | p in done && p in tcb && Survives(tcb[p])
    else if id == Ready then s[id] + set p | p in done && p in tcb && Expires(tcb[p])
    else s[id] - set p | p in done && p in tcb && Expires(tcb[p]) && PointsTo(tcb[p], id)
  }

  ghost function TickLists(s: Lists, tcb: Tasks, active: nat, done: set<nat>): (r: Lists)
    ensures r.Keys == s.Keys
  {
    map id | id in s :: TickList(s, tcb, active, done, id)
  }

  // uLipeKernelRtosTick without the interrupt bracket
  ghost function TickBody(k: KernelState): (r: KernelState)
    requires Ready in k.s && Timer(k.active) in k.s
    ensures Ready in r.s
  {
    var all := k.s[Timer(k.active)];
    if all == {} then k
    else k.(s := TickLists(k.s, k.tcb, k.active, all), tcb := TickTasks(k.tcb, all), active := Flip(k.active))
  }

  ghost function Tick(k: KernelState): KernelState
    requires Ready in k.s && Timer(k.active) in k.s
  {
    if !k.running then k else IrqOut(TickBody(IrqIn(k)))
  }

  // ---- one turn of the loop ------------------------------------------------------------------

  // Take priority p out of the list a back pointer names
  function Leave(s: Lists, at: Pointer, p: nat): (r: Lists)
    requires at.To? ==> at.list in s
    ensures r.Keys == s.Keys
  {
    if at.To? then Del(s, at.list, p) else s
  }

  predicate HasLists(s: Lists, active: nat, t: Tcb)
  {
    Ready in s && Timer(0) in s && Timer(1) in s && active < 2 && PointersOk(t, s.Keys)
  }

  function TurnLists(s: Lists, active: nat, t: Tcb, p: nat): Lists
    requires HasLists(s, active, t)
  {
    var s1 := Del(s, Timer(active), p);
    if Expires(t) then Add(Leave(Leave(s1, t.queueBmp, p), t.semBmp, p), Ready, p)
    else if Survives(t) then Add(s1, Timer(Flip(active)), p)
    else s1
  }

  // The loop adds one entry at a time to those processed
  lemma TurnIs(s: Lists, tcb: Tasks, active: nat, done: set<nat>, p: nat)
    requires Agree(s, tcb, active) && p in s[Timer(active)] && p !in done
    ensures p in tcb && tcb[p].delayTime > 0 && HasLists(TickLists(s, tcb, active, done), active, tcb[p])
    ensures TurnLists(TickLists(s, tcb, active, done), active, tcb[p], p) == TickLists(s, tcb, active, done + {p})
    ensures TickTasks(tcb, done)[p] == tcb[p]
    ensures TickTasks(tcb, done)[p := TickTcb(tcb[p])] == TickTasks(tcb, done + {p})
  {
    hide TurnLists, TickLists;
    assert TaskAgrees(s, tcb, active, p);
    TurnListsAre(s, tcb, active, done, p);
  }

  lemma TurnListsAre(s: Lists, tcb: Tasks, active: nat, done: set<nat>, p: nat)
    requires Shaped(s, active) && p in tcb && tcb[p].delayTime > 0 && PointersOk(tcb[p], s.Keys) && p !in done
    ensures TurnLists(TickLists(s, tcb, active, done), active, tcb[p], p) == TickLists(s, tcb, active, done + {p})
  {
    hide TurnLists, TickList, PointersOk;
    var r := TickLists(s, tcb, active, done);
    TurnKeys(r, active, tcb[p], p);
    forall id | id in s ensures TurnLists(r, active, tcb[p], p)[id] == TickList(s, tcb, active, done + {p}, id) {
      TurnAt(r, active, tcb[p], p, id);
      TurnListAt(s, tcb, active, done, p, id);
    }
  }

  lemma NoneDone(s: Lists, tcb: Tasks, active: nat)
    ensures TickLists(s, tcb, active, {}) == s && TickTasks(tcb, {}) == tcb
  {
    forall id | id in s ensures TickList(s, tcb, active, {}, id) == s[id] {}
  }

  // The loop ends exactly when every entry is done: the idle task never waits, so 0 names no entry
  lemma Pending(s: Lists, tcb: Tasks, active: nat, done: set<nat>)
    requires Agree(s, tcb, active) && done <= s[Timer(active)]
    ensures Timer(active) in s && TickLists(s, tcb, active, done)[Timer(active)] == s[Timer(active)] - done
    ensures var i := Top(s[Timer(active)] - done);
            if i == 0 then done == s[Timer(active)]
            else i in s[Timer(active)] && i !in done
  {
    hide TickTasks;
    var rest := s[Timer(active)] - done;
    assert TaskAgrees(s, tcb, active, 0);
    if rest == {} {
      assert s[Timer(active)] == rest + done;
    } else {
      assert Top(rest) in rest;
    }
  }

  lemma TurnKeys(s: Lists, active: nat, t: Tcb, p: nat)
    requires HasLists(s, active, t)
    ensures TurnLists(s, active, t, p).Keys == s.Keys
  {}

  // What one turn does to list id
  function TurnList(list: set<nat>, active: nat, t: Tcb, p: nat, id: ListId): set<nat>
  {
    if id == Timer(active) then list - {p}
    else if id == Timer(Flip(active)) then if Survives(t) then list + {p} else list
    else if id == Ready then if Expires(t) then list + {p} else list
    else if Expires(t) && PointsTo(t, id) then list - {p} else list
  }

  lemma LeaveAt(s: Lists, at: Pointer, p: nat, id: ListId)
    requires id in s && (at.To? ==> at.list in s)
    ensures Leave(s, at, p)[id] == if at == To(id) then s[id] - {p} else s[id]
  {}

  lemma TurnAt(s: Lists, active: nat, t: Tcb, p: nat, id: ListId)
    requires HasLists(s, active, t) && id in s
    ensures TurnLists(s, active, t, p)[id] == TurnList(s[id], active, t, p, id)
  {
    hide Leave;
    var s1 := Del(s, Timer(active), p);
    LeaveAt(s1, t.queueBmp, p, id);
    LeaveAt(Leave(s1, t.queueBmp, p), t.semBmp, p, id);
  }

  lemma TurnListAt(s: Lists, tcb: Tasks, active: nat, done: set<nat>, p: nat, id: ListId)
    requires Shaped(s, active) && p in tcb && p !in done && id in s
    ensures TurnList(TickList(s, tcb, active, done, id), active, tcb[p], p, id)
            == TickList(s, tcb, active, done + {p}, id)
  {
    hide Survives, Expires, PointsTo;
    NeverBoth(tcb[p]);
  }

  lemma NeverBoth(t: Tcb)
    ensures !(Expires(t) && Survives(t))
  {}

  // ---- the invariant -----------------------------------------------------------------------

  // Once all entries are processed and the lists swapped, the lists agree with the task table again
  lemma TickAgrees(s: Lists, tcb: Tasks, active: nat)
    requires Agree(s, tcb, active)
    ensures var all := s[Timer(active)];
            Agree(TickLists(s, tcb, active, all), TickTasks(tcb, all), Flip(active))
  {
    hide TaskAgrees, TickTasks;
    var all := s[Timer(active)];
    var r, u, b := TickLists(s, tcb, active, all), TickTasks(tcb, all), Flip(active);
    forall p ensures TaskAgrees(r, u, b, p) {
      TickTask(s, tcb, active, p);
    }
  }

  lemma TickTask(s: Lists, tcb: Tasks, active: nat, p: nat)
    requires Agree(s, tcb, active)
    ensures var all := s[Timer(active)];
            Ready in s && Timer(Flip(active)) in s &&
            TaskAgrees(TickLists(s, tcb, active, all), TickTasks(tcb, all), Flip(active), p)
  {
    assert TaskAgrees(s, tcb, active, p);
  }

  lemma TickBodySound(k: KernelState)
    requires Sound(k)
    ensures Formed(k) && Sound(TickBody(k))
  {
    hide Agree, TickLists, TickTasks;
    SoundParts(k);
    if k.s[Timer(k.active)] != {} {
      TickAgrees(k.s, k.tcb, k.active);
      var g := k.(s := TickBody(k).s, tcb := TickBody(k).tcb, active := Flip(k.active));
      SoundChange(k, g);
    }
  }

  lemma TickInv(k: KernelState)
    requires Inv(k)
    ensures Formed(k) && Inv(Tick(k))
  {
    hide Agree, Sound, Inv, TickBody, Named, IrqOut;
    InvFormed(k);
    InvParts(k);
    if k.running {
      IrqInInv(k);
      InvParts(IrqIn(k));
      IrqBound(k);
      TickBodySound(IrqIn(k));
      TickBodyKeeps(IrqIn(k));
      IrqOutInv(TickBody(IrqIn(k)));
    }
  }

  lemma TickBodyKeeps(k: KernelState)
    requires Ready in k.s && Timer(k.active) in k.s
    ensures TickBody(k).irq == k.irq && TickBody(k).running == k.running
    ensures TickBody(k).sems == k.sems && TickBody(k).queues == k.queues
  {
    hide TickLists, TickTasks;
  }

  // ---- what a tick means -------------------------------------------------------------------

  // The plain picture of the timer: which tasks are waiting for how many more ticks
  ghost function Remaining(k: KernelState): map<nat, nat>
    requires Timer(k.active) in k.s
  {
    map p | p in k.s[Timer(k.active)] && p in k.tcb :: k.tcb[p].delayTime
  }

  // Between ticks the inactive list is empty and every entry has time left
  lemma RemainingPositive(k: KernelState)
    requires Inv(k)
    ensures Formed(k) && Timer(Flip(k.active)) in k.s && k.s[Timer(Flip(k.active))] == {}
    ensures Remaining(k).Keys == k.s[Timer(k.active)]
    ensures forall p :: p in Remaining(k) ==> Remaining(k)[p] > 0
  {
    InvFormed(k);
    assert Shaped(k.s, k.active);
    forall p | p in k.s[Timer(k.active)] ensures p in k.tcb && k.tcb[p].delayTime > 0 {
      assert TaskAgrees(k.s, k.tcb, k.active, p);
    }
  }

  lemma TickParts(k: KernelState)
    requires Inv(k) && k.running
    ensures Formed(k) && k.active < 2
    ensures Tick(k).s == TickBody(k).s && Tick(k).tcb == TickBody(k).tcb && Tick(k).active == TickBody(k).active
    ensures Tick(k).running
  {
    hide *;
    InvFormed(k);
    InvParts(k);
    SoundParts(k);
    FormedLists(k);
    TickIsBody(k);
  }

  lemma TickIsBody(k: KernelState)
    requires Ready in k.s && Timer(k.active) in k.s && k.running
    ensures Tick(k).s == TickBody(k).s && Tick(k).tcb == TickBody(k).tcb && Tick(k).active == TickBody(k).active
    ensures Tick(k).running
  {
    hide TickBody, IrqOut, IrqIn;
    IrqInKeeps(k);
    var k1 := IrqIn(k);
    BodySame(k, k1);
    IrqOutKeeps(TickBody(k1));
  }

  lemma IrqInKeeps(k: KernelState)
    ensures IrqIn(k).s == k.s && IrqIn(k).tcb == k.tcb && IrqIn(k).active == k.active && IrqIn(k).running == k.running
    ensures IrqIn(k).sems == k.sems && IrqIn(k).queues == k.queues
  {}

  lemma IrqOutKeeps(k: KernelState)
    requires Ready in k.s
    ensures IrqOut(k).s == k.s && IrqOut(k).tcb == k.tcb && IrqOut(k).active == k.active
            && IrqOut(k).running == k.running
    ensures IrqOut(k).sems == k.sems && IrqOut(k).queues == k.queues
  {}

  lemma BodySame(k: KernelState, g: KernelState)
    requires Ready in k.s && Timer(k.active) in k.s && g.s == k.s && g.tcb == k.tcb && g.active == k.active
    ensures TickBody(g).s == TickBody(k).s && TickBody(g).tcb == TickBody(k).tcb
            && TickBody(g).active == TickBody(k).active
    ensures TickBody(g).running == g.running
  {
    hide TickTasks, TickLists, Flip;
  }

  lemma FormedLists(k: KernelState)
    requires Formed(k)
    ensures Ready in k.s && Timer(k.active) in k.s
  {}

  // One tick takes one from every entry. Entries that reach zero become ready and leave every
  // wait list; entries still marked as delayed stay; entries released early are dropped.
  lemma TickRefines(k: KernelState)
    requires Inv(k) && k.running
    ensures Formed(k) && Formed(Tick(k))
    ensures forall p :: p in Remaining(Tick(k)) <==>
              p in Remaining(k) && Remaining(k)[p] > 1 && k.tcb[p].status & PEND_DELAY != 0
    ensures forall p :: p in Remaining(Tick(k)) ==> Remaining(Tick(k))[p] == Remaining(k)[p] - 1
    ensures Tick(k).s[Ready] == k.s[Ready] + set p | p in Remaining(k) && Remaining(k)[p] == 1
    ensures forall p :: p in Remaining(k) && Remaining(k)[p] == 1 ==> p in Tick(k).tcb && Tick(k).tcb[p].status == 0
    ensures forall p, id :: p in Remaining(k) && Remaining(k)[p] == 1 && id in Tick(k).s && IsWait(id) ==>
              p !in Tick(k).s[id]
    ensures forall p :: p in k.tcb && p !in Remaining(k) ==> p in Tick(k).tcb && Tick(k).tcb[p] == k.tcb[p]
  {
    hide Inv, IrqOut, Tick, Remaining, TickBody;
    TickParts(k);
    RemainingPositive(k);
    RemainingIs(k);
    TickInv(k);
    InvFormed(Tick(k));
    RemainingPositive(Tick(k));
    RemainingIs(Tick(k));
    BodyTimer(k);
    BodyReady(k);
    BodyTasks(k);
    forall p, id | p in Remaining(k) && Remaining(k)[p] == 1 && id in Tick(k).s && IsWait(id)
      ensures p !in Tick(k).s[id] {
      Awake(Tick(k), p, id);
    }
  }

  // An entry with one tick left ends now
  ghost predicate Ending(k: KernelState, p: nat)
    requires Timer(k.active) in k.s && p in k.tcb
  {
    p in k.s[Timer(k.active)] && k.tcb[p].delayTime == 1
  }

  // What becomes of every control block: one whose entry ends is cleared, pointers and all; one with
  // an entry has one tick less; no other changes
  lemma TickBlocks(k: KernelState)
    requires Inv(k) && k.running
    ensures Formed(k) && Timer(k.active) in k.s && Tick(k).tcb.Keys == k.tcb.Keys
    ensures forall p :: p in k.tcb ==>
              var t, u := k.tcb[p], Tick(k).tcb[p];
              if Ending(k, p) then u == Tcb(0, 0, Null, Null)
              else if p in k.s[Timer(k.active)] then
                && u.delayTime == t.delayTime - 1 && u.status == t.status
                && u.semBmp == t.semBmp && u.queueBmp == t.queueBmp
              else u == t
  {
    hide Inv, Tick, TickBody;
    InvFormed(k);
    FormedLists(k);
    TickParts(k);
    BodyTasks(k);
    RemainingPositive(k);
    forall p | p in k.tcb && p in k.s[Timer(k.active)] ensures k.tcb[p].delayTime > 0 {
      assert p in Remaining(k);
    }
  }

  // A task leaves a wait list exactly when its entry ends, and enters none
  lemma TickLeaves(k: KernelState, p: nat, id: ListId)
    requires Inv(k) && k.running && p in k.tcb && id in k.s && IsWait(id)
    ensures Formed(k) && Timer(k.active) in k.s && id in Tick(k).s
    ensures p in Tick(k).s[id] <==> p in k.s[id] && !Ending(k, p)
  {
    hide Inv, Tick, Formed, Sound;
    InvFormed(k);
    FormedLists(k);
    TickParts(k);
    InvParts(k);
    SoundParts(k);
    assert TaskAgrees(k.s, k.tcb, k.active, p);
  }

  lemma RemainingIs(k: KernelState)
    requires Timer(k.active) in k.s
    ensures forall p :: p in Remaining(k) ==> p in k.tcb && Remaining(k)[p] == k.tcb[p].delayTime
  {}

  // The list that becomes active holds the surviving entries
  lemma BodyTimer(k: KernelState)
    requires Ready in k.s && Timer(k.active) in k.s && k.active < 2
    requires Timer(Flip(k.active)) in k.s && k.s[Timer(Flip(k.active))] == {}
    ensures Timer(TickBody(k).active) in TickBody(k).s
    ensures forall p :: p in TickBody(k).s[Timer(TickBody(k).active)] <==>
              p in k.s[Timer(k.active)] && p in k.tcb && Survives(k.tcb[p])
  {
    hide TickTasks;
  }

  lemma BodyReady(k: KernelState)
    requires Ready in k.s && Timer(k.active) in k.s
    ensures forall p :: p in TickBody(k).s[Ready] <==>
              p in k.s[Ready] || (p in k.s[Timer(k.active)] && p in k.tcb && Expires(k.tcb[p]))
  {
    hide TickTasks;
  }

  lemma BodyTasks(k: KernelState)
    requires Ready in k.s && Timer(k.active) in k.s
    ensures TickBody(k).tcb.Keys == k.tcb.Keys
    ensures forall p :: p in k.tcb ==>
              TickBody(k).tcb[p] == if p in k.s[Timer(k.active)] then TickTcb(k.tcb[p]) else k.tcb[p]
  {
    hide TickLists;
  }

  // A ready task is in no wait list
  lemma Awake(k: KernelState, p: nat, id: ListId)
    requires Inv(k) && p in k.tcb && k.tcb[p].status == 0 && id in k.s && IsWait(id)
    ensures p !in k.s[id]
  {
    assert TaskAgrees(k.s, k.tcb, k.active, p);
  }
}
