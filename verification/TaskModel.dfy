// Status words, back pointers and list memberships of tasks, and the changes calls make to them.
module TaskModel {
  import opened PrioLists

  // The priority lists of the kernel, by name
  datatype ListId = Ready | Timer(k: nat) | SemWait(s: nat) | SlotWait(q: nat) | InsertWait(q: nat)

  datatype Pointer = Null | To(list: ListId)

  const SUSPEND: bv16 := 0x002
  const PEND_DELAY: bv16 := 0x008
  const PEND_SEM: bv16 := 0x080
  const PEND_QUEUE: bv16 := 0x200

  datatype Tcb = Tcb(delayTime: nat, status: bv16, semBmp: Pointer, queueBmp: Pointer)

  type Lists = map<ListId, set<nat>>
  type Tasks = map<nat, Tcb>

  // Status words a task can have: ready, suspended, or waiting for one object and/or a delay
  predicate KnownStatus(st: bv16)
  {
    || st == 0 || st == SUSPEND || st == PEND_DELAY
    || st == PEND_SEM || st == PEND_SEM | PEND_DELAY
    || st == PEND_QUEUE || st == PEND_QUEUE | PEND_DELAY
  }

  predicate WaitsIn(t: Tcb, id: ListId)
  {
    match id
    case SemWait(_) => t.status & PEND_SEM != 0 && t.semBmp == To(id)
    case SlotWait(_) => t.status & PEND_QUEUE != 0 && t.queueBmp == To(id)
    case InsertWait(_) => t.status & PEND_QUEUE != 0 && t.queueBmp == To(id)
    case _ => false
  }

  predicate IsWait(id: ListId)
  {
    id.SemWait? || id.SlotWait? || id.InsertWait?
  }

  // Back pointers name existing lists of the right kind
  predicate PointersOk(t: Tcb, ids: set<ListId>)
  {
    && (t.semBmp.To? ==> t.semBmp.list in ids && t.semBmp.list.SemWait?)
    && (t.queueBmp.To? ==> t.queueBmp.list in ids && (t.queueBmp.list.SlotWait? || t.queueBmp.list.InsertWait?))
    && (t.status & PEND_SEM != 0 ==> t.semBmp.To?)
    && (t.status & PEND_QUEUE != 0 ==> t.queueBmp.To?)
  }

  // Status word, back pointers and list memberships of priority p agree
  ghost predicate TaskAgrees(s: Lists, tcb: Tasks, active: nat, p: nat)
    requires Ready in s && Timer(active) in s
  {
    if p in tcb then
      var t := tcb[p];
      && KnownStatus(t.status) && PointersOk(t, s.Keys)
      && (p in s[Ready] <==> t.status == 0)
      && (forall id :: id in s && IsWait(id) ==> (p in s[id] <==> WaitsIn(t, id)))
      && (p in s[Timer(active)] ==> p != 0 && t.delayTime > 0)
      && (t.status & PEND_DELAY != 0 ==> p in s[Timer(active)])
      && (p == 0 ==> t.status == 0 || t.status == SUSPEND)
    else
      forall id :: id in s ==> p !in s[id]
  }

  ghost predicate Shaped(s: Lists, active: nat)
  {
    && active < 2 && Ready in s && Timer(0) in s && Timer(1) in s
    && (forall id :: id in s && id.Timer? ==> id.k < 2)
    && s[Timer(1 - active)] == {}
  }

  ghost predicate Agree(s: Lists, tcb: Tasks, active: nat)
  {
    Shaped(s, active) && forall p :: TaskAgrees(s, tcb, active, p)
  }

  // p is in the same lists in s and r
  ghost predicate SameLists(s: Lists, r: Lists, p: nat)
  {
    s.Keys == r.Keys && forall id :: id in s ==> (p in s[id] <==> p in r[id])
  }

  lemma OthersAgree(s: Lists, r: Lists, tcb: Tasks, tcb': Tasks, active: nat, c: nat)
    requires Agree(s, tcb, active) && Shaped(r, active)
    requires forall p :: p != c ==> SameLists(s, r, p) && (p in tcb <==> p in tcb') && (p in tcb ==> tcb'[p] == tcb[p])
    requires TaskAgrees(r, tcb', active, c)
    ensures Agree(r, tcb', active)
  {
    hide WaitsIn, KnownStatus, PointersOk;
    forall p ensures TaskAgrees(r, tcb', active, p) {
      assert TaskAgrees(s, tcb, active, p);
    }
  }

  function Add(s: Lists, id: ListId, p: nat): Lists
    requires id in s
  {
    s[id := s[id] + {p}]
  }

  function Del(s: Lists, id: ListId, p: nat): Lists
    requires id in s
  {
    s[id := s[id] - {p}]
  }

  // ---- transitions -----------------------------------------------------------------------

  function WithStatus(t: Tcb, status: bv16): Tcb
  {
    t.(status := status)
  }

  // Waiting in list id: the pend bit and the back pointer
  function PendTcb(t: Tcb, id: ListId): Tcb
  {
    if id.SemWait? then t.(semBmp := To(id), status := t.status | PEND_SEM)
    else t.(queueBmp := To(id), status := t.status | PEND_QUEUE)
  }

  function DelayTcb(t: Tcb, ticks: nat): Tcb
  {
    t.(status := t.status | PEND_DELAY, delayTime := ticks)
  }

  // A task leaves the ready list to wait in list id, with a timeout unless ticks is 0
  function BlockTcb(t: Tcb, id: ListId, ticks: nat): Tcb
  {
    if ticks != 0 then DelayTcb(PendTcb(t, id), ticks) else PendTcb(t, id)
  }

  function BlockLists(s: Lists, active: nat, c: nat, id: ListId, ticks: nat): Lists
    requires Ready in s && Timer(active) in s && id in s
  {
    var s1 := Add(Del(s, Ready, c), id, c);
    if ticks != 0 then Add(s1, Timer(active), c) else s1
  }

  lemma BlockAgrees(s: Lists, tcb: Tasks, active: nat, c: nat, id: ListId, ticks: nat)
    requires id in s && IsWait(id) && Agree(s, tcb, active) && c in s[Ready] && c != 0
    ensures c in tcb && Agree(BlockLists(s, active, c, id, ticks), tcb[c := BlockTcb(tcb[c], id, ticks)], active)
  {
    var r := BlockLists(s, active, c, id, ticks);
    assert TaskAgrees(s, tcb, active, c);
    var tcb' := tcb[c := BlockTcb(tcb[c], id, ticks)];
    assert TaskAgrees(r, tcb', active, c);
    OthersAgree(s, r, tcb, tcb', active, c);
  }

  lemma DelayAgrees(s: Lists, tcb: Tasks, active: nat, c: nat, ticks: nat)
    requires Agree(s, tcb, active) && c in s[Ready] && c != 0 && ticks > 0
    ensures c in tcb && Agree(Add(Del(s, Ready, c), Timer(active), c), tcb[c := DelayTcb(tcb[c], ticks)], active)
  {
    var r := Add(Del(s, Ready, c), Timer(active), c);
    assert TaskAgrees(s, tcb, active, c);
    var tcb' := tcb[c := DelayTcb(tcb[c], ticks)];
    assert TaskAgrees(r, tcb', active, c);
    OthersAgree(s, r, tcb, tcb', active, c);
  }

  // A waiting task is released from list id
  function WakeStatus(t: Tcb, id: ListId): bv16
  {
    t.status & !((if id.SemWait? then PEND_SEM else PEND_QUEUE) | PEND_DELAY)
  }

  function WakeTcb(t: Tcb, id: ListId): Tcb
  {
    WithStatus(t, WakeStatus(t, id))
  }

  lemma WakeAgrees(s: Lists, tcb: Tasks, active: nat, p: nat, id: ListId)
    requires id in s && IsWait(id) && Agree(s, tcb, active) && p in s[id]
    ensures p in tcb && WakeTcb(tcb[p], id).status == 0
    ensures Agree(Add(Del(s, id, p), Ready, p), tcb[p := WakeTcb(tcb[p], id)], active)
  {
    var r := Add(Del(s, id, p), Ready, p);
    assert TaskAgrees(s, tcb, active, p);
    var tcb' := tcb[p := WakeTcb(tcb[p], id)];
    assert TaskAgrees(r, tcb', active, p);
    OthersAgree(s, r, tcb, tcb', active, p);
  }

  lemma SuspendAgrees(s: Lists, tcb: Tasks, active: nat, p: nat)
    requires Agree(s, tcb, active) && p in tcb && tcb[p].status == 0
    ensures Agree(Del(s, Ready, p), tcb[p := tcb[p].(status := tcb[p].status | SUSPEND)], active)
  {
    var r := Del(s, Ready, p);
    assert TaskAgrees(s, tcb, active, p);
    var tcb' := tcb[p := tcb[p].(status := tcb[p].status | SUSPEND)];
    assert TaskAgrees(r, tcb', active, p);
    OthersAgree(s, r, tcb, tcb', active, p);
  }

  function ResumeTcb(t: Tcb): Tcb
  {
    WithStatus(t, t.status & !SUSPEND)
  }

  function ResumeLists(s: Lists, p: nat, t: Tcb): (r: Lists)
    requires Ready in s
    ensures r.Keys == s.Keys
  {
    if ResumeTcb(t).status == 0 then Add(s, Ready, p) else s
  }

  lemma ResumeAgrees(s: Lists, tcb: Tasks, active: nat, p: nat)
    requires p in tcb && Agree(s, tcb, active)
    ensures Agree(ResumeLists(s, p, tcb[p]), tcb[p := ResumeTcb(tcb[p])], active)
  {
    var r := ResumeLists(s, p, tcb[p]);
    var tcb' := tcb[p := ResumeTcb(tcb[p])];
    assert TaskAgrees(s, tcb, active, p);
    assert TaskAgrees(r, tcb', active, p);
    OthersAgree(s, r, tcb, tcb', active, p);
  }

  lemma CreateAgrees(s: Lists, tcb: Tasks, active: nat, p: nat, d: nat)
    requires Agree(s, tcb, active) && p !in tcb
    ensures Agree(Add(s, Ready, p), tcb[p := Tcb(d, 0, Null, Null)], active)
  {
    var r := Add(s, Ready, p);
    assert TaskAgrees(s, tcb, active, p);
    var tcb' := tcb[p := Tcb(d, 0, Null, Null)];
    assert TaskAgrees(r, tcb', active, p);
    OthersAgree(s, r, tcb, tcb', active, p);
  }

  lemma NewListAgrees(s: Lists, tcb: Tasks, active: nat, id: ListId)
    requires id !in s && IsWait(id) && Agree(s, tcb, active)
    ensures Agree(s[id := {}], tcb, active)
  {
    hide KnownStatus;
    var r := s[id := {}];
    forall p ensures TaskAgrees(r, tcb, active, p) {
      assert TaskAgrees(s, tcb, active, p);
    }
  }

  // The scheduler's choice is an installed task: the greatest ready one, or the idle task when even
  // that has been suspended
  lemma TopReady(s: Lists, tcb: Tasks, active: nat)
    requires 0 in tcb && Agree(s, tcb, active)
    ensures var p := Top(s[Ready]);
            p in tcb && (if s[Ready] == {} then p == 0 else p in s[Ready] && tcb[p].status == 0)
    ensures s[Ready] == {} <==> forall q :: q in tcb ==> tcb[q].status != 0
    ensures forall q :: q in tcb && tcb[q].status == 0 ==> q <= Top(s[Ready])
  {
    hide KnownStatus, PointersOk, WaitsIn;
    assert TaskAgrees(s, tcb, active, 0);
    assert TaskAgrees(s, tcb, active, Top(s[Ready]));
    forall q ensures q in s[Ready] <==> q in tcb && tcb[q].status == 0 {
      assert TaskAgrees(s, tcb, active, q);
    }
  }
}
