// Who waits where, and who is released by what.
module WaitTheorems {
  import opened PrioLists
  import opened TaskModel
  import opened KernelModel
  import opened KernelRuns

  // The control block of a task that was ready and now waits in list id, for ticks ticks at most
  // unless they are 0
  ghost predicate Parked(t: Tcb, u: Tcb, id: ListId, ticks: nat)
  {
    && u.status == (if id.SemWait? then PEND_SEM else PEND_QUEUE) | (if ticks != 0 then PEND_DELAY else 0)
    && u.delayTime == (if ticks != 0 then ticks else t.delayTime)
    && u.semBmp == (if id.SemWait? then To(id) else t.semBmp)
    && u.queueBmp == (if id.SemWait? then t.queueBmp else To(id))
  }

  // u is t but for its status word
  ghost predicate Marked(t: Tcb, u: Tcb, status: bv16)
  {
    u.status == status && u.delayTime == t.delayTime && u.semBmp == t.semBmp && u.queueBmp == t.queueBmp
  }

  // The caller, and nobody else, has gone from the ready list to list id and, with a timeout, to the
  // active timer list; the greatest task still ready runs
  ghost predicate WentToSleep(k: KernelState, g: KernelState, id: ListId, ticks: nat)
  {
    && Ready in k.s && Timer(k.active) in k.s && id in k.s && IsWait(id) && k.current in k.tcb
    && g.active == k.active && g.running == k.running
    && var timer := if ticks != 0 then k.s[Timer(k.active)] + {k.current} else k.s[Timer(k.active)];
    && g.s == k.s[Ready := k.s[Ready] - {k.current}][id := k.s[id] + {k.current}][Timer(k.active) := timer]
    && g.current == Top(k.s[Ready] - {k.current}) && g.current != k.current
    && g.tcb.Keys == k.tcb.Keys && g.tcb[k.current].status != 0
    && Parked(k.tcb[k.current], g.tcb[k.current], id, ticks)
    && forall p :: p in k.tcb && p != k.current ==> g.tcb[p] == k.tcb[p]
  }

  // The greatest waiter of list id, if there is one, and nobody else, has gone to the ready list
  ghost predicate Released(k: KernelState, g: KernelState, id: ListId)
  {
    && Ready in k.s && id in k.s && IsWait(id) && g.active == k.active && g.running == k.running
    && if k.s[id] == {} then g.s == k.s && g.tcb == k.tcb
       else
         var t := Top(k.s[id]);
         && g.s == k.s[id := k.s[id] - {t}][Ready := k.s[Ready] + {t}]
         && g.tcb.Keys == k.tcb.Keys && t in g.tcb && Marked(k.tcb[t], g.tcb[t], 0)
         && forall p :: p in k.tcb && p != t ==> g.tcb[p] == k.tcb[p]
  }

  // The calls that may put their caller to sleep: where it waits, and for how long
  ghost predicate Blocks(k: KernelState, c: Call)
  {
    || (c.TakeSem? && TakeBlocks(k, c.sem))
    || (c.Insert? && InsertBlocks(k, c.queue, c.data, c.opt))
    || (c.Remove? && RemoveBlocks(k, c.queue, c.opt))
  }

  function WaitList(c: Call): ListId
    requires c.TakeSem? || c.Insert? || c.Remove?
  {
    match c
    case TakeSem(m, _) => SemWait(m)
    case Insert(q, _, _, _) => SlotWait(q)
    case Remove(q, _, _) => InsertWait(q)
  }

  // The list a successful call releases a waiter from
  function ReleaseList(c: Call): ListId
    requires c.GiveSem? || c.Insert? || c.Remove?
  {
    match c
    case GiveSem(m, _) => SemWait(m)
    case Insert(q, _, _, _) => InsertWait(q)
    case Remove(q, _, _) => SlotWait(q)
  }

  lemma BlockSleeps(k: KernelState, id: ListId, ticks: nat)
    requires Inv(k) && MayBlock(k) && id in k.s && IsWait(id)
    ensures Formed(k) && k.current in k.tcb && WentToSleep(k, Block(k, id, ticks), id, ticks)
  {
    hide Inv, BlockTcb, Parked;
    InvFormed(k);
    CurrentReady(k);
    BlockInv(k, id, ticks);
    BlockParks(k.tcb[k.current], id, ticks);
    BlockedLists(k, id, ticks);
    BlockedNotReady(k, id, ticks);
  }

  lemma BlockParks(t: Tcb, id: ListId, ticks: nat)
    requires t.status == 0 && IsWait(id)
    ensures Parked(t, BlockTcb(t, id, ticks), id, ticks)
  {}

  lemma BlockedLists(k: KernelState, id: ListId, ticks: nat)
    requires Formed(k) && id in k.s && IsWait(id) && k.current in k.s[Ready]
    ensures Add(Add(Del(k.s, Ready, k.current), id, k.current), Timer(k.active), k.current)
            == k.s[Ready := k.s[Ready] - {k.current}][id := k.s[id] + {k.current}]
                  [Timer(k.active) := k.s[Timer(k.active)] + {k.current}]
    ensures Add(Del(k.s, Ready, k.current), id, k.current)
            == k.s[Ready := k.s[Ready] - {k.current}][id := k.s[id] + {k.current}]
                  [Timer(k.active) := k.s[Timer(k.active)]]
  {}

  lemma BlockedNotReady(k: KernelState, id: ListId, ticks: nat)
    requires Formed(k) && id in k.s && IsWait(id) && k.current in k.tcb && Inv(Block(k, id, ticks))
    ensures BlockTcb(k.tcb[k.current], id, ticks).status != 0
  {
    hide BlockTcb;
    var g := Block(k, id, ticks);
    assert TaskAgrees(g.s, g.tcb, g.active, k.current);
  }

  // Nobody waits under the number 0
  lemma WaitersNotIdle(k: KernelState, id: ListId)
    requires Sound(k) && id in k.s && IsWait(id)
    ensures 0 !in k.s[id] && forall p :: p in k.s[id] ==> p in k.tcb
  {
    assert TaskAgrees(k.s, k.tcb, k.active, 0);
    forall p | p in k.s[id] ensures p in k.tcb {
      assert TaskAgrees(k.s, k.tcb, k.active, p);
    }
  }

  lemma WakeReleases(k: KernelState, id: ListId)
    requires Sound(k) && id in k.s && IsWait(id)
    ensures Formed(k) && Released(k, Yield(WakeTop(k, id)), id) && Released(k, WakeTop(k, id), id)
  {
    hide Sound, WakeTcb, Marked;
    SoundParts(k);
    WaitersNotIdle(k, id);
    WakeTopSound(k, id);
    if k.s[id] != {} { WakeOnlyClears(k.tcb[Top(k.s[id])], id); }
  }

  lemma WakeOnlyClears(t: Tcb, id: ListId)
    requires WakeTcb(t, id).status == 0
    ensures Marked(t, WakeTcb(t, id), 0)
  {}

  // A take that finds no unit, an insertion into a full queue and a removal from an empty one, with
  // the option to block, each send their caller to the list of its own kind
  lemma CallersSleep(k: KernelState, c: Call)
    requires Inv(k) && Allowed(k, c) && Blocks(k, c)
    ensures WentToSleep(k, Step(k, c), WaitList(c), c.timeout)
    ensures Answer(k, c).status == (if c.TakeSem? then Waiting else if c.Insert? then QueueFull else QueueEmpty)
  {
    hide Inv, Block, WentToSleep;
    InvFormed(k);
    BlockSleeps(k, WaitList(c), c.timeout);
  }

  // Which calls put their caller to sleep, in full
  lemma BlocksIff(k: KernelState, c: Call)
    requires Inv(k)
    ensures Blocks(k, c) <==>
              || (c.TakeSem? && c.sem in k.sems && k.sems[c.sem].count == 0)
              || (c.Insert? && c.data != 0 && c.queue in k.queues && c.opt == 0x02
                  && |k.queues[c.queue].held| == k.queues[c.queue].slots)
              || (c.Remove? && c.queue in k.queues && c.opt == 0x01 && k.queues[c.queue].held == [])
  {
    hide Inv;
    InvParts(k);
    SoundParts(k);
  }

  // A call that neither sleeps nor succeeds leaves the state alone
  lemma RefusedKeeps(k: KernelState, c: Call)
    requires Inv(k) && Allowed(k, c) && !Blocks(k, c) && Answer(k, c).status != StatusOk
    ensures Step(k, c) == k
  {
    hide Inv, Formed, Yield, WakeTop, SetHeld, SetCount, Block, Create, Delay, Start, IrqIn, IrqOut;
    InvFormed(k);
  }

  // A give, an insertion and a removal that succeed each release the greatest waiter of the list that
  // their counterpart sends its callers to, and change no other list
  lemma SuccessReleases(k: KernelState, c: Call)
    requires Inv(k) && Allowed(k, c) && (c.GiveSem? || c.Insert? || c.Remove?) && Answer(k, c).status == StatusOk
    ensures Released(k, Step(k, c), ReleaseList(c))
  {
    hide Inv, Sound, Formed, WakeTop, Yield, SetHeld, SetCount, Released;
    InvFormed(k);
    match c
    case GiveSem(m, count) => GiveReleases(k, m, count);
    case Insert(q, data, opt, timeout) => InsertReleases(k, q, data, opt, timeout);
    case Remove(q, opt, timeout) => RemoveReleases(k, q, opt, timeout);
  }

  lemma SameWaiters(k: KernelState, h: KernelState, g: KernelState, id: ListId)
    requires h.s == k.s && h.tcb == k.tcb && h.active == k.active && h.running == k.running && Released(h, g, id)
    ensures Released(k, g, id)
  {}

  lemma GiveReleases(k: KernelState, m: nat, count: nat)
    requires Inv(k) && m in k.sems
    ensures Formed(k) && Released(k, SemGive(k, m, count).0, SemWait(m))
  {
    hide Inv, Sound, WakeTop, Yield, Released;
    InvFormed(k);
    InvParts(k);
    var h := SetCount(k, m, Capped(k.sems[m], count));
    SetCountSound(k, m, Capped(k.sems[m], count));
    WakeReleases(h, SemWait(m));
    SameWaiters(k, h, SemGive(k, m, count).0, SemWait(m));
  }

  lemma InsertReleases(k: KernelState, q: nat, data: nat, opt: nat, timeout: nat)
    requires Inv(k) && data != 0 && q in k.queues && |k.queues[q].held| < k.queues[q].slots
    ensures Formed(k) && Released(k, QueueInsert(k, q, data, opt, timeout).0, InsertWait(q))
  {
    hide Inv, Sound, Formed, WakeTop, Yield, Released;
    InvFormed(k);
    InsertFreeInv(k, q, data);
    var h := SetHeld(k, q, k.queues[q].held + [data]);
    WakeReleases(h, InsertWait(q));
    SameWaiters(k, h, QueueInsert(k, q, data, opt, timeout).0, InsertWait(q));
  }

  lemma RemoveReleases(k: KernelState, q: nat, opt: nat, timeout: nat)
    requires Inv(k) && q in k.queues && |k.queues[q].held| > 0
    ensures Formed(k) && Released(k, QueueRemove(k, q, opt, timeout).0, SlotWait(q))
  {
    hide Inv, Sound, Formed, WakeTop, Yield, Released;
    InvFormed(k);
    RemoveHeldInv(k, q);
    var h := SetHeld(k, q, k.queues[q].held[1..]);
    WakeReleases(h, SlotWait(q));
    SameWaiters(k, h, QueueRemove(k, q, opt, timeout).0, SlotWait(q));
  }

  // A flush releases the greatest slot waiter, then the greatest message waiter
  lemma FlushReleases(k: KernelState, q: nat)
    requires Inv(k) && q in k.queues
    ensures Formed(k)
    ensures exists h :: Released(k, h, SlotWait(q)) && Released(h, QueueFlush(k, q).0, InsertWait(q))
  {
    hide Inv, Sound, WakeTop, Yield, Released;
    InvFormed(k);
    InvParts(k);
    var h := SetHeld(k, q, []);
    SetHeldSound(k, q, []);
    WakeReleases(h, SlotWait(q));
    SameWaiters(k, h, WakeTop(h, SlotWait(q)), SlotWait(q));
    WakeTopSound(h, SlotWait(q));
    WakeReleases(WakeTop(h, SlotWait(q)), InsertWait(q));
  }

  lemma FlushNothing(k: KernelState, q: nat)
    requires Formed(k) && q !in k.queues
    ensures QueueFlush(k, q).0 == k
  {}

  // g is k but for task p, which has gone into the ready list or out of it
  ghost predicate OnlyTask(k: KernelState, g: KernelState, p: nat, status: bv16)
  {
    && Ready in k.s && p in k.tcb && g.tcb.Keys == k.tcb.Keys
    && g.s == k.s[Ready := if status == 0 then k.s[Ready] + {p} else k.s[Ready] - {p}]
    && Marked(k.tcb[p], g.tcb[p], status)
    && forall q :: q in k.tcb && q != p ==> g.tcb[q] == k.tcb[q]
  }

  // Creation adds one ready task
  lemma CreateMoves(k: KernelState, p: nat, delay: nat)
    requires Inv(k) && Allowed(k, CreateTask(p, delay))
    ensures var g := Step(k, CreateTask(p, delay));
            Ready in k.s && g.s == k.s[Ready := k.s[Ready] + {p}] && g.tcb == k.tcb[p := Tcb(delay, 0, Null, Null)]
  {
    hide Inv;
    InvFormed(k);
  }

  // A suspension that is not refused marks the task and takes it out of the ready list, no more
  lemma SuspendMoves(k: KernelState, p: nat)
    requires Inv(k) && Allowed(k, SuspendTask(p)) && p in k.tcb && k.tcb[p].status == 0
    ensures OnlyTask(k, Step(k, SuspendTask(p)), p, SUSPEND)
  {
    hide Inv;
    InvFormed(k);
  }

  // Resuming takes that mark away again, and is nothing for a task without it
  lemma ResumeMoves(k: KernelState, p: nat)
    requires Inv(k) && Allowed(k, ResumeTask(p)) && p in k.tcb
    ensures var g := Step(k, ResumeTask(p));
            if k.tcb[p].status == SUSPEND then OnlyTask(k, g, p, 0) else g.s == k.s && g.tcb == k.tcb
  {
    hide Inv, ResumeTcb, Marked, KnownStatus, ResumeLists, Yield, OnlyTask;
    InvFormed(k);
    KnownTask(k, p);
    ResumeMarks(k.tcb[p]);
    YieldMoves(k.(s := ResumeLists(k.s, p, k.tcb[p]), tcb := k.tcb[p := ResumeTcb(k.tcb[p])]));
    if k.tcb[p].status == SUSPEND {
      ResumedOnly(k, p);
    } else {
      UpdateSame(k.tcb, p);
      if k.tcb[p].status == 0 { InReady(k, p); }
      ListsSame(k.s, p, k.tcb[p]);
    }
  }

  lemma YieldMoves(k: KernelState)
    requires Ready in k.s
    ensures Yield(k).s == k.s && Yield(k).tcb == k.tcb
  {}

  lemma ResumedOnly(k: KernelState, p: nat)
    requires Ready in k.s && p in k.tcb && Marked(k.tcb[p], ResumeTcb(k.tcb[p]), 0)
    ensures Ready in Resume(k, p).0.s && OnlyTask(k, Resume(k, p).0, p, 0)
  {
    hide ResumeTcb;
  }

  lemma ListsSame(s: Lists, p: nat, t: Tcb)
    requires Ready in s && ResumeTcb(t) == t && (t.status == 0 ==> p in s[Ready])
    ensures ResumeLists(s, p, t) == s
  {
    hide ResumeTcb;
    if t.status == 0 { assert s[Ready] + {p} == s[Ready]; }
  }

  lemma KnownTask(k: KernelState, p: nat)
    requires Inv(k) && p in k.tcb
    ensures KnownStatus(k.tcb[p].status)
  {
    hide KnownStatus;
    assert TaskAgrees(k.s, k.tcb, k.active, p);
  }

  lemma UpdateSame(tcb: Tasks, p: nat)
    requires p in tcb
    ensures tcb[p := tcb[p]] == tcb
  {}

  lemma ResumeMarks(t: Tcb)
    requires KnownStatus(t.status)
    ensures if t.status == SUSPEND then Marked(t, ResumeTcb(t), 0) else ResumeTcb(t) == t
  {
    assert PEND_DELAY & !SUSPEND == PEND_DELAY;
    assert PEND_SEM & !SUSPEND == PEND_SEM && (PEND_SEM | PEND_DELAY) & !SUSPEND == PEND_SEM | PEND_DELAY;
    assert PEND_QUEUE & !SUSPEND == PEND_QUEUE && (PEND_QUEUE | PEND_DELAY) & !SUSPEND == PEND_QUEUE | PEND_DELAY;
  }

  // A delay takes its caller from the ready list to the timer list, for just that many ticks
  lemma DelayMoves(k: KernelState, ticks: nat)
    requires Inv(k) && Allowed(k, DelayTask(ticks)) && ticks > 0
    ensures var g := Step(k, DelayTask(ticks));
            && Ready in k.s && Timer(k.active) in k.s && k.current in k.tcb && k.current in g.tcb
            && g.s == k.s[Ready := k.s[Ready] - {k.current}][Timer(k.active) := k.s[Timer(k.active)] + {k.current}]
            && Marked(k.tcb[k.current].(delayTime := ticks), g.tcb[k.current], PEND_DELAY)
            && g.tcb.Keys == k.tcb.Keys && forall p :: p in k.tcb && p != k.current ==> g.tcb[p] == k.tcb[p]
  {
    hide Inv, Marked;
    InvFormed(k);
    CurrentReady(k);
    DelayMarks(k.tcb[k.current], ticks);
  }

  lemma DelayMarks(t: Tcb, ticks: nat)
    requires t.status == 0
    ensures Marked(t.(delayTime := ticks), DelayTcb(t, ticks), PEND_DELAY)
  {
    assert (0 as bv16) | PEND_DELAY == PEND_DELAY;
  }

  // Resuming a task just suspended undoes the suspension, the running task included
  lemma SuspendResume(k: KernelState, p: nat)
    requires Inv(k) && p in k.tcb && k.tcb[p].status == 0
    ensures Ready in k.s && Ready in Suspend(k, p).0.s
    ensures Resume(Suspend(k, p).0, p) == (k, StatusOk)
  {
    hide Inv, ResumeTcb, Suspend, Add, Del, ResumeLists;
    InvFormed(k);
    InReady(k, p);
    var g := Suspend(k, p).0;
    var t := k.tcb[p].(status := k.tcb[p].status | SUSPEND);
    SuspendIs(k, p, t);
    Restored(k.tcb[p]);
    UpdateBack(k.tcb, p, t);
    ReadyBack(k.s, p, t);
  }

  lemma SuspendIs(k: KernelState, p: nat, t: Tcb)
    requires Ready in k.s && p in k.tcb && k.tcb[p].status == 0
    requires t == k.tcb[p].(status := k.tcb[p].status | SUSPEND)
    ensures Suspend(k, p) == (Yield(k.(s := Del(k.s, Ready, p), tcb := k.tcb[p := t])), StatusOk)
  {
    hide Yield;
  }

  lemma ReadyBack(s: Lists, p: nat, t: Tcb)
    requires Ready in s && p in s[Ready] && ResumeTcb(t).status == 0
    ensures Ready in Del(s, Ready, p) && ResumeLists(Del(s, Ready, p), p, t) == s
  {
    hide ResumeTcb;
    assert s[Ready] - {p} + {p} == s[Ready];
  }

  lemma UpdateBack(tcb: Tasks, p: nat, t: Tcb)
    requires p in tcb
    ensures tcb[p := t][p := tcb[p]] == tcb
  {
    assert tcb[p := t][p := tcb[p]].Keys == tcb.Keys;
  }

  lemma Restored(t: Tcb)
    requires t.status == 0
    ensures ResumeTcb(t.(status := t.status | SUSPEND)) == t
  {}

  lemma InReady(k: KernelState, p: nat)
    requires Inv(k) && p in k.tcb && k.tcb[p].status == 0
    ensures Ready in k.s && p in k.s[Ready]
    ensures k.running && k.irq == 0 ==> k.high == k.current == Top(k.s[Ready])
  {
    assert TaskAgrees(k.s, k.tcb, k.active, p);
  }
}
