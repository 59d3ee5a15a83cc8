// The kernel's state between calls, and what each call does to it.
module KernelModel {
  import opened PrioLists
  import opened TaskModel

  // What a call reports; Waiting stands for a call that has put its caller to sleep
  datatype Status =
    | StatusOk | InvalidParam | OutOfTasks | OutOfMem | OutOfSem | OutOfQueue | CantSuspend | QueueFull | QueueEmpty
    | Timeout
    | Waiting

  datatype Sem = Sem(count: nat, limit: nat)
  datatype Queue = Queue(slots: nat, held: seq<nat>)

  const BLOCK_EMPTY := 1
  const BLOCK_FULL := 2

  // Tasks are named by their priority, current and high included. A handle that names no object
  // is the NULL handle.
  datatype KernelState =
    KernelState(n: nat, s: Lists, active: nat, tcb: Tasks, sems: map<nat, Sem>, queues: map<nat, Queue>,
                running: bool, irq: nat, current: nat, high: nat)

  // The lists the kernel's objects use exist
  ghost predicate Formed(k: KernelState)
  {
    && Ready in k.s && Timer(k.active) in k.s
    && (forall m :: m in k.sems ==> SemWait(m) in k.s)
    && (forall q :: q in k.queues ==> SlotWait(q) in k.s && InsertWait(q) in k.s)
  }

  // Every wait list belongs to an object, priorities fit the table, counters are in range
  ghost predicate Named(k: KernelState)
  {
    && 1 <= k.n <= MAX_TASKS && k.irq <= 0xFFFF
    && (forall p :: p in k.tcb ==> p < k.n)
    && (forall q :: SlotWait(q) in k.s <==> q in k.queues)
    && (forall q :: InsertWait(q) in k.s <==> q in k.queues)
    && (forall m :: SemWait(m) in k.s <==> m in k.sems)
    && (forall q :: q in k.queues ==> |k.queues[q].held| <= k.queues[q].slots)
    && (k.running ==> 0 in k.tcb && k.current in k.tcb && k.high in k.tcb)
    && (!k.running ==> k.irq == 0)
  }

  // Once the kernel runs, outside interrupts, the greatest ready priority runs
  ghost predicate Scheduled(k: KernelState)
    requires Ready in k.s
  {
    k.running && k.irq == 0 ==> k.current == k.high == Top(k.s[Ready])
  }

  // What holds while a call decides whom to run
  ghost predicate Sound(k: KernelState)
  {
    Named(k) && Agree(k.s, k.tcb, k.active)
  }

  // What holds between calls
  ghost predicate Inv(k: KernelState)
  {
    Sound(k) && Scheduled(k)
  }

  // A caller may be put to sleep: it is a task other than the idle task, not an interrupt handler
  ghost predicate MayBlock(k: KernelState)
  {
    k.running && k.irq == 0 && k.current != 0
  }

  // ---- scheduling ------------------------------------------------------------------------

  // uLipeKernelTaskYield; a context switch it asks for is taken at once
  ghost function Yield(k: KernelState): (r: KernelState)
    requires Ready in k.s
    ensures Formed(k) ==> Formed(r)
  {
    if !k.running || k.irq > 0 then k else k.(high := Top(k.s[Ready]), current := Top(k.s[Ready]))
  }

  // uLipeRtosStart
  ghost function Start(k: KernelState): KernelState
    requires Ready in k.s
  {
    k.(running := true, high := Top(k.s[Ready]), current := Top(k.s[Ready]))
  }

  ghost function IrqIn(k: KernelState): KernelState
  {
    if k.running && k.irq < 0xFFFF then k.(irq := k.irq + 1) else k
  }

  ghost function IrqOut(k: KernelState): KernelState
    requires Ready in k.s
  {
    if !k.running then k
    else
      var k1 := if k.irq > 0 then k.(irq := k.irq - 1) else k;
      if k1.irq == 0 then Yield(k1) else k1
  }

  // ---- tasks -----------------------------------------------------------------------------

  // uLipeTaskCreate for a free priority; delay is what the new control block happens to hold
  ghost function Create(k: KernelState, p: nat, delay: nat): KernelState
    requires Ready in k.s
  {
    Yield(k.(s := Add(k.s, Ready, p), tcb := k.tcb[p := Tcb(delay, 0, Null, Null)]))
  }

  ghost function Suspend(k: KernelState, p: nat): (KernelState, Status)
    requires Ready in k.s
  {
    if p !in k.tcb then (k, InvalidParam)
    else if k.tcb[p].status != 0 then (k, CantSuspend)
    else
      (Yield(k.(s := Del(k.s, Ready, p), tcb := k.tcb[p := k.tcb[p].(status := k.tcb[p].status | SUSPEND)])),
       StatusOk)
  }

  ghost function Resume(k: KernelState, p: nat): (KernelState, Status)
    requires Ready in k.s
  {
    if p !in k.tcb then (k, InvalidParam)
    else (Yield(k.(s := ResumeLists(k.s, p, k.tcb[p]), tcb := k.tcb[p := ResumeTcb(k.tcb[p])])), StatusOk)
  }

  ghost function Delay(k: KernelState, ticks: nat): KernelState
    requires Formed(k) && (ticks != 0 ==> k.current in k.tcb)
  {
    if ticks == 0 then k
    else Yield(k.(s := Add(Del(k.s, Ready, k.current), Timer(k.active), k.current),
                  tcb := k.tcb[k.current := DelayTcb(k.tcb[k.current], ticks)]))
  }

  // ---- waiting ---------------------------------------------------------------------------

  // The caller goes to sleep in list id
  ghost function Block(k: KernelState, id: ListId, ticks: nat): KernelState
    requires Formed(k) && id in k.s && k.current in k.tcb
  {
    Yield(k.(s := BlockLists(k.s, k.active, k.current, id, ticks),
             tcb := k.tcb[k.current := BlockTcb(k.tcb[k.current], id, ticks)]))
  }

  // Release the greatest waiter of list id, if there is one
  ghost function WakeTop(k: KernelState, id: ListId): (r: KernelState)
    requires Formed(k) && id in k.s
    ensures Formed(r) && r.s.Keys == k.s.Keys
  {
    var i := Top(k.s[id]);
    if i == 0 || i !in k.tcb then k
    else
      var t := WakeTcb(k.tcb[i], id);
      k.(s := if t.status == 0 then Add(Del(k.s, id, i), Ready, i) else Del(k.s, id, i), tcb := k.tcb[i := t])
  }

  // ---- semaphores ------------------------------------------------------------------------

  ghost function SemCreate(k: KernelState, m: nat, count: nat, limit: nat): KernelState
  {
    k.(s := k.s[SemWait(m) := {}], sems := k.sems[m := Sem(count, limit)])
  }

  ghost function SetCount(k: KernelState, m: nat, count: nat): KernelState
    requires m in k.sems
  {
    k.(sems := k.sems[m := k.sems[m].(count := count)])
  }

  // A take that finds no unit puts its caller to sleep
  ghost predicate TakeBlocks(k: KernelState, m: nat)
  {
    m in k.sems && k.sems[m].count == 0
  }

  // uLipeSemTake up to the point where a caller that finds no unit sleeps
  ghost function SemTake(k: KernelState, m: nat, timeout: nat): (KernelState, Status)
    requires Formed(k) && (TakeBlocks(k, m) ==> k.current in k.tcb)
  {
    if m !in k.sems then (k, InvalidParam)
    else if k.sems[m].count == 0 then (Block(k, SemWait(m), timeout), Waiting)
    else (SetCount(k, m, k.sems[m].count - 1), StatusOk)
  }

  // The rest of uLipeSemTake, run when that caller runs again
  ghost function SemRetake(k: KernelState, m: nat): (KernelState, Status)
    requires m in k.sems
  {
    if k.sems[m].count > 0 then (SetCount(k, m, k.sems[m].count - 1), StatusOk) else (k, Timeout)
  }

  function Capped(s: Sem, count: nat): nat
  {
    if s.count + count > s.limit then s.limit else s.count + count
  }

  ghost function SemGive(k: KernelState, m: nat, count: nat): (KernelState, Status)
    requires Formed(k)
  {
    if m !in k.sems then (k, InvalidParam)
    else (Yield(WakeTop(SetCount(k, m, Capped(k.sems[m], count)), SemWait(m))), StatusOk)
  }

  // ---- queues ----------------------------------------------------------------------------

  ghost function QueueCreate(k: KernelState, q: nat, slots: nat): KernelState
  {
    k.(s := k.s[SlotWait(q) := {}][InsertWait(q) := {}], queues := k.queues[q := Queue(slots, [])])
  }

  ghost function SetHeld(k: KernelState, q: nat, held: seq<nat>): KernelState
    requires q in k.queues
  {
    k.(queues := k.queues[q := k.queues[q].(held := held)])
  }

  // An insertion into a full queue, or a removal from an empty one, puts its caller to sleep on request
  ghost predicate InsertBlocks(k: KernelState, q: nat, data: nat, opt: nat)
  {
    data != 0 && q in k.queues && |k.queues[q].held| >= k.queues[q].slots && opt == BLOCK_FULL
  }

  ghost predicate RemoveBlocks(k: KernelState, q: nat, opt: nat)
  {
    q in k.queues && |k.queues[q].held| == 0 && opt == BLOCK_EMPTY
  }

  ghost function QueueInsert(k: KernelState, q: nat, data: nat, opt: nat, timeout: nat): (KernelState, Status)
    requires Formed(k) && (InsertBlocks(k, q, data, opt) ==> k.current in k.tcb)
  {
    if data == 0 || q !in k.queues then (k, InvalidParam)
    else
      var held := k.queues[q].held;
      if |held| >= k.queues[q].slots then
        (if opt == BLOCK_FULL then Block(k, SlotWait(q), timeout) else k, QueueFull)
      else
        (Yield(WakeTop(SetHeld(k, q, held + [data]), InsertWait(q))), StatusOk)
  }

  ghost function QueueRemove(k: KernelState, q: nat, opt: nat, timeout: nat): (KernelState, nat, Status)
    requires Formed(k) && (RemoveBlocks(k, q, opt) ==> k.current in k.tcb)
  {
    if q !in k.queues then (k, 0, InvalidParam)
    else
      var held := k.queues[q].held;
      if |held| == 0 then
        (if opt == BLOCK_EMPTY then Block(k, InsertWait(q), timeout) else k, 0, QueueEmpty)
      else
        (Yield(WakeTop(SetHeld(k, q, held[1..]), SlotWait(q))), held[0], StatusOk)
  }

  ghost function QueueFlush(k: KernelState, q: nat): (KernelState, Status)
    requires Formed(k)
  {
    if q !in k.queues then (k, InvalidParam)
    else (Yield(WakeTop(WakeTop(SetHeld(k, q, []), SlotWait(q)), InsertWait(q))), StatusOk)
  }

  // ---- each call keeps the invariant -------------------------------------------------------

  // The state uLipeRtosInit starts from: no task, no object, nothing running
  ghost function Init(n: nat): KernelState
  {
    KernelState(n, map[Ready := {}, Timer(0) := {}, Timer(1) := {}], 0, map[], map[], map[], false, 0, 0, 0)
  }

  lemma InitInv(n: nat)
    requires 1 <= n <= MAX_TASKS
    ensures Inv(Init(n))
  {
    var k := Init(n);
    forall p ensures TaskAgrees(k.s, k.tcb, k.active, p) {}
  }

  lemma InvParts(k: KernelState)
    requires Inv(k)
    ensures Sound(k)
  {}

  lemma SoundParts(k: KernelState)
    requires Sound(k)
    ensures Formed(k) && Agree(k.s, k.tcb, k.active) && Shaped(k.s, k.active)
    ensures 1 <= k.n <= MAX_TASKS && (k.running ==> k.current in k.tcb && 0 in k.tcb)
    ensures forall p :: p in k.tcb ==> p < k.n
    ensures forall q :: q in k.queues ==> |k.queues[q].held| <= k.queues[q].slots
  {}

  lemma InvFormed(k: KernelState)
    requires Inv(k)
    ensures Formed(k) && (k.running ==> k.current in k.tcb)
  {
    hide *;
    InvParts(k);
    SoundParts(k);
  }

  lemma YieldInv(k: KernelState)
    requires Sound(k)
    ensures Ready in k.s && Inv(Yield(k))
  {
    hide Agree;
    SoundParts(k);
    if k.running { TopReady(k.s, k.tcb, k.active); }
  }

  lemma StartInv(k: KernelState)
    requires Inv(k) && 0 in k.tcb && !k.running
    ensures Ready in k.s && Inv(Start(k))
  {
    hide Agree;
    SoundParts(k);
    TopReady(k.s, k.tcb, k.active);
  }

  lemma IrqSound(k: KernelState, irq: nat)
    requires Sound(k) && k.running && irq <= 0xFFFF
    ensures Sound(k.(irq := irq))
  {
    hide Agree;
  }

  lemma IrqInInv(k: KernelState)
    requires Inv(k)
    ensures Inv(IrqIn(k))
  {
    hide Agree;
  }

  lemma IrqOutInv(k: KernelState)
    requires Sound(k) && (k.irq == 0 ==> Inv(k))
    ensures Ready in k.s && Inv(IrqOut(k))
  {
    hide Agree, Yield, Named;
    SoundParts(k);
    if k.running {
      if k.irq > 0 {
        IrqBound(k);
        IrqSound(k, k.irq - 1);
        YieldInv(k.(irq := k.irq - 1));
      } else {
        YieldInv(k);
      }
    } else {
      IrqBound(k);
    }
  }

  lemma IrqBound(k: KernelState)
    requires Sound(k)
    ensures k.irq <= 0xFFFF && (!k.running ==> k.irq == 0)
  {
    hide Agree;
  }

  lemma CurrentReady(k: KernelState)
    requires Inv(k) && MayBlock(k)
    ensures Ready in k.s && k.current in k.s[Ready] && k.current in k.tcb && k.tcb[k.current].status == 0
            && k.current < k.n
  {
    hide Agree;
    SoundParts(k);
    TopReady(k.s, k.tcb, k.active);
  }

  // A change of lists and task table that keeps all names and has agreeing lists is sound
  lemma SoundChange(k: KernelState, g: KernelState)
    requires Sound(k) && Agree(g.s, g.tcb, g.active)
    requires g.n == k.n && g.s.Keys == k.s.Keys && g.tcb.Keys == k.tcb.Keys && g.sems == k.sems
    requires g.queues == k.queues && g.running == k.running && g.irq == k.irq && g.current == k.current
             && g.high == k.high
    ensures Sound(g)
  {
    hide Agree;
  }

  lemma CreateInv(k: KernelState, p: nat, delay: nat)
    requires Inv(k) && p !in k.tcb && p < k.n
    ensures Ready in k.s && Inv(Create(k, p, delay))
  {
    hide Agree, Yield;
    SoundParts(k);
    CreateAgrees(k.s, k.tcb, k.active, p, delay);
    YieldInv(k.(s := Add(k.s, Ready, p), tcb := k.tcb[p := Tcb(delay, 0, Null, Null)]));
  }

  lemma SuspendInv(k: KernelState, p: nat)
    requires Inv(k)
    ensures Ready in k.s && Inv(Suspend(k, p).0)
  {
    hide Agree, Yield, Named, Inv, Sound;
    InvParts(k);
    SoundParts(k);
    if p in k.tcb && k.tcb[p].status == 0 {
      SuspendAgrees(k.s, k.tcb, k.active, p);
      var g := k.(s := Del(k.s, Ready, p), tcb := k.tcb[p := k.tcb[p].(status := k.tcb[p].status | SUSPEND)]);
      SoundChange(k, g);
      YieldInv(g);
    }
  }

  lemma ResumeInv(k: KernelState, p: nat)
    requires Inv(k)
    ensures Ready in k.s && Inv(Resume(k, p).0)
  {
    hide Agree, Yield, Named, Inv, Sound, ResumeLists, ResumeTcb;
    InvParts(k);
    SoundParts(k);
    if p in k.tcb {
      ResumeAgrees(k.s, k.tcb, k.active, p);
      var g := k.(s := ResumeLists(k.s, p, k.tcb[p]), tcb := k.tcb[p := ResumeTcb(k.tcb[p])]);
      SoundChange(k, g);
      YieldInv(g);
    }
  }

  // Task p resumed: its status word is st, in lists s and task table tcb
  lemma ResumeIs(k: KernelState, p: nat, st: bv16, s: Lists, tcb: Tasks)
    requires Ready in k.s && p in k.tcb && st == k.tcb[p].status & !SUSPEND
    requires s == if st == 0 then Add(k.s, Ready, p) else k.s
    requires tcb == k.tcb[p := WithStatus(k.tcb[p], st)]
    ensures Ready in s && Resume(k, p) == (Yield(k.(s := s, tcb := tcb)), StatusOk)
  {
    hide Yield;
  }

  lemma DelayInv(k: KernelState, ticks: nat)
    requires Inv(k) && (ticks != 0 ==> MayBlock(k))
    ensures Formed(k) && (ticks != 0 ==> k.current in k.tcb) && Inv(Delay(k, ticks))
  {
    hide Agree, Yield, Named, Inv, Sound;
    InvParts(k);
    SoundParts(k);
    if ticks != 0 {
      CurrentReady(k);
      DelayAgrees(k.s, k.tcb, k.active, k.current, ticks);
      var g := k.(s := Add(Del(k.s, Ready, k.current), Timer(k.active), k.current),
                  tcb := k.tcb[k.current := DelayTcb(k.tcb[k.current], ticks)]);
      SoundChange(k, g);
      YieldInv(g);
    }
  }

  lemma BlockInv(k: KernelState, id: ListId, ticks: nat)
    requires Inv(k) && MayBlock(k) && id in k.s && IsWait(id)
    ensures Formed(k) && k.current in k.tcb && Inv(Block(k, id, ticks))
  {
    hide Agree, Yield, Named, Inv, Sound;
    InvParts(k);
    SoundParts(k);
    CurrentReady(k);
    BlockAgrees(k.s, k.tcb, k.active, k.current, id, ticks);
    var g := k.(s := BlockLists(k.s, k.active, k.current, id, ticks),
                tcb := k.tcb[k.current := BlockTcb(k.tcb[k.current], id, ticks)]);
    SoundChange(k, g);
    YieldInv(g);
  }

  lemma WakeTopSound(k: KernelState, id: ListId)
    requires Sound(k) && id in k.s && IsWait(id)
    ensures Formed(k) && Sound(WakeTop(k, id))
    ensures var i := Top(k.s[id]); i != 0 ==> i in k.tcb && i < k.n && WakeTcb(k.tcb[i], id).status == 0
  {
    hide Agree, Sound, Named;
    SoundParts(k);
    var i := Top(k.s[id]);
    if i != 0 {
      WakeAgrees(k.s, k.tcb, k.active, i, id);
      SoundChange(k, WakeTop(k, id));
    }
  }

  lemma SetCountSound(k: KernelState, m: nat, count: nat)
    requires Sound(k) && m in k.sems
    ensures Sound(SetCount(k, m, count))
  {
    hide Agree;
  }

  lemma SetHeldSound(k: KernelState, q: nat, held: seq<nat>)
    requires Sound(k) && q in k.queues && |held| <= k.queues[q].slots
    ensures Sound(SetHeld(k, q, held))
  {
    hide Agree;
  }

  lemma SemCreateInv(k: KernelState, m: nat, count: nat, limit: nat)
    requires Inv(k) && m !in k.sems
    ensures Inv(SemCreate(k, m, count, limit))
  {
    hide Agree;
    SoundParts(k);
    NewListAgrees(k.s, k.tcb, k.active, SemWait(m));
  }

  lemma QueueCreateInv(k: KernelState, q: nat, slots: nat)
    requires Inv(k) && q !in k.queues
    ensures Inv(QueueCreate(k, q, slots))
  {
    hide Agree;
    SoundParts(k);
    NewListAgrees(k.s, k.tcb, k.active, SlotWait(q));
    NewListAgrees(k.s[SlotWait(q) := {}], k.tcb, k.active, InsertWait(q));
  }

  lemma SetCountInv(k: KernelState, m: nat, count: nat)
    requires Inv(k) && m in k.sems
    ensures Inv(SetCount(k, m, count))
  {
    hide Sound;
    SetCountSound(k, m, count);
    SoundParts(k);
  }

  lemma SemTakeInv(k: KernelState, m: nat, timeout: nat)
    requires Inv(k) && (TakeBlocks(k, m) ==> MayBlock(k))
    ensures Formed(k) && (TakeBlocks(k, m) ==> k.current in k.tcb) && Inv(SemTake(k, m, timeout).0)
  {
    hide Agree, Named, Block, Sound, Inv, SetCount;
    InvFormed(k);
    if m in k.sems {
      if k.sems[m].count == 0 { BlockInv(k, SemWait(m), timeout); }
      else { SetCountInv(k, m, k.sems[m].count - 1); }
    }
  }

  lemma SemRetakeInv(k: KernelState, m: nat)
    requires Inv(k) && m in k.sems
    ensures Inv(SemRetake(k, m).0)
  {
    hide Inv, SetCount;
    if k.sems[m].count > 0 { SetCountInv(k, m, k.sems[m].count - 1); }
  }

  lemma SemGiveInv(k: KernelState, m: nat, count: nat)
    requires Inv(k)
    ensures Formed(k) && Inv(SemGive(k, m, count).0)
  {
    hide Agree, Named, Inv, Sound, Yield, WakeTop, SetCount;
    InvFormed(k);
    if m in k.sems {
      InvParts(k);
      var k1 := SetCount(k, m, Capped(k.sems[m], count));
      SetCountSound(k, m, Capped(k.sems[m], count));
      SetCountKeeps(k, m, Capped(k.sems[m], count));
      WakeTopSound(k1, SemWait(m));
      YieldInv(WakeTop(k1, SemWait(m)));
    }
  }

  lemma SetCountKeeps(k: KernelState, m: nat, count: nat)
    requires m in k.sems
    ensures SetCount(k, m, count).s == k.s
  {}

  lemma SetHeldKeeps(k: KernelState, q: nat, held: seq<nat>)
    requires q in k.queues
    ensures SetHeld(k, q, held).s == k.s
  {}

  // A message goes into a free slot, and whoever waits for one is released
  lemma InsertFreeInv(k: KernelState, q: nat, data: nat)
    requires Inv(k) && q in k.queues && |k.queues[q].held| < k.queues[q].slots
    ensures var g := SetHeld(k, q, k.queues[q].held + [data]);
            Sound(g) && g.s == k.s && Formed(g) && InsertWait(q) in g.s && Inv(Yield(WakeTop(g, InsertWait(q))))
  {
    hide Agree, Named, Inv, Sound, Yield, WakeTop, SetHeld;
    InvFormed(k);
    InvParts(k);
    var held := k.queues[q].held + [data];
    SetHeldSound(k, q, held);
    SetHeldKeeps(k, q, held);
    WakeTopSound(SetHeld(k, q, held), InsertWait(q));
    YieldInv(WakeTop(SetHeld(k, q, held), InsertWait(q)));
  }

  // The oldest message leaves its slot, and whoever waits for one is released
  lemma RemoveHeldInv(k: KernelState, q: nat)
    requires Inv(k) && q in k.queues && |k.queues[q].held| > 0
    ensures var g := SetHeld(k, q, k.queues[q].held[1..]);
            Sound(g) && g.s == k.s && Formed(g) && SlotWait(q) in g.s && Inv(Yield(WakeTop(g, SlotWait(q))))
  {
    hide Agree, Named, Inv, Sound, Yield, WakeTop, SetHeld;
    InvFormed(k);
    InvParts(k);
    SoundParts(k);
    var held := k.queues[q].held[1..];
    SetHeldSound(k, q, held);
    SetHeldKeeps(k, q, held);
    WakeTopSound(SetHeld(k, q, held), SlotWait(q));
    YieldInv(WakeTop(SetHeld(k, q, held), SlotWait(q)));
  }

  lemma QueueInsertInv(k: KernelState, q: nat, data: nat, opt: nat, timeout: nat)
    requires Inv(k) && (InsertBlocks(k, q, data, opt) ==> MayBlock(k))
    ensures Formed(k) && (InsertBlocks(k, q, data, opt) ==> k.current in k.tcb)
    ensures Inv(QueueInsert(k, q, data, opt, timeout).0)
  {
    hide Agree, Named, Inv, Sound, Yield, WakeTop, Block, SetHeld;
    InvFormed(k);
    if data != 0 && q in k.queues {
      var held := k.queues[q].held;
      if |held| >= k.queues[q].slots {
        if opt == BLOCK_FULL { BlockInv(k, SlotWait(q), timeout); }
      } else {
        InsertFreeInv(k, q, data);
      }
    }
  }

  lemma QueueRemoveInv(k: KernelState, q: nat, opt: nat, timeout: nat)
    requires Inv(k) && (RemoveBlocks(k, q, opt) ==> MayBlock(k))
    ensures Formed(k) && (RemoveBlocks(k, q, opt) ==> k.current in k.tcb)
    ensures Inv(QueueRemove(k, q, opt, timeout).0)
  {
    hide Agree, Named, Inv, Sound, Yield, WakeTop, Block, SetHeld;
    InvFormed(k);
    if q in k.queues {
      var held := k.queues[q].held;
      if |held| == 0 {
        if opt == BLOCK_EMPTY { BlockInv(k, InsertWait(q), timeout); }
      } else {
        RemoveHeldInv(k, q);
      }
    }
  }

  lemma QueueFlushInv(k: KernelState, q: nat)
    requires Inv(k)
    ensures Formed(k) && Inv(QueueFlush(k, q).0)
  {
    hide Agree, Named, Inv, Sound, Yield, WakeTop, SetHeld;
    InvFormed(k);
    if q in k.queues {
      InvParts(k);
      SetHeldSound(k, q, []);
      SetHeldKeeps(k, q, []);
      var k0 := SetHeld(k, q, []);
      WakeTopSound(k0, SlotWait(q));
      var k1 := WakeTop(k0, SlotWait(q));
      WakeTopSound(k1, InsertWait(q));
      YieldInv(WakeTop(k1, InsertWait(q)));
    }
  }
}
