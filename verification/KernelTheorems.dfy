// What holds over every run of the kernel.
module KernelTheorems {
  import opened PrioLists
  import opened TaskModel
  import opened KernelModel
  import opened TickModel
  import opened KernelRuns

  // ---- agreement ---------------------------------------------------------------------------

  // In every reachable state a task is in the ready list exactly when it is installed with
  // status 0, and in a wait list exactly when it has the pend bit of its kind and its back pointer
  // names that list; it is in one wait list at most, and wait lists belong to existing objects
  lemma Agreement(n: nat, cs: seq<Call>, p: nat)
    requires 1 <= n <= MAX_TASKS && Inv(Init(n)) && Legal(Init(n), cs)
    ensures var k := Run(Init(n), cs);
            && Ready in k.s
            && (p in k.s[Ready] <==> p in k.tcb && k.tcb[p].status == 0)
            && (forall id :: id in k.s && IsWait(id) ==> (p in k.s[id] <==> p in k.tcb && WaitsIn(k.tcb[p], id)))
            && (forall a, b :: a in k.s && b in k.s && IsWait(a) && IsWait(b) && p in k.s[a] && p in k.s[b] ==> a == b)
            && (forall m :: SemWait(m) in k.s <==> m in k.sems)
            && (forall q :: SlotWait(q) in k.s <==> q in k.queues)
            && (forall q :: InsertWait(q) in k.s <==> q in k.queues)
  {
    hide Inv, Legal, Run, Init, WaitsIn;
    var k := Run(Init(n), cs);
    AgreementAt(k, p);
    ListOwners(k);
  }

  lemma ListOwners(k: KernelState)
    requires Inv(k)
    ensures forall m :: SemWait(m) in k.s <==> m in k.sems
    ensures forall q :: SlotWait(q) in k.s <==> q in k.queues
    ensures forall q :: InsertWait(q) in k.s <==> q in k.queues
  {
    hide Agree;
  }

  lemma AgreementAt(k: KernelState, p: nat)
    requires Inv(k)
    ensures Ready in k.s
    ensures p in k.s[Ready] <==> p in k.tcb && k.tcb[p].status == 0
    ensures forall id :: id in k.s && IsWait(id) ==> (p in k.s[id] <==> p in k.tcb && WaitsIn(k.tcb[p], id))
    ensures forall a, b :: a in k.s && b in k.s && IsWait(a) && IsWait(b) && p in k.s[a] && p in k.s[b] ==> a == b
  {
    hide Inv, Sound, Scheduled, WaitsIn, KnownStatus, PointersOk;
    InvParts(k);
    SoundParts(k);
    assert TaskAgrees(k.s, k.tcb, k.active, p);
    forall a, b | a in k.s && b in k.s && IsWait(a) && IsWait(b) && p in k.s[a] && p in k.s[b] ensures a == b {
      OneWait(k.s, k.tcb, k.active, p, a, b);
    }
  }

  lemma OneWait(s: Lists, tcb: Tasks, active: nat, p: nat, a: ListId, b: ListId)
    requires Ready in s && Timer(active) in s && TaskAgrees(s, tcb, active, p)
    requires a in s && b in s && IsWait(a) && IsWait(b) && p in s[a] && p in s[b]
    ensures a == b
  {}

  // ---- scheduling --------------------------------------------------------------------------

  // Once the kernel runs, whenever no interrupt is being served the running task is the greatest
  // installed priority with status 0, or the idle task when nothing installed has status 0
  lemma StrictPriority(n: nat, cs: seq<Call>)
    requires 1 <= n <= MAX_TASKS && Inv(Init(n)) && Legal(Init(n), cs)
    ensures var k := Run(Init(n), cs);
            k.running && k.irq == 0 ==>
              && k.high == k.current && k.current in k.tcb
              && (k.tcb[k.current].status == 0 || (k.current == 0 && forall p :: p in k.tcb ==> k.tcb[p].status != 0))
              && forall p :: p in k.tcb && k.tcb[p].status == 0 ==> p <= k.current
  {
    hide Inv, Legal, Run, Init;
    GreatestRuns(Run(Init(n), cs));
  }

  lemma GreatestRuns(k: KernelState)
    requires Inv(k)
    ensures k.running && k.irq == 0 ==>
              && k.high == k.current && k.current in k.tcb
              && (k.tcb[k.current].status == 0 || (k.current == 0 && forall p :: p in k.tcb ==> k.tcb[p].status != 0))
              && forall p :: p in k.tcb && k.tcb[p].status == 0 ==> p <= k.current
  {
    hide Agree;
    SoundParts(k);
    if k.running { TopReady(k.s, k.tcb, k.active); }
  }

  // Interrupt nesting after the calls cs, begun at depth d; 0 once the outermost handler has
  // ended or the depth has passed what the counter holds
  function Depth(cs: seq<Call>, d: nat): nat
  {
    if cs == [] || d == 0 then d
    else if cs[0] == EnterIrq then Depth(cs[1..], if d < 0xFFFF then d + 1 else 0)
    else if cs[0] == LeaveIrq then Depth(cs[1..], d - 1)
    else if cs[0] == TimerTick then Depth(cs[1..], if d < 0xFFFF then d else 0)
    else Depth(cs[1..], d)
  }

  // The scheduler's variables are the same in k and g
  ghost predicate SameChoice(k: KernelState, g: KernelState)
  {
    g.irq == k.irq && g.running == k.running && g.current == k.current && g.high == k.high
  }

  // Nobody is rescheduled now
  predicate NoSwitch(k: KernelState)
  {
    k.irq > 0 || !k.running
  }

  lemma YieldKeeps(k: KernelState)
    requires Ready in k.s && NoSwitch(k)
    ensures Yield(k) == k
  {}

  lemma WakeKeeps(k: KernelState, id: ListId)
    requires Formed(k) && id in k.s
    ensures SameChoice(k, WakeTop(k, id))
  {
    hide Formed, Add, Del, WakeTcb;
  }

  lemma TaskCallKeeps(k: KernelState, c: Call)
    requires Inv(k) && Allowed(k, c) && NoSwitch(k)
    requires c.CreateTask? || c.SuspendTask? || c.ResumeTask?
    ensures SameChoice(k, Step(k, c))
  {
    hide Inv, Add, Del, ResumeLists, Formed;
    InvFormed(k);
  }

  lemma ObjectCallKeeps(k: KernelState, c: Call)
    requires Inv(k) && Allowed(k, c) && NoSwitch(k)
    requires c.NewSem? || c.TakeSem? || c.RetakeSem? || c.NewQueue? || c.Insert? || c.Remove?
    ensures SameChoice(k, Step(k, c))
  {
    hide Inv, Formed, Step, Allowed, SameChoice;
    match c
    case Insert(_, _, _, _) => InsertKeeps(k, c);
    case Remove(_, _, _) => RemoveKeeps(k, c);
    case _ => CountKeeps(k, c);
  }

  lemma CountKeeps(k: KernelState, c: Call)
    requires Inv(k) && Allowed(k, c) && NoSwitch(k)
    requires c.NewSem? || c.TakeSem? || c.RetakeSem? || c.NewQueue?
    ensures SameChoice(k, Step(k, c))
  {
    hide Inv, Formed, Block;
    InvFormed(k);
  }

  lemma InsertKeeps(k: KernelState, c: Call)
    requires Inv(k) && Allowed(k, c) && NoSwitch(k) && c.Insert?
    ensures SameChoice(k, Step(k, c))
  {
    hide Inv, Formed, WakeTop, Yield, Block;
    InvFormed(k);
    var Insert(q, data, _, _) := c;
    if q in k.queues && data != 0 && |k.queues[q].held| < k.queues[q].slots {
      InsertFreeInv(k, q, data);
      var g := SetHeld(k, q, k.queues[q].held + [data]);
      WakeKeeps(g, InsertWait(q));
      YieldKeeps(WakeTop(g, InsertWait(q)));
    }
  }

  lemma RemoveKeeps(k: KernelState, c: Call)
    requires Inv(k) && Allowed(k, c) && NoSwitch(k) && c.Remove?
    ensures SameChoice(k, Step(k, c))
  {
    hide Inv, Formed, WakeTop, Yield, Block;
    InvFormed(k);
    var Remove(q, _, _) := c;
    if q in k.queues && |k.queues[q].held| > 0 {
      RemoveHeldInv(k, q);
      var g := SetHeld(k, q, k.queues[q].held[1..]);
      WakeKeeps(g, SlotWait(q));
      YieldKeeps(WakeTop(g, SlotWait(q)));
    }
  }

  lemma GiveKeeps(k: KernelState, m: nat, count: nat)
    requires Inv(k) && NoSwitch(k)
    ensures Formed(k) && SameChoice(k, SemGive(k, m, count).0)
  {
    hide Inv, WakeTop, Yield;
    InvFormed(k);
    if m in k.sems {
      var g := SetCount(k, m, Capped(k.sems[m], count));
      WakeKeeps(g, SemWait(m));
      YieldKeeps(WakeTop(g, SemWait(m)));
    }
  }

  lemma FlushKeeps(k: KernelState, q: nat)
    requires Inv(k) && NoSwitch(k)
    ensures Formed(k) && SameChoice(k, QueueFlush(k, q).0)
  {
    hide Inv, WakeTop, Yield;
    InvFormed(k);
    if q in k.queues {
      var g := SetHeld(k, q, []);
      WakeKeeps(g, SlotWait(q));
      WakeKeeps(WakeTop(g, SlotWait(q)), InsertWait(q));
      YieldKeeps(WakeTop(WakeTop(g, SlotWait(q)), InsertWait(q)));
    }
  }

  lemma TickKeeps(k: KernelState)
    requires Ready in k.s && Timer(k.active) in k.s && k.running && 0 < k.irq < 0xFFFF
    ensures SameChoice(k, Tick(k))
  {
    hide TickLists, TickTasks;
  }

  lemma StepDeferred(k: KernelState, c: Call)
    requires Inv(k) && Allowed(k, c) && k.running && k.irq > 0 && Depth([c], k.irq) > 0
    ensures var g := Step(k, c); g.irq == Depth([c], k.irq) && g.running && g.current == k.current && g.high == k.high
  {
    hide Inv, Formed, Depth, Yield, Tick, SemGive, QueueFlush;
    InvFormed(k);
    FormedLists(k);
    DepthOne(c, k.irq);
    match c
    case EnterIrq =>
    case LeaveIrq =>
    case TimerTick => TickKeeps(k);
    case GiveSem(m, count) => GiveKeeps(k, m, count);
    case Flush(q) => FlushKeeps(k, q);
    case CreateTask(_, _) => TaskCallKeeps(k, c);
    case SuspendTask(_) => TaskCallKeeps(k, c);
    case ResumeTask(_) => TaskCallKeeps(k, c);
    case StartKernel =>
    case DelayTask(_) =>
    case _ => ObjectCallKeeps(k, c);
  }

  // Before the start no call runs anything, and ticks and interrupts do nothing at all
  lemma BeforeStart(k: KernelState, c: Call)
    requires Inv(k) && Allowed(k, c) && !k.running && c != StartKernel
    ensures SameChoice(k, Step(k, c))
    ensures c == EnterIrq || c == LeaveIrq || c == TimerTick ==> Step(k, c) == k
  {
    hide Inv, Formed, Yield, SemGive, QueueFlush, TickBody;
    InvFormed(k);
    FormedLists(k);
    match c
    case EnterIrq =>
    case LeaveIrq =>
    case TimerTick =>
    case GiveSem(m, count) => GiveKeeps(k, m, count);
    case Flush(q) => FlushKeeps(k, q);
    case CreateTask(_, _) => TaskCallKeeps(k, c);
    case SuspendTask(_) => TaskCallKeeps(k, c);
    case ResumeTask(_) => TaskCallKeeps(k, c);
    case DelayTask(_) =>
    case _ => ObjectCallKeeps(k, c);
  }

  lemma DepthOne(c: Call, d: nat)
    requires d > 0
    ensures Depth([c], d) == if c == EnterIrq then if d < 0xFFFF then d + 1 else 0
                             else if c == LeaveIrq then d - 1
                             else if c == TimerTick then if d < 0xFFFF then d else 0
                             else d
  {
    assert [c][1..] == [];
  }

  // While handlers are nested, no call changes the running task or the scheduler's choice, and the
  // counter is the nesting depth
  lemma {:induction false} Deferred(k: KernelState, cs: seq<Call>)
    requires Inv(k) && Legal(k, cs) && k.running && k.irq > 0 && Depth(cs, k.irq) > 0
    ensures var g := Run(k, cs); g.irq == Depth(cs, k.irq) && g.running && g.current == k.current && g.high == k.high
    decreases |cs|
  {
    hide Inv, Allowed, Step;
    if cs != [] {
      DepthOne(cs[0], k.irq);
      DepthZero(cs[1..]);
      StepDeferred(k, cs[0]);
      StepInv(k, cs[0]);
      Deferred(Step(k, cs[0]), cs[1..]);
    }
  }

  lemma DepthZero(cs: seq<Call>)
    ensures Depth(cs, 0) == 0
  {}

  // A bracketed handler, with whatever it nests, leaves the running task alone until its end;
  // then the greatest ready priority runs
  lemma OutermostSchedules(k: KernelState, cs: seq<Call>)
    requires Inv(k) && k.running && k.irq == 0
    requires Inv(IrqIn(k)) && Legal(IrqIn(k), cs) && Depth(cs, 1) == 1
    ensures var g := Run(IrqIn(k), cs);
            && g.current == k.current
            && Ready in g.s && IrqOut(g).irq == 0 && IrqOut(g).current == Top(g.s[Ready])
  {
    hide Inv, Legal, Run, Depth;
    IrqInFirst(k);
    Deferred(IrqIn(k), cs);
    InvFormed(Run(IrqIn(k), cs));
    IrqOutLast(Run(IrqIn(k), cs));
  }

  lemma IrqInFirst(k: KernelState)
    requires k.running && k.irq == 0
    ensures IrqIn(k).irq == 1 && IrqIn(k).running && IrqIn(k).current == k.current
  {}

  lemma IrqOutLast(k: KernelState)
    requires k.running && k.irq == 1 && Ready in k.s
    ensures IrqOut(k).irq == 0 && IrqOut(k).current == Top(k.s[Ready])
  {}

  // The bracket restores the counter exactly below its greatest value; there the entry is not
  // counted but the exit is, and the outer handlers end one too early
  lemma BracketExact(k: KernelState)
    requires k.running && Ready in k.s && k.irq <= 0xFFFF
    ensures IrqOut(IrqIn(k)).irq == k.irq <==> k.irq < 0xFFFF
  {}
}
