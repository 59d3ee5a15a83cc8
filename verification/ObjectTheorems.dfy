// Queues and semaphores over whole runs.
module ObjectTheorems {
  import opened PrioLists
  import opened TaskModel
  import opened KernelModel
  import opened TickModel
  import opened KernelRuns

  // ---- what a call does to the objects -----------------------------------------------------

  ghost predicate SameObjects(k: KernelState, g: KernelState)
  {
    g.queues == k.queues && g.sems == k.sems
  }

  lemma AnnounceObjects(k: KernelState, id: ListId)
    requires Formed(k) && id in k.s
    ensures SameObjects(k, WakeTop(k, id)) && Ready in WakeTop(k, id).s && SameObjects(k, Yield(WakeTop(k, id)))
  {
    hide Add, Del, WakeTcb;
  }

  lemma BlockObjects(k: KernelState, id: ListId, ticks: nat)
    requires Formed(k) && id in k.s && k.current in k.tcb
    ensures SameObjects(k, Block(k, id, ticks))
  {
    hide BlockLists, BlockTcb;
  }

  lemma IrqObjects(k: KernelState, c: Call)
    requires Inv(k) && Allowed(k, c) && (c.StartKernel? || c.EnterIrq? || c.LeaveIrq?)
    ensures SameObjects(k, Step(k, c))
  {
    hide Inv, Formed;
    InvFormed(k);
  }

  lemma TickObjects(k: KernelState)
    requires Ready in k.s && Timer(k.active) in k.s
    ensures SameObjects(k, Tick(k))
  {
    hide TickBody, IrqIn, IrqOut;
    IrqInKeeps(k);
    TickBodyKeeps(IrqIn(k));
    IrqOutKeeps(TickBody(IrqIn(k)));
  }

  lemma OtherObjects(k: KernelState, c: Call)
    requires Inv(k) && Allowed(k, c)
             && (c.TimerTick? || c.CreateTask? || c.SuspendTask? || c.ResumeTask? || c.DelayTask?)
    ensures SameObjects(k, Step(k, c))
  {
    hide Inv, Add, Del, ResumeLists, ResumeTcb, DelayTcb, Tick, Formed;
    InvFormed(k);
    FormedLists(k);
    TickObjects(k);
  }

  // The queues after call c
  ghost function QueuesAfter(k: KernelState, c: Call): map<nat, Queue>
  {
    match c
    case NewQueue(q, slots) => k.queues[q := Queue(slots, [])]
    case Insert(q, data, _, _) =>
      if Accepts(k, q, data) then k.queues[q := k.queues[q].(held := k.queues[q].held + [data])] else k.queues
    case Remove(q, _, _) =>
      if Delivers(k, q) then k.queues[q := k.queues[q].(held := k.queues[q].held[1..])] else k.queues
    case Flush(q) => if q in k.queues then k.queues[q := k.queues[q].(held := [])] else k.queues
    case _ => k.queues
  }

  ghost predicate Accepts(k: KernelState, q: nat, data: nat)
  {
    data != 0 && q in k.queues && |k.queues[q].held| < k.queues[q].slots
  }

  ghost predicate Delivers(k: KernelState, q: nat)
  {
    q in k.queues && |k.queues[q].held| > 0
  }

  // The semaphores after call c
  ghost function SemsAfter(k: KernelState, c: Call): map<nat, Sem>
  {
    match c
    case NewSem(m, count, limit) => k.sems[m := Sem(count, limit)]
    case TakeSem(m, _) => if Grants(k, m) then k.sems[m := k.sems[m].(count := k.sems[m].count - 1)] else k.sems
    case RetakeSem(m) => if Grants(k, m) then k.sems[m := k.sems[m].(count := k.sems[m].count - 1)] else k.sems
    case GiveSem(m, count) => if m in k.sems then k.sems[m := k.sems[m].(count := Capped(k.sems[m], count))] else k.sems
    case _ => k.sems
  }

  ghost predicate Grants(k: KernelState, m: nat)
  {
    m in k.sems && k.sems[m].count > 0
  }

  lemma InsertObjects(k: KernelState, q: nat, data: nat, opt: nat, timeout: nat)
    requires Inv(k) && Allowed(k, Insert(q, data, opt, timeout))
    ensures Step(k, Insert(q, data, opt, timeout)).sems == k.sems
    ensures Step(k, Insert(q, data, opt, timeout)).queues == QueuesAfter(k, Insert(q, data, opt, timeout))
  {
    hide Inv, WakeTop, Yield, Block;
    InvFormed(k);
    if data != 0 && q in k.queues {
      if |k.queues[q].held| < k.queues[q].slots {
        AnnounceObjects(SetHeld(k, q, k.queues[q].held + [data]), InsertWait(q));
      } else if opt == BLOCK_FULL {
        BlockObjects(k, SlotWait(q), timeout);
      }
    }
  }

  lemma RemoveObjects(k: KernelState, q: nat, opt: nat, timeout: nat)
    requires Inv(k) && Allowed(k, Remove(q, opt, timeout))
    ensures Step(k, Remove(q, opt, timeout)).sems == k.sems
    ensures Step(k, Remove(q, opt, timeout)).queues == QueuesAfter(k, Remove(q, opt, timeout))
  {
    hide Inv, WakeTop, Yield, Block;
    InvFormed(k);
    if q in k.queues {
      if |k.queues[q].held| > 0 {
        AnnounceObjects(SetHeld(k, q, k.queues[q].held[1..]), SlotWait(q));
      } else if opt == BLOCK_EMPTY {
        BlockObjects(k, InsertWait(q), timeout);
      }
    }
  }

  lemma FlushObjects(k: KernelState, q: nat)
    requires Inv(k)
    ensures Allowed(k, Flush(q)) && Step(k, Flush(q)).sems == k.sems
            && Step(k, Flush(q)).queues == QueuesAfter(k, Flush(q))
  {
    hide Inv, WakeTop, Yield;
    InvFormed(k);
    if q in k.queues {
      var g := SetHeld(k, q, []);
      AnnounceObjects(g, SlotWait(q));
      AnnounceObjects(WakeTop(g, SlotWait(q)), InsertWait(q));
    }
  }

  lemma TakeObjects(k: KernelState, m: nat, timeout: nat)
    requires Inv(k) && Allowed(k, TakeSem(m, timeout))
    ensures Step(k, TakeSem(m, timeout)).sems == SemsAfter(k, TakeSem(m, timeout))
    ensures Step(k, TakeSem(m, timeout)).queues == k.queues
  {
    hide Inv, Block;
    InvFormed(k);
    if TakeBlocks(k, m) { BlockObjects(k, SemWait(m), timeout); }
  }

  lemma GiveObjects(k: KernelState, m: nat, count: nat)
    requires Inv(k)
    ensures Allowed(k, GiveSem(m, count))
    ensures Step(k, GiveSem(m, count)).sems == SemsAfter(k, GiveSem(m, count))
    ensures Step(k, GiveSem(m, count)).queues == k.queues
  {
    hide Inv, WakeTop, Yield;
    InvFormed(k);
    if m in k.sems { AnnounceObjects(SetCount(k, m, Capped(k.sems[m], count)), SemWait(m)); }
  }

  lemma NewObjects(k: KernelState, c: Call)
    requires Inv(k) && Allowed(k, c) && (c.NewSem? || c.RetakeSem? || c.NewQueue?)
    ensures Step(k, c).sems == SemsAfter(k, c) && Step(k, c).queues == QueuesAfter(k, c)
  {
    hide Inv, Formed;
    InvFormed(k);
  }

  lemma StepObjects(k: KernelState, c: Call)
    requires Inv(k) && Allowed(k, c)
    ensures Step(k, c).queues == QueuesAfter(k, c) && Step(k, c).sems == SemsAfter(k, c)
  {
    hide Inv, Step, Allowed;
    match c
    case Insert(q, data, opt, timeout) => InsertObjects(k, q, data, opt, timeout);
    case Remove(q, opt, timeout) => RemoveObjects(k, q, opt, timeout);
    case Flush(q) => FlushObjects(k, q);
    case NewSem(_, _, _) => NewObjects(k, c);
    case TakeSem(m, timeout) => TakeObjects(k, m, timeout);
    case RetakeSem(_) => NewObjects(k, c);
    case GiveSem(m, count) => GiveObjects(k, m, count);
    case NewQueue(_, _) => NewObjects(k, c);
    case StartKernel => IrqObjects(k, c);
    case EnterIrq => IrqObjects(k, c);
    case LeaveIrq => IrqObjects(k, c);
    case _ => OtherObjects(k, c);
  }

  // The code every call returns
  lemma Codes(k: KernelState, c: Call)
    requires Inv(k) && Allowed(k, c)
    ensures Answer(k, c).status ==
            match c
            case SuspendTask(p) =>
              if p !in k.tcb then InvalidParam else if k.tcb[p].status == 0 then StatusOk else CantSuspend
            case ResumeTask(p) => if p in k.tcb then StatusOk else InvalidParam
            case TakeSem(m, _) =>
              if m !in k.sems then InvalidParam else if k.sems[m].count > 0 then StatusOk else Waiting
            case RetakeSem(m) => if k.sems[m].count > 0 then StatusOk else Timeout
            case GiveSem(m, _) => if m in k.sems then StatusOk else InvalidParam
            case Insert(q, data, _, _) =>
              if data == 0 || q !in k.queues then InvalidParam
              else if |k.queues[q].held| == k.queues[q].slots then QueueFull
              else StatusOk
            case Remove(q, _, _) =>
              if q !in k.queues then InvalidParam else if k.queues[q].held == [] then QueueEmpty else StatusOk
            case Flush(q) => if q in k.queues then StatusOk else InvalidParam
            case _ => StatusOk
  {
    hide Inv, Formed, Yield, WakeTop, Block, SetHeld, SetCount;
    InvFormed(k);
    FormedLists(k);
    QueueBounds(k);
    match c
    case SuspendTask(p) => SuspendCode(k, p);
    case ResumeTask(p) => ResumeCode(k, p);
    case _ =>
  }

  lemma QueueBounds(k: KernelState)
    requires Inv(k)
    ensures forall q :: q in k.queues ==> |k.queues[q].held| <= k.queues[q].slots
  {
    InvParts(k);
    SoundParts(k);
  }

  lemma SuspendCode(k: KernelState, p: nat)
    requires Inv(k) && Ready in k.s
    ensures Suspend(k, p).1 ==
            if p !in k.tcb then InvalidParam else if k.tcb[p].status == 0 then StatusOk else CantSuspend
  {
    hide Inv, Yield;
  }

  lemma ResumeCode(k: KernelState, p: nat)
    requires Inv(k) && Ready in k.s
    ensures Resume(k, p).1 == if p in k.tcb then StatusOk else InvalidParam
  {
    hide Inv, Yield, ResumeTcb, ResumeLists;
  }

  // When the replies report success
  lemma Replies(k: KernelState, c: Call)
    requires Inv(k) && Allowed(k, c)
    ensures c.Insert? ==> (Answer(k, c).status == StatusOk <==> Accepts(k, c.queue, c.data))
    ensures c.Remove? ==> (Answer(k, c).status == StatusOk <==> Delivers(k, c.queue))
    ensures c.Remove? && Delivers(k, c.queue) ==> Answer(k, c).ptr == k.queues[c.queue].held[0]
    ensures c.Remove? && !Delivers(k, c.queue) ==> Answer(k, c).ptr == 0
    ensures c.Flush? ==> (Answer(k, c).status == StatusOk <==> c.queue in k.queues)
    ensures c.TakeSem? || c.RetakeSem? ==> (Answer(k, c).status == StatusOk <==> Grants(k, c.sem))
    ensures c.GiveSem? ==> (Answer(k, c).status == StatusOk <==> c.sem in k.sems)
  {
    hide Inv, Formed, Yield, WakeTop, Block, SetHeld, SetCount, Suspend, Resume;
    InvFormed(k);
  }

  // ---- queues are bounded FIFOs ------------------------------------------------------------

  ghost function Held(k: KernelState, q: nat): seq<nat>
  {
    if q in k.queues then k.queues[q].held else []
  }

  // What queue q accepted, and what it delivered, since its creation or last flush, as its callers
  // see it: data whose insertion reported success, pointers returned by successful removals
  datatype Log = Log(sent: seq<nat>, got: seq<nat>)

  ghost function LogCall(k: KernelState, c: Call, q: nat, log: Log): Log
    requires Inv(k) && Allowed(k, c)
  {
    var ok := Answer(k, c).status == StatusOk;
    if c.Insert? && c.queue == q && ok then log.(sent := log.sent + [c.data])
    else if c.Remove? && c.queue == q && ok then log.(got := log.got + [Answer(k, c).ptr])
    else if (c.Flush? || c.NewQueue?) && c.queue == q && ok then Log([], [])
    else log
  }

  ghost function LogRun(k: KernelState, cs: seq<Call>, q: nat, log: Log): Log
    requires Inv(k) && Legal(k, cs)
    decreases |cs|
  {
    if cs == [] then log
    else
      StepInv(k, cs[0]);
      LogRun(Step(k, cs[0]), cs[1..], q, LogCall(k, cs[0], q, log))
  }

  // What the log says of the state: delivered, then still held; no NULL was accepted
  ghost predicate Logged(k: KernelState, q: nat, log: Log)
  {
    && log.sent == log.got + Held(k, q)
    && (forall x :: x in log.sent ==> x != 0)
    && (q in k.queues ==> |Held(k, q)| <= k.queues[q].slots)
  }

  lemma HeldAfter(k: KernelState, c: Call, q: nat)
    requires Inv(k) && Allowed(k, c)
    ensures var h := Held(Step(k, c), q);
            if c.Insert? && c.queue == q && Accepts(k, q, c.data) then h == Held(k, q) + [c.data]
            else if c.Remove? && c.queue == q && Delivers(k, q) then Held(k, q) == [k.queues[q].held[0]] + h
            else if (c.Flush? || c.NewQueue?) && c.queue == q then h == []
            else h == Held(k, q)
    ensures q in Step(k, c).queues <==> q in k.queues || (c.NewQueue? && c.queue == q)
    ensures q in Step(k, c).queues && !(c.NewQueue? && c.queue == q) ==> Step(k, c).queues[q].slots == k.queues[q].slots
  {
    hide Inv, Step, SemsAfter;
    StepObjects(k, c);
  }

  lemma StepLogged(k: KernelState, c: Call, q: nat, log: Log)
    requires Inv(k) && Allowed(k, c) && Logged(k, q, log)
    ensures Logged(Step(k, c), q, LogCall(k, c, q, log))
  {
    hide Inv, Step, Allowed, Held, Answer, Accepts, Delivers;
    HeldAfter(k, c, q);
    Replies(k, c);
    if c.NewQueue? { CreationReplies(k, c); }
    if c.Insert? && c.queue == q && Accepts(k, q, c.data) {
      AcceptsIs(k, q, c.data);
    } else if c.Remove? && c.queue == q && Delivers(k, q) {
      DeliversIs(k, q);
      Delivered(log, k.queues[q].held[0], Held(k, q), Held(Step(k, c), q));
    } else if c.Flush? && c.queue == q {
      HeldIs(k, q);
    }
  }

  lemma CreationReplies(k: KernelState, c: Call)
    requires Inv(k) && Allowed(k, c) && c.NewQueue?
    ensures Answer(k, c).status == StatusOk
  {}

  lemma AcceptsIs(k: KernelState, q: nat, data: nat)
    requires Accepts(k, q, data)
    ensures data != 0 && q in k.queues && |Held(k, q)| < k.queues[q].slots
  {}

  lemma DeliversIs(k: KernelState, q: nat)
    requires Delivers(k, q)
    ensures q in k.queues && |k.queues[q].held| > 0
  {}

  lemma HeldIs(k: KernelState, q: nat)
    ensures Held(k, q) == if q in k.queues then k.queues[q].held else []
  {}

  lemma Delivered(log: Log, x: nat, before: seq<nat>, after: seq<nat>)
    requires log.sent == log.got + before && before == [x] + after
    ensures log.sent == (log.got + [x]) + after
  {}

  lemma {:induction false} RunLogged(k: KernelState, cs: seq<Call>, q: nat, log: Log)
    requires Inv(k) && Legal(k, cs) && Logged(k, q, log)
    ensures Logged(Run(k, cs), q, LogRun(k, cs, q, log))
    decreases |cs|
  {
    hide Inv, Step, Allowed, Logged, LogCall;
    if cs != [] {
      StepInv(k, cs[0]);
      StepLogged(k, cs[0], q, log);
      RunLogged(Step(k, cs[0]), cs[1..], q, LogCall(k, cs[0], q, log));
    }
  }

  // Messages come out in the order they were accepted, none lost, none twice, never more than fit
  lemma Fifo(n: nat, cs: seq<Call>, q: nat)
    requires 1 <= n <= MAX_TASKS && Inv(Init(n)) && Legal(Init(n), cs)
    ensures var log := LogRun(Init(n), cs, q, Log([], []));
            && log.sent == log.got + Held(Run(Init(n), cs), q)
            && log.got <= log.sent && 0 !in log.sent
            && (q in Run(Init(n), cs).queues ==> |Held(Run(Init(n), cs), q)| <= Run(Init(n), cs).queues[q].slots)
  {
    hide Inv, Legal, Run, LogRun;
    RunLogged(Init(n), cs, q, Log([], []));
  }

  // Remove yields a message exactly when it reports success
  lemma RemoveNonNull(n: nat, cs: seq<Call>, q: nat, opt: nat, timeout: nat)
    requires 1 <= n <= MAX_TASKS && Inv(Init(n)) && Legal(Init(n), cs)
    requires Allowed(Run(Init(n), cs), Remove(q, opt, timeout))
    ensures var reply := Answer(Run(Init(n), cs), Remove(q, opt, timeout));
            reply.ptr != 0 <==> reply.status == StatusOk
  {
    hide Inv, Legal, Run, LogRun, Init, Answer, Allowed;
    Fifo(n, cs, q);
    var k := Run(Init(n), cs);
    var log := LogRun(Init(n), cs, q, Log([], []));
    Replies(k, Remove(q, opt, timeout));
    if Delivers(k, q) {
      assert log.sent[|log.got|] == Held(k, q)[0];
    }
  }

  // A queue keeps the capacity it was created with
  lemma {:induction false} SlotsKept(k: KernelState, cs: seq<Call>, q: nat)
    requires Inv(k) && Legal(k, cs) && q in k.queues
    ensures q in Run(k, cs).queues && Run(k, cs).queues[q].slots == k.queues[q].slots
    decreases |cs|
  {
    hide Inv, Step, Allowed, Held, Accepts, Delivers;
    if cs != [] {
      StepInv(k, cs[0]);
      HeldAfter(k, cs[0], q);
      if cs[0].NewQueue? { NewQueueNew(k, cs[0]); }
      SlotsKept(Step(k, cs[0]), cs[1..], q);
    }
  }

  lemma NewQueueNew(k: KernelState, c: Call)
    requires Allowed(k, c) && c.NewQueue?
    ensures c.queue !in k.queues
  {}

  // A queue created for a number of messages takes another one, in every state after that, exactly
  // while fewer than that have been accepted and not yet delivered
  lemma Capacity(k: KernelState, q: nat, slots: nat, cs: seq<Call>, data: nat, opt: nat, timeout: nat)
    requires Inv(k) && q !in k.queues && Inv(QueueCreate(k, q, slots)) && Legal(QueueCreate(k, q, slots), cs)
    requires Allowed(Run(QueueCreate(k, q, slots), cs), Insert(q, data, opt, timeout)) && data != 0
    ensures var k0 := QueueCreate(k, q, slots);
            var log := LogRun(k0, cs, q, Log([], []));
            Answer(Run(k0, cs), Insert(q, data, opt, timeout)).status == StatusOk <==> |log.sent| - |log.got| < slots
  {
    hide Inv, Legal, Run, LogRun, Answer, Allowed;
    var k0 := QueueCreate(k, q, slots);
    var g := Run(k0, cs);
    RunLogged(k0, cs, q, Log([], []));
    SlotsKept(k0, cs, q);
    Replies(g, Insert(q, data, opt, timeout));
  }

  // ---- semaphores conserve units -----------------------------------------------------------

  // What call c puts into semaphore m, its count at creation included, and the units it hands out:
  // one for each take that reports success
  ghost function Put(k: KernelState, c: Call, m: nat): int
  {
    if c.NewSem? && c.sem == m then c.count
    else if c.GiveSem? && c.sem == m && m in k.sems then Capped(k.sems[m], c.count) - k.sems[m].count
    else 0
  }

  ghost function Taken(k: KernelState, c: Call, m: nat): nat
    requires Inv(k) && Allowed(k, c)
  {
    if (c.TakeSem? || c.RetakeSem?) && c.sem == m && Answer(k, c).status == StatusOk then 1 else 0
  }

  ghost function Balance(k: KernelState, cs: seq<Call>, m: nat): int
    requires Inv(k) && Legal(k, cs)
    decreases |cs|
  {
    if cs == [] then 0
    else
      StepInv(k, cs[0]);
      Put(k, cs[0], m) - Taken(k, cs[0], m) + Balance(Step(k, cs[0]), cs[1..], m)
  }

  ghost function Count(k: KernelState, m: nat): nat
  {
    if m in k.sems then k.sems[m].count else 0
  }

  lemma StepBalance(k: KernelState, c: Call, m: nat)
    requires Inv(k) && Allowed(k, c)
    ensures Count(Step(k, c), m) == Count(k, m) + Put(k, c, m) - Taken(k, c, m)
  {
    hide Inv, Step, Answer;
    StepObjects(k, c);
    Replies(k, c);
  }

  // The count is what was put in less what was handed out
  lemma {:induction false} UnitsConserved(k: KernelState, cs: seq<Call>, m: nat)
    requires Inv(k) && Legal(k, cs)
    ensures Count(Run(k, cs), m) == Count(k, m) + Balance(k, cs, m)
    decreases |cs|
  {
    hide Inv, Step, Allowed, Put, Taken, Count;
    if cs != [] {
      StepInv(k, cs[0]);
      StepBalance(k, cs[0], m);
      UnitsConserved(Step(k, cs[0]), cs[1..], m);
    }
  }

  // A give adds its units, as many as fit
  lemma GiveAdds(k: KernelState, m: nat, units: nat)
    requires Inv(k) && Allowed(k, GiveSem(m, units)) && m in k.sems
    ensures var g := Step(k, GiveSem(m, units));
            && m in g.sems && g.sems[m].limit == k.sems[m].limit
            && (k.sems[m].count + units <= k.sems[m].limit ==> g.sems[m].count == k.sems[m].count + units)
            && (k.sems[m].count + units >= k.sems[m].limit ==> g.sems[m].count == k.sems[m].limit)
  {
    hide Inv, Step, Allowed;
    StepObjects(k, GiveSem(m, units));
  }

  // Every semaphore is created with no more units than its limit
  ghost predicate Modest(cs: seq<Call>)
  {
    forall c :: c in cs && c.NewSem? ==> c.count <= c.limit
  }

  ghost predicate WithinLimits(k: KernelState)
  {
    forall m :: m in k.sems ==> k.sems[m].count <= k.sems[m].limit
  }

  // Then no count ever passes its limit
  lemma {:induction false} CountWithinLimit(k: KernelState, cs: seq<Call>)
    requires Inv(k) && Legal(k, cs) && Modest(cs) && WithinLimits(k)
    ensures WithinLimits(Run(k, cs))
    decreases |cs|
  {
    hide Inv, Step, Allowed;
    if cs != [] {
      StepInv(k, cs[0]);
      StepObjects(k, cs[0]);
      assert forall c :: c in cs[1..] ==> c in cs;
      CountWithinLimit(Step(k, cs[0]), cs[1..]);
    }
  }
}
