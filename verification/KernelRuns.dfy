// Whole runs of the kernel: any sequence of calls, each taken as one step.
module KernelRuns {
  import opened KernelModel
  import opened TickModel

  datatype Call =
    | StartKernel
    | EnterIrq
    | LeaveIrq
    | TimerTick
    | CreateTask(prio: nat, delay: nat)
    | SuspendTask(prio: nat)
    | ResumeTask(prio: nat)
    | DelayTask(ticks: nat)
    | NewSem(sem: nat, count: nat, limit: nat)
    | TakeSem(sem: nat, timeout: nat)
    | RetakeSem(sem: nat)
    | GiveSem(sem: nat, count: nat)
    | NewQueue(queue: nat, slots: nat)
    | Insert(queue: nat, data: nat, opt: nat, timeout: nat)
    | Remove(queue: nat, opt: nat, timeout: nat)
    | Flush(queue: nat)

  // What a call demands: its parameters name things that exist, and a caller it would put to
  // sleep is a task (not an interrupt handler) other than the idle task
  ghost predicate Allowed(k: KernelState, c: Call)
  {
    match c
    case StartKernel => !k.running && 0 in k.tcb
    case CreateTask(p, _) => p < k.n && p !in k.tcb
    case SuspendTask(p) => p < k.n
    case ResumeTask(p) => p < k.n
    case DelayTask(ticks) => ticks != 0 ==> MayBlock(k)
    case NewSem(m, _, _) => m !in k.sems
    case TakeSem(m, _) => TakeBlocks(k, m) ==> MayBlock(k)
    case RetakeSem(m) => m in k.sems
    case NewQueue(q, _) => q !in k.queues
    case Insert(q, data, opt, _) => InsertBlocks(k, q, data, opt) ==> MayBlock(k)
    case Remove(q, opt, _) => RemoveBlocks(k, q, opt) ==> MayBlock(k)
    case _ => true
  }

  ghost function Step(k: KernelState, c: Call): KernelState
    requires Inv(k) && Allowed(k, c)
  {
    InvFormed(k);
    match c
    case StartKernel => Start(k)
    case EnterIrq => IrqIn(k)
    case LeaveIrq => IrqOut(k)
    case TimerTick => Tick(k)
    case CreateTask(p, delay) => Create(k, p, delay)
    case SuspendTask(p) => Suspend(k, p).0
    case ResumeTask(p) => Resume(k, p).0
    case DelayTask(ticks) => Delay(k, ticks)
    case NewSem(m, count, limit) => SemCreate(k, m, count, limit)
    case TakeSem(m, timeout) => SemTake(k, m, timeout).0
    case RetakeSem(m) => SemRetake(k, m).0
    case GiveSem(m, count) => SemGive(k, m, count).0
    case NewQueue(q, slots) => QueueCreate(k, q, slots)
    case Insert(q, data, opt, timeout) => QueueInsert(k, q, data, opt, timeout).0
    case Remove(q, opt, timeout) => QueueRemove(k, q, opt, timeout).0
    case Flush(q) => QueueFlush(k, q).0
  }

  // What the caller gets back
  datatype Reply = Reply(status: Status, ptr: nat)

  ghost function Answer(k: KernelState, c: Call): Reply
    requires Inv(k) && Allowed(k, c)
  {
    InvFormed(k);
    match c
    case SuspendTask(p) => Reply(Suspend(k, p).1, 0)
    case ResumeTask(p) => Reply(Resume(k, p).1, 0)
    case TakeSem(m, timeout) => Reply(SemTake(k, m, timeout).1, 0)
    case RetakeSem(m) => Reply(SemRetake(k, m).1, 0)
    case GiveSem(m, count) => Reply(SemGive(k, m, count).1, 0)
    case Insert(q, data, opt, timeout) => Reply(QueueInsert(k, q, data, opt, timeout).1, 0)
    case Remove(q, opt, timeout) => Reply(QueueRemove(k, q, opt, timeout).2, QueueRemove(k, q, opt, timeout).1)
    case Flush(q) => Reply(QueueFlush(k, q).1, 0)
    case _ => Reply(StatusOk, 0)
  }

  lemma StepInv(k: KernelState, c: Call)
    requires Inv(k) && Allowed(k, c)
    ensures Inv(Step(k, c))
  {
    hide Inv, Yield, Create, Suspend, Resume, Delay, Block, SemTake, SemRetake, SemGive, QueueInsert, QueueRemove,
         QueueFlush,
         SemCreate, QueueCreate, Start, IrqIn, IrqOut, Tick, WakeTop, SetCount, SetHeld;
    InvFormed(k);
    match c
    case StartKernel => StartInv(k);
    case EnterIrq => IrqInInv(k);
    case LeaveIrq => InvParts(k); IrqOutInv(k);
    case TimerTick => TickInv(k);
    case CreateTask(p, delay) => CreateInv(k, p, delay);
    case SuspendTask(p) => SuspendInv(k, p);
    case ResumeTask(p) => ResumeInv(k, p);
    case DelayTask(ticks) => DelayInv(k, ticks);
    case NewSem(m, count, limit) => SemCreateInv(k, m, count, limit);
    case TakeSem(m, timeout) => SemTakeInv(k, m, timeout);
    case RetakeSem(m) => SemRetakeInv(k, m);
    case GiveSem(m, count) => SemGiveInv(k, m, count);
    case NewQueue(q, slots) => QueueCreateInv(k, q, slots);
    case Insert(q, data, opt, timeout) => QueueInsertInv(k, q, data, opt, timeout);
    case Remove(q, opt, timeout) => QueueRemoveInv(k, q, opt, timeout);
    case Flush(q) => QueueFlushInv(k, q);
  }

  // Every call of the run is allowed when it is made
  ghost predicate Legal(k: KernelState, cs: seq<Call>)
    requires Inv(k)
    decreases |cs|
  {
    cs == [] || (Allowed(k, cs[0]) && (StepInv(k, cs[0]); Legal(Step(k, cs[0]), cs[1..])))
  }

  ghost function Run(k: KernelState, cs: seq<Call>): (g: KernelState)
    requires Inv(k) && Legal(k, cs)
    ensures Inv(g)
    decreases |cs|
  {
    if cs == [] then k else StepInv(k, cs[0]); Run(Step(k, cs[0]), cs[1..])
  }
}
