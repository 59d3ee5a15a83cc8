// What can make a task ready that waits or is suspended, and what can stop a ready one: exactly which
// calls.
module Endings {
  import opened PrioLists
  import opened TaskModel
  import opened KernelModel
  import opened TickModel
  import opened KernelRuns
  import opened ObjectTheorems
  import opened WaitTheorems

  // p is the greatest task waiting in list id
  ghost predicate Heads(k: KernelState, id: ListId, p: nat)
  {
    id in k.s && p in k.s[id] && Top(k.s[id]) == p
  }

  // Call c releases p from the list it waits in
  ghost predicate Releases(k: KernelState, c: Call, p: nat)
    requires Inv(k) && Allowed(k, c)
  {
    if c.GiveSem? || c.Insert? || c.Remove? then Answer(k, c).status == StatusOk && Heads(k, ReleaseList(c), p)
    else c.Flush? && c.queue in k.queues && (Heads(k, SlotWait(c.queue), p) || Heads(k, InsertWait(c.queue), p))
  }

  // Call c releases p, or resumes it when it is suspended
  ghost predicate Wakes(k: KernelState, c: Call, p: nat)
    requires Inv(k) && Allowed(k, c)
  {
    Releases(k, c, p) || (c == ResumeTask(p) && p in k.tcb && k.tcb[p].status == SUSPEND)
  }

  // The kernel runs and p is installed but not ready
  ghost predicate Dormant(k: KernelState, p: nat)
  {
    k.running && p in k.tcb && k.tcb[p].status != 0
  }

  // p keeps its control block and its entry in the timer list, if it has one
  ghost predicate Stays(k: KernelState, g: KernelState, p: nat)
  {
    && g.running == k.running && g.active == k.active && Timer(k.active) in k.s && Timer(k.active) in g.s
    && p in k.tcb && p in g.tcb && g.tcb[p] == k.tcb[p]
    && (p in g.s[Timer(k.active)] <==> p in k.s[Timer(k.active)])
  }

  ghost predicate IsReady(k: KernelState, p: nat)
  {
    p in k.tcb && k.tcb[p].status == 0
  }

  // ---- one call ------------------------------------------------------------------------------

  lemma DormantNotCaller(k: KernelState, p: nat)
    requires Inv(k) && Dormant(k, p) && MayBlock(k)
    ensures p != k.current
  {
    hide Inv;
    CurrentReady(k);
  }

  lemma CreateStays(k: KernelState, q: nat, delay: nat, p: nat)
    requires Ready in k.s && Timer(k.active) in k.s && p in k.tcb && q !in k.tcb
    ensures Stays(k, Create(k, q, delay), p)
  {}

  lemma SuspendStays(k: KernelState, q: nat, p: nat)
    requires Ready in k.s && Timer(k.active) in k.s && Dormant(k, p)
    ensures Stays(k, Suspend(k, q).0, p)
  {}

  lemma DelayStays(k: KernelState, ticks: nat, p: nat)
    requires Formed(k) && p in k.tcb && (ticks != 0 ==> k.current in k.tcb && p != k.current)
    ensures Stays(k, Delay(k, ticks), p)
  {
    hide DelayTcb;
  }

  lemma ResumeStays(k: KernelState, q: nat, p: nat)
    requires Ready in k.s && Timer(k.active) in k.s && p in k.tcb && (q == p ==> ResumeTcb(k.tcb[p]) == k.tcb[p])
    ensures Stays(k, Resume(k, q).0, p)
  {
    hide ResumeTcb;
  }

  lemma ResumeReadies(k: KernelState, p: nat)
    requires Ready in k.s && p in k.tcb && ResumeTcb(k.tcb[p]).status == 0
    ensures IsReady(Resume(k, p).0, p)
  {
    hide ResumeTcb;
  }

  lemma TaskCallEnds(k: KernelState, c: Call, p: nat)
    requires Inv(k) && Allowed(k, c) && Dormant(k, p)
    requires c.CreateTask? || c.SuspendTask? || c.ResumeTask? || c.DelayTask?
    ensures if Wakes(k, c, p) then IsReady(Step(k, c), p) else Stays(k, Step(k, c), p)
  {
    hide Inv, Formed, Create, Suspend, Resume, Delay, ResumeTcb, Stays, IsReady, KnownStatus, Dormant;
    InvFormed(k);
    FormedLists(k);
    assert p in k.tcb && k.tcb[p].status != 0 by { DormantParts(k, p); }
    match c
    case CreateTask(q, delay) => CreateStays(k, q, delay, p);
    case SuspendTask(q) => SuspendStays(k, q, p);
    case ResumeTask(q) =>
      KnownTask(k, p);
      ResumeMarks(k.tcb[p]);
      if q == p && k.tcb[p].status == SUSPEND { ResumeReadies(k, p); } else { ResumeStays(k, q, p); }
    case DelayTask(ticks) =>
      if ticks != 0 { DormantNotCaller(k, p); }
      DelayStays(k, ticks, p);
  }

  lemma DormantParts(k: KernelState, p: nat)
    requires Dormant(k, p)
    ensures p in k.tcb && k.tcb[p].status != 0
  {}

  lemma SleepStays(k: KernelState, g: KernelState, id: ListId, ticks: nat, p: nat)
    requires WentToSleep(k, g, id, ticks) && p in k.tcb && p != k.current
    ensures Stays(k, g, p)
  {}

  // A release makes the greatest waiter ready and leaves the other tasks alone
  lemma ReleasedEnds(k: KernelState, g: KernelState, id: ListId, p: nat)
    requires Released(k, g, id) && Timer(k.active) in k.s && p in k.tcb
    ensures if Heads(k, id, p) then IsReady(g, p) else Stays(k, g, p)
    ensures forall a :: a in k.s && a != id && a != Ready ==> a in g.s && g.s[a] == k.s[a]
    ensures IsReady(k, p) ==> IsReady(g, p)
  {
    hide Top;
  }

  lemma BlockingEnds(k: KernelState, c: Call, p: nat)
    requires Inv(k) && Allowed(k, c) && Dormant(k, p) && Blocks(k, c)
    ensures !Wakes(k, c, p) && Stays(k, Step(k, c), p)
  {
    hide Inv, Step, WentToSleep, Stays, Dormant, Answer;
    DormantParts(k, p);
    CallersSleep(k, c);
    BlockersMayBlock(k, c);
    DormantNotCaller(k, p);
    SleepStays(k, Step(k, c), WaitList(c), c.timeout, p);
  }

  lemma BlockersMayBlock(k: KernelState, c: Call)
    requires Allowed(k, c) && Blocks(k, c)
    ensures MayBlock(k)
  {}

  lemma ReleasingEnds(k: KernelState, c: Call, p: nat)
    requires Inv(k) && Allowed(k, c) && Dormant(k, p) && !Blocks(k, c) && (c.GiveSem? || c.Insert? || c.Remove?)
    ensures if Wakes(k, c, p) then IsReady(Step(k, c), p) else Stays(k, Step(k, c), p)
  {
    hide Inv, Step, Released, Stays, Dormant, Answer, Heads, IsReady, Blocks, Allowed;
    DormantParts(k, p);
    InvFormed(k);
    FormedLists(k);
    if Answer(k, c).status == StatusOk {
      SuccessReleases(k, c);
      ReleasedEnds(k, Step(k, c), ReleaseList(c), p);
    } else {
      RefusedKeeps(k, c);
      StaysSame(k, p);
    }
  }

  lemma StaysSame(k: KernelState, p: nat)
    requires Timer(k.active) in k.s && p in k.tcb
    ensures Stays(k, k, p)
  {}

  lemma FormedQueue(k: KernelState, q: nat)
    requires Formed(k) && q in k.queues
    ensures SlotWait(q) in k.s && InsertWait(q) in k.s
  {}

  lemma FlushEnds(k: KernelState, q: nat, p: nat)
    requires Inv(k) && Dormant(k, p)
    ensures Formed(k) && var g := QueueFlush(k, q).0;
            if q in k.queues && (Heads(k, SlotWait(q), p) || Heads(k, InsertWait(q), p)) then IsReady(g, p)
            else Stays(k, g, p)
  {
    hide Inv, QueueFlush, Released, Top, Formed;
    DormantParts(k, p);
    InvFormed(k);
    FormedLists(k);
    if q in k.queues {
      FlushReleases(k, q);
      var h :| Released(k, h, SlotWait(q)) && Released(h, QueueFlush(k, q).0, InsertWait(q));
      ReleasedEnds(k, h, SlotWait(q), p);
      ReleasedKeys(k, h, SlotWait(q), p);
      FormedQueue(k, q);
      assert Heads(h, InsertWait(q), p) <==> Heads(k, InsertWait(q), p);
      ReleasedEnds(h, QueueFlush(k, q).0, InsertWait(q), p);
    } else {
      FlushNothing(k, q);
    }
  }

  lemma ReleasedKeys(k: KernelState, h: KernelState, id: ListId, p: nat)
    requires Released(k, h, id) && Timer(k.active) in k.s && p in k.tcb
    ensures h.active == k.active && Timer(h.active) in h.s && p in h.tcb
  {}

  lemma FlushStep(k: KernelState, q: nat)
    requires Inv(k)
    ensures Allowed(k, Flush(q)) && Formed(k) && Step(k, Flush(q)) == QueueFlush(k, q).0
  {
    hide Inv, QueueFlush, Formed;
    InvFormed(k);
  }

  lemma OtherEnds(k: KernelState, c: Call, p: nat)
    requires Inv(k) && Allowed(k, c) && Dormant(k, p) && !Blocks(k, c)
    requires c.StartKernel? || c.EnterIrq? || c.LeaveIrq? || c.NewSem? || c.NewQueue? || c.TakeSem? || c.RetakeSem?
    ensures !Wakes(k, c, p) && Stays(k, Step(k, c), p)
  {
    hide Inv, Formed, Block, Top;
    InvFormed(k);
    FormedLists(k);
  }

  // No call but the tick touches a task that is not ready, unless it releases or resumes it
  lemma StepEnds(k: KernelState, c: Call, p: nat)
    requires Inv(k) && Allowed(k, c) && Dormant(k, p) && c != TimerTick
    ensures if Wakes(k, c, p) then IsReady(Step(k, c), p) else Stays(k, Step(k, c), p)
  {
    hide Inv, Step, Allowed, Answer, Dormant, Stays, IsReady, Heads, QueueFlush;
    if Blocks(k, c) {
      BlockingEnds(k, c, p);
    } else {
      match c
      case CreateTask(_, _) => TaskCallEnds(k, c, p);
      case SuspendTask(_) => TaskCallEnds(k, c, p);
      case ResumeTask(_) => TaskCallEnds(k, c, p);
      case DelayTask(_) => TaskCallEnds(k, c, p);
      case GiveSem(_, _) => ReleasingEnds(k, c, p);
      case Insert(_, _, _, _) => ReleasingEnds(k, c, p);
      case Remove(_, _, _) => ReleasingEnds(k, c, p);
      case Flush(q) => FlushEnds(k, q, p); FlushStep(k, q);
      case _ => OtherEnds(k, c, p);
    }
  }

  // The tick makes it ready exactly when its entry ends; otherwise its status stays, and an entry it
  // is not marked for is gone
  lemma TickEnds(k: KernelState, p: nat)
    requires Inv(k) && Dormant(k, p) && Allowed(k, TimerTick) && Timer(k.active) in k.s
    ensures var g := Step(k, TimerTick);
            && g.running && p in g.tcb && Timer(g.active) in g.s
            && (if Ending(k, p) then g.tcb[p].status == 0 else g.tcb[p].status == k.tcb[p].status)
            && (!Ending(k, p) && k.tcb[p].status & PEND_DELAY == 0 ==> p !in g.s[Timer(g.active)])
  {
    hide Inv, Tick, TickLists, TickTasks, Formed;
    InvFormed(k);
    FormedLists(k);
    RemainingPositive(k);
    TickParts(k);
    BodyTasks(k);
    BodyTimer(k);
    EntryPositive(k, p);
  }

  lemma EntryPositive(k: KernelState, p: nat)
    requires Inv(k) && p in k.tcb && Timer(k.active) in k.s
    ensures p in k.s[Timer(k.active)] ==> k.tcb[p].delayTime > 0
  {
    assert TaskAgrees(k.s, k.tcb, k.active, p);
  }

  // Exactly which calls make a task ready that is not: a release from its own list, resuming it when
  // it is suspended, and the tick when it has an entry with one tick left
  lemma EndsExactly(k: KernelState, c: Call, p: nat)
    requires Inv(k) && Allowed(k, c) && Dormant(k, p)
    ensures Timer(k.active) in k.s
    ensures IsReady(Step(k, c), p) <==> if c == TimerTick then Ending(k, p) else Wakes(k, c, p)
  {
    hide Inv, Step, Allowed, Wakes;
    InvFormed(k);
    FormedLists(k);
    if c == TimerTick { TickEnds(k, p); } else { StepEnds(k, c, p); }
  }

  // ---- what makes a ready task stop ----------------------------------------------------------

  // Call c puts p to sleep or suspends it
  ghost predicate Stops(k: KernelState, c: Call, p: nat)
  {
    || (p == k.current && (Blocks(k, c) || (c.DelayTask? && c.ticks != 0)))
    || c == SuspendTask(p)
  }

  lemma TaskCallStops(k: KernelState, c: Call, p: nat)
    requires Inv(k) && Allowed(k, c) && IsReady(k, p)
    requires c.CreateTask? || c.SuspendTask? || c.ResumeTask? || c.DelayTask?
    ensures IsReady(Step(k, c), p) <==> !Stops(k, c, p)
  {
    hide Inv, Step, Answer, Blocks, Formed;
    NeverBlocks(k, c);
    Codes(k, c);
    if Answer(k, c).status != StatusOk {
      RefusedKeeps(k, c);
    } else {
      if c.CreateTask? { AllowedTask(k, c); }
      match c
      case CreateTask(q, delay) => CreateMoves(k, q, delay);
      case SuspendTask(q) => SuspendMoves(k, q);
      case ResumeTask(q) => ResumeMoves(k, q);
      case DelayTask(ticks) => if ticks != 0 { DelayMoves(k, ticks); } else { NoDelay(k); }
    }
  }

  lemma NeverBlocks(k: KernelState, c: Call)
    requires !c.TakeSem? && !c.Insert? && !c.Remove?
    ensures !Blocks(k, c)
  {}

  lemma AllowedTask(k: KernelState, c: Call)
    requires Allowed(k, c) && c.CreateTask?
    ensures c.prio !in k.tcb
  {}

  lemma NoDelay(k: KernelState)
    requires Inv(k) && Allowed(k, DelayTask(0))
    ensures Step(k, DelayTask(0)) == k
  {
    hide Inv, Formed;
  }

  lemma ReleasedStays(k: KernelState, g: KernelState, id: ListId, p: nat)
    requires Released(k, g, id) && IsReady(k, p)
    ensures IsReady(g, p)
  {
    hide Top;
  }

  lemma ObjectCallStops(k: KernelState, c: Call, p: nat)
    requires Inv(k) && Allowed(k, c) && IsReady(k, p) && !Blocks(k, c)
    requires c.GiveSem? || c.Insert? || c.Remove? || c.Flush?
    ensures IsReady(Step(k, c), p)
  {
    hide Inv, Step, Answer, Blocks, Released, IsReady, QueueFlush, Allowed;
    Codes(k, c);
    if Answer(k, c).status != StatusOk {
      RefusedKeeps(k, c);
    } else if c.Flush? {
      FlushStep(k, c.queue);
      FlushReleases(k, c.queue);
      var h :| Released(k, h, SlotWait(c.queue)) && Released(h, QueueFlush(k, c.queue).0, InsertWait(c.queue));
      ReleasedStays(k, h, SlotWait(c.queue), p);
      ReleasedStays(h, QueueFlush(k, c.queue).0, InsertWait(c.queue), p);
    } else {
      SuccessReleases(k, c);
      ReleasedStays(k, Step(k, c), ReleaseList(c), p);
    }
  }

  lemma BlockingStops(k: KernelState, c: Call, p: nat)
    requires Inv(k) && Allowed(k, c) && IsReady(k, p) && Blocks(k, c)
    ensures IsReady(Step(k, c), p) <==> p != k.current
  {
    hide Inv, Step, Answer, Allowed, Parked, TakeBlocks, InsertBlocks, RemoveBlocks;
    CallersSleep(k, c);
  }

  lemma TickKeepsReady(k: KernelState, p: nat)
    requires Inv(k) && Allowed(k, TimerTick) && IsReady(k, p)
    ensures IsReady(Step(k, TimerTick), p)
  {
    hide Inv, TickBody, Formed;
    InvFormed(k);
    if k.running { TickBlocks(k); }
  }

  lemma OtherStops(k: KernelState, c: Call, p: nat)
    requires Inv(k) && Allowed(k, c) && IsReady(k, p) && !Blocks(k, c)
    requires c.StartKernel? || c.EnterIrq? || c.LeaveIrq? || c.NewSem? || c.NewQueue? || c.TakeSem? || c.RetakeSem?
    ensures IsReady(Step(k, c), p)
  {
    hide Inv, Formed, Block, Top;
    InvFormed(k);
    FormedLists(k);
  }

  // Exactly which calls stop a ready task: its own call that has to wait, its own delay, and suspending
  // it by name
  lemma StopsExactly(k: KernelState, c: Call, p: nat)
    requires Inv(k) && Allowed(k, c) && IsReady(k, p)
    ensures IsReady(Step(k, c), p) <==> !Stops(k, c, p)
  {
    hide Inv, Step, Allowed, IsReady, TakeBlocks, InsertBlocks, RemoveBlocks;
    if Blocks(k, c) {
      BlockingStops(k, c, p);
    } else {
      match c
      case CreateTask(_, _) => TaskCallStops(k, c, p);
      case SuspendTask(_) => TaskCallStops(k, c, p);
      case ResumeTask(_) => TaskCallStops(k, c, p);
      case DelayTask(_) => TaskCallStops(k, c, p);
      case GiveSem(_, _) => ObjectCallStops(k, c, p);
      case Insert(_, _, _, _) => ObjectCallStops(k, c, p);
      case Remove(_, _, _) => ObjectCallStops(k, c, p);
      case Flush(_) => ObjectCallStops(k, c, p);
      case TimerTick => TickKeepsReady(k, p);
      case _ => OtherStops(k, c, p);
    }
  }
}
