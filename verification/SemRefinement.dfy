// The kernel's semaphore calls against the semaphore protocol: on one semaphore every call of a
// kernel run is a few steps of the protocol, so what holds of the protocol holds of the kernel.
module SemRefinement {
  import opened PrioLists
  import opened TaskModel
  import opened KernelModel
  import opened TickModel
  import opened KernelRuns
  import opened ObjectTheorems
  import opened WaitTheorems
  import SemProtocol

  // The tasks whose timer entry the next tick ends
  ghost function Due(k: KernelState): set<nat>
    requires Timer(k.active) in k.s
  {
    set p | p in k.s[Timer(k.active)] && p in k.tcb && k.tcb[p].delayTime == 1
  }

  // Semaphore m of kernel k as the protocol sees it. No take is in a gap, since calls are atomic; the
  // woken tasks, which the kernel does not record, are those of p
  ghost predicate Projects(k: KernelState, m: nat, p: SemProtocol.SemState)
  {
    && m in k.sems && SemWait(m) in k.s && Timer(k.active) in k.s
    && p.count == k.sems[m].count && p.limit == k.sems[m].limit && p.count <= p.limit
    && p.checked == {} && p.pointed == {} && p.listed == {} && p.list == p.asleep == k.s[SemWait(m)]
    && p.asleep <= p.back && p.due == Due(k)
  }

  // A take has two halves: the second is run by a task woken from the first, which meanwhile does
  // not begin another
  ghost predicate Orderly(k: KernelState, c: Call, m: nat, p: SemProtocol.SemState)
  {
    && (c.TakeSem? && c.sem == m && TakeBlocks(k, m) ==> k.current !in p.woken)
    && (c.RetakeSem? && c.sem == m ==> k.current in p.woken)
  }

  ghost function Expiries(ts: set<nat>): seq<SemProtocol.Call>
    decreases |ts|
  {
    if ts == {} then [] else [SemProtocol.Expire(Top(ts))] + Expiries(ts - {Top(ts)})
  }

  function TakeActs(t: nat, timeout: nat): seq<SemProtocol.Call>
  {
    [SemProtocol.Begin(t), SemProtocol.Point(t), SemProtocol.Enlist(t), SemProtocol.Sleep(t, timeout)]
  }

  // What call c does to semaphore m
  ghost function Acts(k: KernelState, c: Call, m: nat): seq<SemProtocol.Call>
    requires Timer(k.active) in k.s
  {
    if c.TakeSem? && c.sem == m then
      if TakeBlocks(k, m) then TakeActs(k.current, c.timeout) else [SemProtocol.Grab]
    else if c.RetakeSem? && c.sem == m then [SemProtocol.Recheck(k.current)]
    else if c.GiveSem? && c.sem == m then [SemProtocol.Give(c.count)]
    else if c.TimerTick? && k.running then Expiries(Due(k))
    else []
  }

  // What call c is to semaphore m: what it does, and what it leaves in the timer list
  ghost function Trace(k: KernelState, c: Call, m: nat): seq<SemProtocol.Call>
    requires Timer(k.active) in k.s && Inv(k) && Allowed(k, c) && Timer(Step(k, c).active) in Step(k, c).s
  {
    hide Inv, Step, Allowed;
    Acts(k, c, m) + [SemProtocol.Retime(Due(Step(k, c)))]
  }

  // ---- the wait list after a call ----------------------------------------------------------

  ghost function WaitersAfter(k: KernelState, c: Call, m: nat): set<nat>
    requires Timer(k.active) in k.s && SemWait(m) in k.s
  {
    var w := k.s[SemWait(m)];
    if c.TakeSem? && c.sem == m && TakeBlocks(k, m) then w + {k.current}
    else if c.GiveSem? && c.sem == m then if w == {} then w else w - {Top(w)}
    else if c.TimerTick? && k.running then w - Due(k)
    else w
  }

  lemma TickWaiters(k: KernelState, m: nat)
    requires Inv(k) && k.running && SemWait(m) in k.s
    ensures Formed(k) && SemWait(m) in Tick(k).s && Tick(k).s[SemWait(m)] == k.s[SemWait(m)] - Due(k)
  {
    hide Inv, Tick, TickTasks, Formed, Sound;
    InvFormed(k);
    FormedLists(k);
    TickParts(k);
    RemainingPositive(k);
    InvParts(k);
    SoundParts(k);
    var id := SemWait(m);
    forall p ensures p in TickBody(k).s[id] <==> p in k.s[id] && p !in Due(k) {
      assert TaskAgrees(k.s, k.tcb, k.active, p);
    }
  }

  ghost predicate SameWaiters(k: KernelState, g: KernelState, m: nat)
  {
    SemWait(m) in k.s && SemWait(m) in g.s && g.s[SemWait(m)] == k.s[SemWait(m)]
  }

  lemma SleepWaiters(k: KernelState, g: KernelState, id: ListId, ticks: nat, m: nat)
    requires WentToSleep(k, g, id, ticks) && SemWait(m) in k.s
    ensures SemWait(m) in g.s
    ensures g.s[SemWait(m)] == if id == SemWait(m) then k.s[id] + {k.current} else k.s[SemWait(m)]
  {}

  lemma ReleasedWaiters(k: KernelState, g: KernelState, id: ListId, m: nat)
    requires Released(k, g, id) && SemWait(m) in k.s
    ensures SemWait(m) in g.s
    ensures g.s[SemWait(m)] == if id == SemWait(m) && k.s[id] != {} then k.s[id] - {Top(k.s[id])} else k.s[SemWait(m)]
  {}

  lemma IrqWaiters(k: KernelState, c: Call, m: nat)
    requires Inv(k) && Allowed(k, c) && SemWait(m) in k.s
    requires c.StartKernel? || c.EnterIrq? || c.LeaveIrq? || (c.TimerTick? && !k.running)
    ensures SameWaiters(k, Step(k, c), m)
  {
    hide Inv, Formed, TickBody;
    InvFormed(k);
  }

  lemma TaskWaiters(k: KernelState, c: Call, m: nat)
    requires Inv(k) && Allowed(k, c) && SemWait(m) in k.s
    requires c.CreateTask? || c.SuspendTask? || c.ResumeTask? || c.DelayTask?
    ensures SameWaiters(k, Step(k, c), m)
  {
    hide Inv, Formed, ResumeTcb, DelayTcb;
    InvFormed(k);
    FormedLists(k);
  }

  lemma CreateWaiters(k: KernelState, c: Call, m: nat)
    requires Inv(k) && Allowed(k, c) && m in k.sems && SemWait(m) in k.s && (c.NewSem? || c.NewQueue? || c.RetakeSem?)
    ensures SameWaiters(k, Step(k, c), m)
  {
    hide Inv, Formed;
    InvFormed(k);
  }

  lemma FlushWaiters(k: KernelState, q: nat, m: nat)
    requires Inv(k) && SemWait(m) in k.s
    ensures Allowed(k, Flush(q)) && SameWaiters(k, Step(k, Flush(q)), m)
  {
    hide Inv, Formed, QueueFlush, Released;
    InvFormed(k);
    if q in k.queues {
      FlushReleases(k, q);
      var h :| Released(k, h, SlotWait(q)) && Released(h, QueueFlush(k, q).0, InsertWait(q));
      ReleasedWaiters(k, h, SlotWait(q), m);
      ReleasedWaiters(h, QueueFlush(k, q).0, InsertWait(q), m);
    } else {
      FlushNothing(k, q);
    }
  }

  lemma TakenKeeps(k: KernelState, c: Call, m: nat)
    requires Inv(k) && Allowed(k, c) && c.TakeSem? && !Blocks(k, c) && SemWait(m) in k.s
    ensures SameWaiters(k, Step(k, c), m)
  {
    hide Inv, Formed, Yield, WakeTop, Block;
    InvFormed(k);
  }

  lemma StepWaiters(k: KernelState, c: Call, m: nat)
    requires Inv(k) && Allowed(k, c) && m in k.sems && SemWait(m) in k.s && Timer(k.active) in k.s
    ensures SemWait(m) in Step(k, c).s && Step(k, c).s[SemWait(m)] == WaitersAfter(k, c, m)
  {
    hide Inv, Step, Allowed, Answer, WentToSleep, Released, Due, Tick;
    match c
    case StartKernel => IrqWaiters(k, c, m);
    case EnterIrq => IrqWaiters(k, c, m);
    case LeaveIrq => IrqWaiters(k, c, m);
    case TimerTick => if k.running { TickWaiters(k, m); TickStep(k); } else { IrqWaiters(k, c, m); }
    case CreateTask(_, _) => TaskWaiters(k, c, m);
    case SuspendTask(_) => TaskWaiters(k, c, m);
    case ResumeTask(_) => TaskWaiters(k, c, m);
    case DelayTask(_) => TaskWaiters(k, c, m);
    case NewSem(_, _, _) => CreateWaiters(k, c, m);
    case NewQueue(_, _) => CreateWaiters(k, c, m);
    case RetakeSem(_) => CreateWaiters(k, c, m);
    case Flush(q) => FlushWaiters(k, q, m);
    case _ => ObjectWaiters(k, c, m);
  }

  lemma TickStep(k: KernelState)
    requires Inv(k) && Allowed(k, TimerTick)
    ensures Formed(k) && Step(k, TimerTick) == Tick(k)
  {
    hide Inv, Tick;
    InvFormed(k);
  }

  lemma ObjectWaiters(k: KernelState, c: Call, m: nat)
    requires Inv(k) && Allowed(k, c) && m in k.sems && SemWait(m) in k.s && Timer(k.active) in k.s
    requires c.TakeSem? || c.GiveSem? || c.Insert? || c.Remove?
    ensures SemWait(m) in Step(k, c).s && Step(k, c).s[SemWait(m)] == WaitersAfter(k, c, m)
  {
    hide Inv, Step, Allowed, Answer, WentToSleep, Released, Due;
    Replies(k, c);
    if Blocks(k, c) {
      CallersSleep(k, c);
      SleepWaiters(k, Step(k, c), WaitList(c), c.timeout, m);
    } else if c.TakeSem? {
      TakenKeeps(k, c, m);
    } else if Answer(k, c).status == StatusOk {
      SuccessReleases(k, c);
      ReleasedWaiters(k, Step(k, c), ReleaseList(c), m);
    } else {
      RefusedKeeps(k, c);
    }
  }

  // ---- each call is a few steps ------------------------------------------------------------

  // The steps cs, none of them harmful, lead from p to q
  ghost predicate Leads(p: SemProtocol.SemState, cs: seq<SemProtocol.Call>, q: SemProtocol.SemState)
  {
    SemProtocol.Reaches(p, cs, q) && SemProtocol.Harmlessly(p, cs)
  }

  lemma LeadsOn(p: SemProtocol.SemState, cs: seq<SemProtocol.Call>, q: SemProtocol.SemState, c: SemProtocol.Call)
    requires Leads(p, cs, q) && q.count <= q.limit && SemProtocol.Allowed(q, c) && SemProtocol.Harmless(q, c)
    ensures Leads(p, cs + [c], SemProtocol.Step(q, c))
  {
    hide SemProtocol.Step, SemProtocol.Allowed, SemProtocol.Harmless, SemProtocol.Reaches, SemProtocol.Harmlessly;
    SemProtocol.Then(p, cs, q, c);
  }

  lemma OneStep(p: SemProtocol.SemState, c: SemProtocol.Call)
    requires p.count <= p.limit && SemProtocol.Allowed(p, c) && SemProtocol.Harmless(p, c)
    ensures Leads(p, [c], SemProtocol.Step(p, c))
  {
    hide SemProtocol.Step, SemProtocol.Allowed, SemProtocol.Harmless;
    SemProtocol.Stay(p);
    LeadsOn(p, [], p, c);
    assert [] + [c] == [c];
  }

  // Nobody is in a gap
  ghost predicate NoGaps(p: SemProtocol.SemState)
  {
    p.checked == {} && p.pointed == {} && p.listed == {}
  }

  // A take that finds no unit and is not interrupted
  lemma SleepSteps(p: SemProtocol.SemState, t: nat, timeout: nat)
    requires p.count == 0 && t != 0 && !SemProtocol.Inside(p, t) && NoGaps(p)
    ensures exists q :: Leads(p, TakeActs(t, timeout), q) && NoGaps(q) && q.count == 0 && q.limit == p.limit
                        && q.asleep == p.asleep + {t} && q.list == p.list + {t} && q.back == p.back + {t}
  {
    hide Leads;
    var p1 := SemProtocol.Enter(p, t);
    var p2 := SemProtocol.Aim(p1, t);
    var p3 := SemProtocol.Join(p2, t);
    var q := SemProtocol.Doze(p3, t, timeout);
    OneStep(p, SemProtocol.Begin(t));
    var cs := [SemProtocol.Begin(t)];
    LeadsOn(p, cs, p1, SemProtocol.Point(t));
    LeadsOn(p, cs + [SemProtocol.Point(t)], p2, SemProtocol.Enlist(t));
    LeadsOn(p, cs + [SemProtocol.Point(t)] + [SemProtocol.Enlist(t)], p3, SemProtocol.Sleep(t, timeout));
    assert cs + [SemProtocol.Point(t)] + [SemProtocol.Enlist(t)] + [SemProtocol.Sleep(t, timeout)]
        == TakeActs(t, timeout);
  }

  lemma {:induction false} ExpirySteps(p: SemProtocol.SemState, ts: set<nat>)
    requires p.count <= p.limit && ts <= p.due && NoGaps(p) && p.list == p.asleep && p.asleep <= p.back
    ensures exists q :: Leads(p, Expiries(ts), q) && NoGaps(q) && q.count == p.count && q.limit == p.limit
                        && q.list == q.asleep == p.asleep - ts && q.asleep <= q.back
    decreases |ts|
  {
    hide SemProtocol.HarmlessRun, SemProtocol.Legal, SemProtocol.Run;
    hide SemProtocol.Step, SemProtocol.Allowed, SemProtocol.Harmless;
    if ts == {} {
      SemProtocol.Stay(p);
      assert p.asleep - ts == p.asleep;
    } else {
      var t := Top(ts);
      var r := SemProtocol.Strike(p, t);
      assert r.list == r.asleep;
      ExpirySteps(r, ts - {t});
      var q :| Leads(r, Expiries(ts - {t}), q) && NoGaps(q) && q.count == p.count && q.limit == p.limit
               && q.list == q.asleep == r.asleep - (ts - {t}) && q.asleep <= q.back;
      assert r.asleep - (ts - {t}) == p.asleep - ts;
      LeadsFrom(p, SemProtocol.Expire(t), Expiries(ts - {t}), q);
    }
  }

  lemma LeadsFrom(p: SemProtocol.SemState, c: SemProtocol.Call, cs: seq<SemProtocol.Call>, q: SemProtocol.SemState)
    requires p.count <= p.limit && c.Expire? && c.task in p.due && NoGaps(p)
    requires Leads(SemProtocol.Strike(p, c.task), cs, q)
    ensures Leads(p, [c] + cs, q)
  {
    hide SemProtocol.Strike;
    SemProtocol.StepConserves(p, c);
    assert ([c] + cs)[0] == c && ([c] + cs)[1..] == cs;
    assert SemProtocol.Legal(p, [c] + cs);
  }

  // Giving in the protocol, when no take is in a gap
  lemma GiveStep(p: SemProtocol.SemState, units: nat)
    requires p.count <= p.limit && NoGaps(p) && p.list == p.asleep && 0 !in p.list && p.asleep <= p.back
    ensures SemProtocol.Harmless(p, SemProtocol.Give(units))
    ensures var q := SemProtocol.Step(p, SemProtocol.Give(units)); var i := Top(p.list);
            && q.count == SemProtocol.Capped(p.count, p.limit, units) && q.limit == p.limit
            && NoGaps(q) && q.list == q.asleep && q.asleep <= q.back
            && q.list == (if p.list == {} then p.list else p.list - {i})
  {}

  lemma SleeperOutside(k: KernelState, m: nat, p: SemProtocol.SemState)
    requires Inv(k) && MayBlock(k) && Projects(k, m, p) && k.current !in p.woken
    ensures !SemProtocol.Inside(p, k.current) && k.current != 0
  {
    hide Inv, Due;
    CurrentReady(k);
    Awake(k, k.current, SemWait(m));
  }

  // What the protocol's steps leave, in the kernel's terms, but for the timer
  ghost predicate Left(k: KernelState, c: Call, m: nat, p: SemProtocol.SemState, q: SemProtocol.SemState)
    requires Timer(k.active) in k.s && SemWait(m) in k.s
  {
    && NoGaps(q) && q.list == q.asleep == WaitersAfter(k, c, m) && q.asleep <= q.back
    && q.limit == p.limit && q.count <= q.limit
    && q.count == (if (c.TakeSem? || c.RetakeSem?) && c.sem == m && p.count > 0 then p.count - 1
                   else if c.GiveSem? && c.sem == m then SemProtocol.Capped(p.count, p.limit, c.count)
                   else p.count)
  }

  lemma TakeLeft(k: KernelState, c: Call, m: nat, p: SemProtocol.SemState)
    requires Inv(k) && Allowed(k, c) && Projects(k, m, p) && Orderly(k, c, m, p) && c.TakeSem? && c.sem == m
    ensures exists q :: Leads(p, Acts(k, c, m), q) && Left(k, c, m, p, q)
  {
    hide Inv, Due, Leads, TakeActs;
    if TakeBlocks(k, m) {
      SleeperOutside(k, m, p);
      SleepSteps(p, k.current, c.timeout);
      var q :| Leads(p, TakeActs(k.current, c.timeout), q) && NoGaps(q) && q.count == 0 && q.limit == p.limit
               && q.asleep == p.asleep + {k.current} && q.list == p.list + {k.current}
               && q.back == p.back + {k.current};
      assert Left(k, c, m, p, q);
    } else {
      OneStep(p, SemProtocol.Grab);
      assert Left(k, c, m, p, SemProtocol.Look(p));
    }
  }

  lemma RetakeLeft(k: KernelState, c: Call, m: nat, p: SemProtocol.SemState)
    requires Projects(k, m, p) && Orderly(k, c, m, p) && c.RetakeSem? && c.sem == m
    ensures exists q :: Leads(p, Acts(k, c, m), q) && Left(k, c, m, p, q)
  {
    hide Due, Leads;
    OneStep(p, SemProtocol.Recheck(k.current));
    assert Left(k, c, m, p, SemProtocol.Step(p, SemProtocol.Recheck(k.current)));
  }

  lemma GiveLeft(k: KernelState, c: Call, m: nat, p: SemProtocol.SemState)
    requires Inv(k) && Projects(k, m, p) && c.GiveSem? && c.sem == m
    ensures exists q :: Leads(p, Acts(k, c, m), q) && Left(k, c, m, p, q)
  {
    hide Inv, Due, Leads, SemProtocol.Step, Top, SemProtocol.Capped;
    InvParts(k);
    WaitersNotIdle(k, SemWait(m));
    GiveStep(p, c.count);
    OneStep(p, SemProtocol.Give(c.count));
    SemProtocol.StepConserves(p, SemProtocol.Give(c.count));
    assert Left(k, c, m, p, SemProtocol.Step(p, SemProtocol.Give(c.count)));
  }

  lemma ActsEffect(k: KernelState, c: Call, m: nat, p: SemProtocol.SemState)
    requires Inv(k) && Allowed(k, c) && Projects(k, m, p) && Orderly(k, c, m, p)
    ensures exists q :: Leads(p, Acts(k, c, m), q) && Left(k, c, m, p, q)
  {
    hide Inv, Due, Expiries, Leads, Allowed, Orderly;
    if c.TakeSem? && c.sem == m {
      TakeLeft(k, c, m, p);
    } else if c.RetakeSem? && c.sem == m {
      RetakeLeft(k, c, m, p);
    } else if c.GiveSem? && c.sem == m {
      GiveLeft(k, c, m, p);
    } else if c.TimerTick? && k.running {
      ExpirySteps(p, Due(k));
      var q :| Leads(p, Expiries(Due(k)), q) && NoGaps(q) && q.count == p.count && q.limit == p.limit
               && q.list == q.asleep == p.asleep - Due(k) && q.asleep <= q.back;
      assert Left(k, c, m, p, q);
    } else {
      StayLeads(p);
      assert Left(k, c, m, p, p);
    }
  }

  lemma StayLeads(p: SemProtocol.SemState)
    requires p.count <= p.limit
    ensures Leads(p, [], p)
  {
    SemProtocol.Stay(p);
  }

  lemma SemAfter(k: KernelState, c: Call, m: nat)
    requires Inv(k) && Allowed(k, c) && m in k.sems
    ensures m in Step(k, c).sems && Step(k, c).sems[m].limit == k.sems[m].limit
    ensures Step(k, c).sems[m].count ==
            (if (c.TakeSem? || c.RetakeSem?) && c.sem == m && k.sems[m].count > 0 then k.sems[m].count - 1
             else if c.GiveSem? && c.sem == m then SemProtocol.Capped(k.sems[m].count, k.sems[m].limit, c.count)
             else k.sems[m].count)
  {
    hide Inv, Step;
    StepObjects(k, c);
  }

  // The state of the timer list after a call is the protocol's
  lemma RetimeLeads(p: SemProtocol.SemState, cs: seq<SemProtocol.Call>, q: SemProtocol.SemState, due: set<nat>)
    requires Leads(p, cs, q) && NoGaps(q) && q.count <= q.limit
    ensures Leads(p, cs + [SemProtocol.Retime(due)], q.(due := due))
  {
    hide Leads;
    LeadsOn(p, cs, q, SemProtocol.Retime(due));
    assert SemProtocol.Step(q, SemProtocol.Retime(due)) == q.(due := due);
  }

  lemma LeftProjects(k: KernelState, g: KernelState, c: Call, m: nat, p: SemProtocol.SemState, q: SemProtocol.SemState)
    requires Projects(k, m, p) && Left(k, c, m, p, q) && m in g.sems && SemWait(m) in g.s && Timer(g.active) in g.s
    requires g.s[SemWait(m)] == WaitersAfter(k, c, m) && q.count == g.sems[m].count && q.limit == g.sems[m].limit
    ensures Projects(g, m, q.(due := Due(g)))
  {
    hide Due, WaitersAfter;
  }

  // Every call of the kernel is the protocol's steps of its trace, and none of them is harmful
  lemma StepRefines(k: KernelState, c: Call, m: nat, p: SemProtocol.SemState)
    requires Inv(k) && Allowed(k, c) && Projects(k, m, p) && Orderly(k, c, m, p)
    ensures Timer(k.active) in k.s && Timer(Step(k, c).active) in Step(k, c).s
    ensures SemProtocol.Harmlessly(p, Trace(k, c, m))
    ensures Projects(Step(k, c), m, SemProtocol.Run(p, Trace(k, c, m)))
  {
    hide Inv, Step, Allowed, Orderly, Acts, WaitersAfter, Formed, Projects, SemProtocol.Capped;
    hide SemProtocol.Run, SemProtocol.Legal, SemProtocol.HarmlessRun;
    ProjectsTimer(k, m, p);
    StepInv(k, c);
    InvFormed(Step(k, c));
    FormedLists(Step(k, c));
    ActsEffect(k, c, m, p);
    var q :| Leads(p, Acts(k, c, m), q) && Left(k, c, m, p, q);
    StepWaiters(k, c, m);
    SemAfter(k, c, m);
    RetimeLeads(p, Acts(k, c, m), q, Due(Step(k, c)));
    CountsAfter(k, Step(k, c), c, m, p, q);
    LeftProjects(k, Step(k, c), c, m, p, q);
  }

  lemma ProjectsTimer(k: KernelState, m: nat, p: SemProtocol.SemState)
    requires Projects(k, m, p)
    ensures Timer(k.active) in k.s && SemWait(m) in k.s && m in k.sems && p.count <= p.limit
    ensures p.count == k.sems[m].count && p.limit == k.sems[m].limit
  {
    hide Due;
  }

  lemma CountsAfter(k: KernelState, g: KernelState, c: Call, m: nat, p: SemProtocol.SemState, q: SemProtocol.SemState)
    requires Timer(k.active) in k.s && SemWait(m) in k.s && Left(k, c, m, p, q) && m in k.sems && m in g.sems
    requires p.count == k.sems[m].count && p.limit == k.sems[m].limit && g.sems[m].limit == k.sems[m].limit
    requires g.sems[m].count ==
             (if (c.TakeSem? || c.RetakeSem?) && c.sem == m && k.sems[m].count > 0 then k.sems[m].count - 1
              else if c.GiveSem? && c.sem == m then SemProtocol.Capped(k.sems[m].count, k.sems[m].limit, c.count)
              else k.sems[m].count)
    ensures q.count == g.sems[m].count && q.limit == g.sems[m].limit
  {
    hide WaitersAfter, Due, SemProtocol.Capped;
  }

  // The timer entry a blocked take leaves is the one the protocol's last step of it leaves
  lemma TakeTimes(k: KernelState, c: Call, m: nat, p: SemProtocol.SemState)
    requires Inv(k) && Allowed(k, c) && c.TakeSem? && c.sem == m && TakeBlocks(k, m) && Projects(k, m, p)
    ensures Timer(Step(k, c).active) in Step(k, c).s
    ensures Due(Step(k, c)) == SemProtocol.Doze(p, k.current, c.timeout).due
  {
    hide Inv, Step, Allowed, Answer;
    CallersSleep(k, c);
  }

  // The tasks whose back pointer names semaphore m's list
  ghost function Back(k: KernelState, m: nat): set<nat>
  {
    set p | p in k.tcb && k.tcb[p].semBmp == To(SemWait(m))
  }

  // A blocked take points its caller's back pointer to its own list, and so away from any other's
  lemma TakePoints(k: KernelState, c: Call, m: nat, p: SemProtocol.SemState)
    requires Inv(k) && Allowed(k, c) && c.TakeSem? && TakeBlocks(k, c.sem) && p.back == Back(k, m) && p.count <= p.limit
    ensures var step := if c.sem == m then SemProtocol.Point(k.current) else SemProtocol.Turn(k.current);
            Back(Step(k, c), m) == SemProtocol.Step(p, step).back
  {
    hide Inv, Step, Allowed, Answer;
    CallersSleep(k, c);
  }

  // The tick clears the back pointers of the tasks whose entries end, and no other
  lemma TickPoints(k: KernelState, m: nat)
    requires Inv(k) && k.running
    ensures Formed(k) && Timer(k.active) in k.s && Back(Tick(k), m) == Back(k, m) - Due(k)
  {
    hide Inv, Tick;
    TickBlocks(k);
  }

  // ---- whole runs --------------------------------------------------------------------------

  // Where semaphore m stands in the protocol after call c
  ghost function After(k: KernelState, c: Call, m: nat, p: SemProtocol.SemState): SemProtocol.SemState
    requires Inv(k) && Allowed(k, c) && Projects(k, m, p) && Orderly(k, c, m, p)
  {
    hide Inv, Step, Allowed, Orderly, Projects, Trace;
    StepRefines(k, c, m, p);
    SemProtocol.Run(p, Trace(k, c, m))
  }

  lemma AfterProjects(k: KernelState, c: Call, m: nat, p: SemProtocol.SemState)
    requires Inv(k) && Allowed(k, c) && Projects(k, m, p) && Orderly(k, c, m, p)
    ensures Projects(Step(k, c), m, After(k, c, m, p))
  {
    hide Inv, Step, Allowed, Orderly, Projects, Trace;
    StepRefines(k, c, m, p);
  }

  // The two halves of every take of semaphore m come in order, p being its state in the protocol
  ghost predicate OrderlyRun(k: KernelState, cs: seq<Call>, m: nat, p: SemProtocol.SemState)
    requires Inv(k) && Legal(k, cs) && Projects(k, m, p)
    decreases |cs|
  {
    hide Inv, Step, After, Projects, Orderly, Allowed;
    cs == [] ||
    (Orderly(k, cs[0], m, p) &&
     (StepInv(k, cs[0]); AfterProjects(k, cs[0], m, p);
      OrderlyRun(Step(k, cs[0]), cs[1..], m, After(k, cs[0], m, p))))
  }

  // The protocol's state at the end of a run
  ghost function Trail(k: KernelState, cs: seq<Call>, m: nat, p: SemProtocol.SemState): SemProtocol.SemState
    requires Inv(k) && Legal(k, cs) && Projects(k, m, p) && OrderlyRun(k, cs, m, p)
    decreases |cs|
  {
    hide Inv, Step, After, Projects, Orderly, Allowed;
    if cs == [] then p
    else
      StepInv(k, cs[0]);
      AfterProjects(k, cs[0], m, p);
      Trail(Step(k, cs[0]), cs[1..], m, After(k, cs[0], m, p))
  }

  // Units by which gives to semaphore m exceed one
  function ExcessGiven(cs: seq<Call>, m: nat): nat
  {
    if cs == [] then 0
    else (if cs[0].GiveSem? && cs[0].sem == m && cs[0].count > 1 then cs[0].count - 1 else 0) + ExcessGiven(cs[1..], m)
  }

  lemma AfterCovered(k: KernelState, c: Call, m: nat, p: SemProtocol.SemState, e: nat)
    requires Inv(k) && Allowed(k, c) && Projects(k, m, p) && Orderly(k, c, m, p) && SemProtocol.Covered(p, e)
    ensures SemProtocol.Covered(After(k, c, m, p), e + ExcessGiven([c], m))
  {
    hide Inv, Step, Allowed, Orderly, Projects, Acts, SemProtocol.Covered, SemProtocol.Legal, SemProtocol.Run;
    hide SemProtocol.Excess, SemProtocol.HarmlessRun, ExcessGiven, Due;
    StepRefines(k, c, m, p);
    SemProtocol.RunCovered(p, Trace(k, c, m), e);
    SemProtocol.ExcessThen(Acts(k, c, m), SemProtocol.Retime(Due(Step(k, c))));
    SemProtocol.ExcessOne(SemProtocol.Retime(Due(Step(k, c))));
    ActsExcess(k, c, m);
  }

  lemma ActsExcess(k: KernelState, c: Call, m: nat)
    requires Timer(k.active) in k.s
    ensures SemProtocol.Excess(Acts(k, c, m)) == ExcessGiven([c], m)
  {
    hide Due;
    assert [c][1..] == [];
    if c.GiveSem? && c.sem == m {
      SemProtocol.ExcessOne(SemProtocol.Give(c.count));
    } else {
      ExpiriesOnly(Due(k));
      NoGives(Acts(k, c, m));
    }
  }

  lemma {:induction false} NoGives(cs: seq<SemProtocol.Call>)
    requires forall c :: c in cs ==> !c.Give?
    ensures SemProtocol.Excess(cs) == 0
  {
    if cs != [] { NoGives(cs[1..]); }
  }

  lemma {:induction false} ExpiriesOnly(ts: set<nat>)
    ensures forall c :: c in Expiries(ts) ==> c.Expire?
    decreases |ts|
  {
    if ts != {} { ExpiriesOnly(ts - {Top(ts)}); }
  }

  lemma {:induction false} RunCovered(k: KernelState, cs: seq<Call>, m: nat, p: SemProtocol.SemState, e: nat)
    requires Inv(k) && Legal(k, cs) && Projects(k, m, p) && OrderlyRun(k, cs, m, p) && SemProtocol.Covered(p, e)
    ensures Projects(Run(k, cs), m, Trail(k, cs, m, p))
    ensures SemProtocol.Covered(Trail(k, cs, m, p), e + ExcessGiven(cs, m))
    decreases |cs|
  {
    hide Inv, Step, After, Projects, Orderly, Allowed, SemProtocol.Covered;
    if cs != [] {
      StepInv(k, cs[0]);
      AfterProjects(k, cs[0], m, p);
      AfterCovered(k, cs[0], m, p, e);
      assert [cs[0]][1..] == [];
      assert ExcessGiven(cs, m) == ExcessGiven([cs[0]], m) + ExcessGiven(cs[1..], m);
      RunCovered(Step(k, cs[0]), cs[1..], m, After(k, cs[0], m, p), e + ExcessGiven([cs[0]], m));
    }
  }

  // A new semaphore is a new semaphore of the protocol, whatever the timer list holds
  ghost function Fresh(k: KernelState, count: nat, limit: nat): SemProtocol.SemState
    requires Timer(k.active) in k.s
  {
    SemProtocol.Init(count, limit).(due := Due(k))
  }

  lemma NewProjects(k: KernelState, m: nat, count: nat, limit: nat)
    requires Inv(k) && m !in k.sems && count <= limit
    ensures Timer(k.active) in k.s && Inv(SemCreate(k, m, count, limit))
    ensures Projects(SemCreate(k, m, count, limit), m, Fresh(k, count, limit))
    ensures SemProtocol.Covered(Fresh(k, count, limit), 0)
  {
    hide Inv;
    InvFormed(k);
    FormedLists(k);
    SemCreateInv(k, m, count, limit);
  }

  // The calls cs, made after the creation of semaphore m in state k, are allowed, and the halves of
  // each take of it come in order
  ghost predicate FollowsCreation(k: KernelState, m: nat, count: nat, limit: nat, cs: seq<Call>)
    requires Inv(k) && m !in k.sems && count <= limit
  {
    hide Inv, Legal, OrderlyRun, Projects, Fresh;
    NewProjects(k, m, count, limit);
    Legal(SemCreate(k, m, count, limit), cs) &&
    OrderlyRun(SemCreate(k, m, count, limit), cs, m, Fresh(k, count, limit))
  }

  // From its creation on, whatever is called: while tasks wait for semaphore m its count is at most
  // the number of tasks woken from it that have not looked again, plus what gives brought beyond one
  // unit each
  lemma KernelCovered(k: KernelState, m: nat, count: nat, limit: nat, cs: seq<Call>)
    requires Inv(k) && m !in k.sems && count <= limit && FollowsCreation(k, m, count, limit, cs)
    ensures Inv(SemCreate(k, m, count, limit)) && Legal(SemCreate(k, m, count, limit), cs) && Timer(k.active) in k.s
    ensures Projects(SemCreate(k, m, count, limit), m, Fresh(k, count, limit))
    ensures OrderlyRun(SemCreate(k, m, count, limit), cs, m, Fresh(k, count, limit))
    ensures var k0, p0 := SemCreate(k, m, count, limit), Fresh(k, count, limit);
            var g, q := Run(k0, cs), Trail(k0, cs, m, p0);
            && m in g.sems && SemWait(m) in g.s
            && (g.s[SemWait(m)] != {} ==> g.sems[m].count <= |q.woken| + ExcessGiven(cs, m))
  {
    hide Inv, Legal, Run, OrderlyRun, Trail, ExcessGiven, Fresh, Due;
    NewProjects(k, m, count, limit);
    RunCovered(SemCreate(k, m, count, limit), cs, m, Fresh(k, count, limit), 0);
  }
}
