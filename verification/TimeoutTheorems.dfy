// How long a task that waits can be kept waiting, and what can end its wait early.
module TimeoutTheorems {
  import opened TaskModel
  import opened KernelModel
  import opened TickModel
  import opened KernelRuns
  import opened WaitTheorems
  import opened DelayTheorems
  import opened Endings

  // Task p waits, for an object or not, with r ticks left
  ghost predicate Timed(k: KernelState, p: nat, r: nat)
  {
    k.running && p in k.tcb && k.tcb[p].status & PEND_DELAY != 0 && k.tcb[p].delayTime == r && r > 0
  }

  lemma TimedListed(k: KernelState, p: nat)
    requires Inv(k) && p in k.tcb && k.tcb[p].status & PEND_DELAY != 0
    ensures Ready in k.s && Timer(k.active) in k.s && p in k.s[Timer(k.active)]
  {
    hide Scheduled;
    assert TaskAgrees(k.s, k.tcb, k.active, p);
  }

  lemma TickTimed(k: KernelState, p: nat, r: nat)
    requires Inv(k) && Timed(k, p, r) && Allowed(k, TimerTick)
    ensures var g := Step(k, TimerTick);
            if r > 1 then Timed(g, p, r - 1) else p in g.tcb && g.tcb[p].status == 0
  {
    hide Inv, Tick, TickLists, TickTasks, Formed, ResumeTcb;
    InvFormed(k);
    TimedListed(k, p);
    TickParts(k);
    FormedLists(k);
    BodyTasks(k);
  }

  lemma TickWakesNobody(k: KernelState, p: nat)
    requires Inv(k) && Allowed(k, TimerTick)
    ensures !Wakes(k, TimerTick, p)
  {
    hide Inv;
  }

  lemma TimedStep(k: KernelState, c: Call, p: nat, r: nat)
    requires Inv(k) && Allowed(k, c) && Timed(k, p, r) && (c == TimerTick ==> r > 1)
    ensures if Wakes(k, c, p) then IsReady(Step(k, c), p)
            else Timed(Step(k, c), p, if c == TimerTick then r - 1 else r)
  {
    hide Inv, Step, Allowed, Wakes;
    if c == TimerTick {
      TickTimed(k, p, r);
      TickWakesNobody(k, p);
    } else {
      StepEnds(k, c, p);
    }
  }

  // Task p is ready in some state of the run, its end included
  ghost predicate EverReady(k: KernelState, cs: seq<Call>, p: nat)
    requires Inv(k) && Legal(k, cs)
    decreases |cs|
  {
    IsReady(k, p) || (cs != [] && (StepInv(k, cs[0]); EverReady(Step(k, cs[0]), cs[1..], p)))
  }

  // A wait with r ticks left ends within r ticks, whatever is called meanwhile
  lemma {:induction false} WaitEnds(k: KernelState, cs: seq<Call>, p: nat, r: nat)
    requires Inv(k) && Legal(k, cs) && Timed(k, p, r) && Ticks(cs) >= r
    ensures EverReady(k, cs, p)
    decreases |cs|
  {
    hide Inv, Step, Allowed;
    if cs != [] {
      StepInv(k, cs[0]);
      if cs[0] == TimerTick && r == 1 {
        TickTimed(k, p, r);
      } else {
        TimedStep(k, cs[0], p, r);
        if !Wakes(k, cs[0], p) {
          WaitEnds(Step(k, cs[0]), cs[1..], p, if cs[0] == TimerTick then r - 1 else r);
        }
      }
    }
  }

  // A call that puts its caller to sleep with a timeout gives it just that many ticks
  lemma BlockedTimed(k: KernelState, c: Call)
    requires Inv(k) && Allowed(k, c) && Blocks(k, c) && c.timeout > 0
    ensures Timed(Step(k, c), k.current, c.timeout)
  {
    hide Inv, Step, Allowed, TakeBlocks, InsertBlocks, RemoveBlocks, WentToSleep;
    CallersSleep(k, c);
    BlockersMayBlock(k, c);
    ParkedTimed(k, Step(k, c), WaitList(c), c.timeout);
  }

  lemma ParkedTimed(k: KernelState, g: KernelState, id: ListId, ticks: nat)
    requires WentToSleep(k, g, id, ticks) && ticks > 0 && k.running
    ensures Timed(g, k.current, ticks)
  {
    MarkSet(if id.SemWait? then PEND_SEM else PEND_QUEUE);
  }

  lemma MarkSet(status: bv16)
    ensures (status | PEND_DELAY) & PEND_DELAY != 0
  {
    assert (status | PEND_DELAY) & PEND_DELAY == PEND_DELAY;
  }

  // ---- what ends a wait early ------------------------------------------------------------------

  // Some call of the run releases or resumes p
  ghost predicate WokenWithin(k: KernelState, cs: seq<Call>, p: nat)
    requires Inv(k) && Legal(k, cs)
    decreases |cs|
  {
    hide Inv, Step, Allowed, Wakes;
    cs != [] && (Wakes(k, cs[0], p) || (StepInv(k, cs[0]); WokenWithin(Step(k, cs[0]), cs[1..], p)))
  }

  lemma ReadyStart(k: KernelState, cs: seq<Call>, p: nat)
    requires Inv(k) && Legal(k, cs) && IsReady(k, p)
    ensures EverReady(k, cs, p)
  {
    hide Inv, Step, Allowed;
  }

  // A wait with r ticks left does not end in fewer than r ticks, unless its own list releases it
  lemma {:induction false} TimedExact(k: KernelState, cs: seq<Call>, p: nat, r: nat)
    requires Inv(k) && Legal(k, cs) && Timed(k, p, r) && Ticks(cs) < r
    ensures EverReady(k, cs, p) <==> WokenWithin(k, cs, p)
    decreases |cs|
  {
    hide Inv, Step, Allowed, Wakes;
    if cs != [] {
      StepInv(k, cs[0]);
      TimedStep(k, cs[0], p, r);
      if Wakes(k, cs[0], p) { ReadyStart(Step(k, cs[0]), cs[1..], p); }
      else { TimedExact(Step(k, cs[0]), cs[1..], p, if cs[0] == TimerTick then r - 1 else r); }
    }
  }

  // p waits without a timeout or is suspended, and no tick will end an old entry of it
  ghost predicate Patient(k: KernelState, p: nat)
  {
    && Dormant(k, p) && k.tcb[p].status & PEND_DELAY == 0
    && Timer(k.active) in k.s && !Ending(k, p)
  }

  lemma PatientStep(k: KernelState, c: Call, p: nat)
    requires Inv(k) && Allowed(k, c) && Patient(k, p)
    ensures if Wakes(k, c, p) then IsReady(Step(k, c), p)
            else Patient(Step(k, c), p) && Step(k, c).tcb[p].status == k.tcb[p].status
  {
    hide Inv, Step, Allowed, Wakes;
    if c == TimerTick {
      TickEnds(k, p);
      TickWakesNobody(k, p);
    } else {
      StepEnds(k, c, p);
    }
  }

  // Then no tick ever makes it ready, only its release or resumption
  lemma {:induction false} PatientExact(k: KernelState, cs: seq<Call>, p: nat)
    requires Inv(k) && Legal(k, cs) && Patient(k, p)
    ensures EverReady(k, cs, p) <==> WokenWithin(k, cs, p)
    decreases |cs|
  {
    hide Inv, Step, Allowed, Wakes;
    if cs != [] {
      StepInv(k, cs[0]);
      PatientStep(k, cs[0], p);
      if !Wakes(k, cs[0], p) { PatientExact(Step(k, cs[0]), cs[1..], p); }
      else { ReadyStart(Step(k, cs[0]), cs[1..], p); }
    }
  }

  // A take, an insertion or a removal with a timeout that has to wait: the caller is ready again within
  // that many ticks, and before the last of them exactly when its own list releases it
  lemma BlockedEnds(k: KernelState, c: Call, cs: seq<Call>)
    requires Inv(k) && Allowed(k, c) && Blocks(k, c) && c.timeout > 0
    requires Inv(Step(k, c)) && Legal(Step(k, c), cs)
    ensures Ticks(cs) >= c.timeout ==> EverReady(Step(k, c), cs, k.current)
    ensures Ticks(cs) < c.timeout ==>
              (EverReady(Step(k, c), cs, k.current) <==> WokenWithin(Step(k, c), cs, k.current))
  {
    hide Inv, Step, Allowed, Legal, EverReady, WokenWithin, Ticks, TakeBlocks, InsertBlocks, RemoveBlocks, Timed;
    BlockedTimed(k, c);
    if Ticks(cs) >= c.timeout {
      WaitEnds(Step(k, c), cs, k.current, c.timeout);
    } else {
      TimedExact(Step(k, c), cs, k.current, c.timeout);
    }
  }
}
