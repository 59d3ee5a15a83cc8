// How long a delayed task sleeps.
module DelayTheorems {
  import opened TaskModel
  import opened KernelModel
  import opened TickModel
  import opened KernelRuns
  import opened Endings

  // Task p sleeps for r more ticks and waits for nothing else
  ghost predicate Sleeping(k: KernelState, p: nat, r: nat)
  {
    k.running && p in k.tcb && k.tcb[p].status == PEND_DELAY && k.tcb[p].delayTime == r && r > 0
  }

  // A sleeping task is in the active timer list and in no wait list
  lemma SleeperListed(k: KernelState, p: nat, r: nat)
    requires Inv(k) && Sleeping(k, p, r)
    ensures Ready in k.s && Timer(k.active) in k.s && p !in k.s[Ready] && p in k.s[Timer(k.active)] && p != 0
    ensures forall id :: id in k.s && IsWait(id) ==> p !in k.s[id]
  {
    hide Scheduled;
    assert TaskAgrees(k.s, k.tcb, k.active, p);
  }

  // No call but the tick touches a sleeping task
  lemma StepSleeping(k: KernelState, c: Call, p: nat, r: nat)
    requires Inv(k) && Allowed(k, c) && Sleeping(k, p, r) && c != TimerTick
    ensures Sleeping(Step(k, c), p, r)
  {
    hide Inv, Step, Allowed;
    SleeperKept(k, c, p, r);
    StepEnds(k, c, p);
  }

  lemma SleeperKept(k: KernelState, c: Call, p: nat, r: nat)
    requires Inv(k) && Allowed(k, c) && Sleeping(k, p, r)
    ensures !Wakes(k, c, p)
  {
    hide Inv, Allowed, Answer;
    SleeperListed(k, p, r);
  }

  // A tick takes one from its time, and the last one makes it ready
  lemma TickSleeping(k: KernelState, p: nat, r: nat)
    requires Inv(k) && Sleeping(k, p, r)
    ensures var g := Step(k, TimerTick);
            if r > 1 then Sleeping(g, p, r - 1)
            else Ready in g.s && p in g.s[Ready] && p in g.tcb && g.tcb[p].status == 0
  {
    hide Inv, Tick, TickLists, TickTasks, Formed;
    InvFormed(k);
    SleeperListed(k, p, r);
    TickParts(k);
    FormedLists(k);
    BodyReady(k);
    BodyTasks(k);
    assert Survives(k.tcb[p]) || Expires(k.tcb[p]);
  }

  function Ticks(cs: seq<Call>): nat
  {
    if cs == [] then 0 else (if cs[0] == TimerTick then 1 else 0) + Ticks(cs[1..])
  }

  lemma {:induction false} RunSleeping(k: KernelState, cs: seq<Call>, p: nat, r: nat)
    requires Inv(k) && Legal(k, cs) && Sleeping(k, p, r) && Ticks(cs) < r
    ensures Sleeping(Run(k, cs), p, r - Ticks(cs))
    decreases |cs|
  {
    hide Inv, Step, Allowed, Sleeping;
    if cs != [] {
      StepInv(k, cs[0]);
      if cs[0] == TimerTick {
        TickSleeping(k, p, r);
        RunSleeping(Step(k, cs[0]), cs[1..], p, r - 1);
      } else {
        StepSleeping(k, cs[0], p, r);
        RunSleeping(Step(k, cs[0]), cs[1..], p, r);
      }
    }
  }

  // After uLipeTaskDelay(n) the caller sleeps for n ticks
  lemma DelayStarts(k: KernelState, n: nat)
    requires Inv(k) && MayBlock(k) && n > 0
    ensures Allowed(k, DelayTask(n)) && Sleeping(Step(k, DelayTask(n)), k.current, n)
  {
    hide Inv, Add, Del, Formed;
    InvFormed(k);
    CurrentReady(k);
    assert (0 as bv16) | PEND_DELAY == PEND_DELAY;
  }

  // Exact delay: whatever else is called, the task is not ready after fewer than n ticks and is
  // ready right after the n-th
  lemma ExactDelay(k: KernelState, n: nat, cs: seq<Call>)
    requires Inv(k) && MayBlock(k) && n > 0
    requires Allowed(k, DelayTask(n)) && Inv(Step(k, DelayTask(n))) && Legal(Step(k, DelayTask(n)), cs)
    requires Ticks(cs) < n
    ensures var p, g := k.current, Run(Step(k, DelayTask(n)), cs);
            && Ready in g.s && p !in g.s[Ready] && p in g.tcb && g.tcb[p].delayTime == n - Ticks(cs)
            && (Ticks(cs) == n - 1 ==> var h := Step(g, TimerTick); Ready in h.s && p in h.s[Ready])
  {
    hide Inv, Step, Allowed, Run, Legal;
    DelayStarts(k, n);
    RunSleeping(Step(k, DelayTask(n)), cs, k.current, n);
    var g := Run(Step(k, DelayTask(n)), cs);
    SleeperListed(g, k.current, n - Ticks(cs));
    TickAllowed(g);
    TickSleeping(g, k.current, n - Ticks(cs));
  }

  lemma TickAllowed(k: KernelState)
    ensures Allowed(k, TimerTick)
  {}
}
