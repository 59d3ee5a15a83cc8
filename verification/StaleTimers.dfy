// An entry left in the timer list by an early release, and what it can end.
module StaleTimers {
  import opened PrioLists
  import opened TaskModel
  import opened KernelModel
  import opened TickModel
  import opened KernelRuns
  import opened WaitTheorems
  import opened Endings
  import opened TimeoutTheorems

  // ---- waits without a timeout ---------------------------------------------------------------

  // One would expect a wait without a timeout to be ended by no tick. The next tick ends it exactly
  // when the caller still has an entry in the timer list with one tick left
  lemma EndedByStaleEntry(k: KernelState, id: ListId)
    requires Inv(k) && MayBlock(k) && id in k.s && IsWait(id)
    ensures Formed(k) && k.current in k.tcb && Formed(Block(k, id, 0))
    ensures var h := Tick(Block(k, id, 0));
            Ready in h.s &&
            (k.current in h.s[Ready] <==> k.current in k.s[Timer(k.active)] && k.tcb[k.current].delayTime == 1)
  {
    hide Inv, Tick, TickBody, Block, Formed;
    BlockInv(k, id, 0);
    var g := Block(k, id, 0);
    InvFormed(g);
    FormedLists(g);
    BlockedEntry(k, id);
    TickParts(g);
    BodyReady(g);
  }

  lemma BlockedEntry(k: KernelState, id: ListId)
    requires Inv(k) && MayBlock(k) && id in k.s && IsWait(id) && Formed(k) && k.current in k.tcb
    ensures var g := Block(k, id, 0);
            && g.active == k.active && Timer(k.active) in g.s && g.s[Timer(k.active)] == k.s[Timer(k.active)]
            && Ready in g.s && k.current !in g.s[Ready] && k.current in g.tcb && g.running
            && g.tcb[k.current].delayTime == k.tcb[k.current].delayTime
  {
    hide Inv;
  }

  // Without such an entry no tick ever ends the wait: the caller becomes ready in a run exactly when
  // some call of it releases it from its own list
  lemma PatientWait(k: KernelState, c: Call, cs: seq<Call>)
    requires Inv(k) && Allowed(k, c) && Blocks(k, c) && c.timeout == 0 && Timer(k.active) in k.s && k.current in k.tcb
    requires !Ending(k, k.current)
    requires Inv(Step(k, c)) && Legal(Step(k, c), cs)
    ensures EverReady(Step(k, c), cs, k.current) <==> WokenWithin(Step(k, c), cs, k.current)
  {
    hide Inv, Step, Allowed, Legal, EverReady, WokenWithin, WentToSleep, Answer, Blocks;
    CallersSleep(k, c);
    CallerPatient(k, c);
    PatientExact(Step(k, c), cs, k.current);
  }

  lemma CallerPatient(k: KernelState, c: Call)
    requires Inv(k) && Allowed(k, c) && Blocks(k, c) && c.timeout == 0 && Timer(k.active) in k.s && k.current in k.tcb
    requires !Ending(k, k.current)
    ensures Patient(Step(k, c), k.current)
  {
    hide Inv, Block;
    InvFormed(k);
    CurrentReady(k);
    BlockPatient(k, WaitList(c));
  }

  lemma BlockPatient(k: KernelState, id: ListId)
    requires Inv(k) && MayBlock(k) && id in k.s && IsWait(id) && Timer(k.active) in k.s && k.current in k.tcb
    requires !Ending(k, k.current)
    ensures Formed(k) && Patient(Block(k, id, 0), k.current)
  {
    hide Inv, Formed;
    InvFormed(k);
    CurrentReady(k);
    PendStatus(k.tcb[k.current], id);
  }

  lemma PendStatus(t: Tcb, id: ListId)
    requires t.status == 0
    ensures PendTcb(t, id).status != 0 && PendTcb(t, id).status & PEND_DELAY == 0
    ensures PendTcb(t, id).delayTime == t.delayTime
  {}

  // ---- suspensions ---------------------------------------------------------------------------

  // The next tick ends a suspension exactly when the task has an entry with one tick left
  lemma SuspensionEnded(k: KernelState, p: nat)
    requires Inv(k) && k.running && p in k.tcb && k.tcb[p].status == 0
    ensures Formed(k) && Formed(Suspend(k, p).0)
    ensures var h := Tick(Suspend(k, p).0);
            Ready in h.s && (p in h.s[Ready] <==> p in k.s[Timer(k.active)] && k.tcb[p].delayTime == 1)
  {
    hide Inv, Tick, TickBody, Suspend, Formed;
    InvFormed(k);
    FormedLists(k);
    SuspendInv(k, p);
    var g := Suspend(k, p).0;
    InvFormed(g);
    FormedLists(g);
    SuspendedEntry(k, p);
    TickParts(g);
    BodyReady(g);
  }

  lemma SuspendedEntry(k: KernelState, p: nat)
    requires Ready in k.s && Timer(k.active) in k.s && p in k.tcb && k.tcb[p].status == 0
    ensures var g := Suspend(k, p).0;
            && g.active == k.active && Timer(k.active) in g.s && g.s[Timer(k.active)] == k.s[Timer(k.active)]
            && Ready in g.s && p !in g.s[Ready] && p in g.tcb && g.running == k.running
            && g.tcb[p].delayTime == k.tcb[p].delayTime && g.tcb[p].status == SUSPEND
  {}

  // Without such an entry the task stays suspended until it is resumed by name
  lemma SuspendedUntilResumed(k: KernelState, p: nat, cs: seq<Call>)
    requires Inv(k) && k.running && p in k.tcb && k.tcb[p].status == 0 && Timer(k.active) in k.s && !Ending(k, p)
    requires Ready in k.s && Inv(Suspend(k, p).0) && Legal(Suspend(k, p).0, cs)
    ensures EverReady(Suspend(k, p).0, cs, p) <==> ResumeTask(p) in cs
  {
    hide Inv, Suspend, Legal, EverReady;
    SuspendedEntry(k, p);
    StaysSuspended(Suspend(k, p).0, cs, p);
  }

  lemma {:induction false} StaysSuspended(k: KernelState, cs: seq<Call>, p: nat)
    requires Inv(k) && Legal(k, cs) && Patient(k, p) && k.tcb[p].status == SUSPEND
    ensures EverReady(k, cs, p) <==> ResumeTask(p) in cs
    decreases |cs|
  {
    hide Inv, Step, Allowed, Wakes;
    if cs != [] {
      StepInv(k, cs[0]);
      PatientStep(k, cs[0], p);
      SuspendedWakes(k, cs[0], p);
      if cs[0] == ResumeTask(p) { ReadyStart(Step(k, cs[0]), cs[1..], p); }
      else {
        assert ResumeTask(p) in cs <==> ResumeTask(p) in cs[1..];
        StaysSuspended(Step(k, cs[0]), cs[1..], p);
      }
    }
  }

  lemma SuspendedWakes(k: KernelState, c: Call, p: nat)
    requires Inv(k) && Allowed(k, c) && p in k.tcb && k.tcb[p].status == SUSPEND
    ensures Wakes(k, c, p) <==> c == ResumeTask(p)
  {
    hide Inv, Allowed, Answer, Top;
    SuspendedUnlisted(k, p);
  }

  lemma SuspendedUnlisted(k: KernelState, p: nat)
    requires Inv(k) && p in k.tcb && k.tcb[p].status == SUSPEND
    ensures forall id :: id in k.s && IsWait(id) ==> p !in k.s[id]
  {
    assert TaskAgrees(k.s, k.tcb, k.active, p);
    assert SUSPEND & PEND_SEM == 0 && SUSPEND & PEND_QUEUE == 0;
  }

  // ---- ticks in the gaps of a take -----------------------------------------------------------

  // A take that found no unit has set the caller's back pointer
  ghost function Pointed(k: KernelState, m: nat): KernelState
    requires k.current in k.tcb
  {
    k.(tcb := k.tcb[k.current := k.tcb[k.current].(semBmp := To(SemWait(m)))])
  }

  // And has entered the wait list
  ghost function Enlisted(k: KernelState, m: nat): KernelState
    requires k.current in k.tcb && SemWait(m) in k.s
  {
    Pointed(k, m).(s := Add(k.s, SemWait(m), k.current))
  }

  // A tick between the two leaves the back pointer exactly when the caller has no entry about to end
  lemma TickInFirstGap(k: KernelState, m: nat)
    requires Inv(k) && MayBlock(k) && TakeBlocks(k, m)
    ensures Formed(k) && k.current in k.tcb
    ensures var g := TickBody(Pointed(k, m));
            && k.current in g.tcb && g.tcb[k.current].status == 0
            && (g.tcb[k.current].semBmp == To(SemWait(m)) <==> !Ending(k, k.current))
  {
    hide Inv, TickLists, Formed;
    InvFormed(k);
    FormedLists(k);
    CurrentReady(k);
    EntryPositive(k, k.current);
  }

  // A tick after the second leaves the caller in the list exactly then
  lemma TickInSecondGap(k: KernelState, m: nat)
    requires Inv(k) && MayBlock(k) && TakeBlocks(k, m)
    ensures Formed(k) && k.current in k.tcb && SemWait(m) in k.s
    ensures var g := TickBody(Enlisted(k, m));
            && k.current in g.tcb && g.tcb[k.current].status == 0 && SemWait(m) in g.s
            && (k.current in g.s[SemWait(m)] <==> !Ending(k, k.current))
  {
    hide Inv, Formed;
    InvFormed(k);
    FormedLists(k);
    SemListed(k, m);
    CurrentReady(k);
    EntryPositive(k, k.current);
  }

  // A semaphore b whose list still holds a task that waits for another one, a, wakes it as its own
  // greatest waiter: the task is ready and still listed by a
  lemma StrayWake(k: KernelState, a: nat, b: nat, p: nat)
    requires Formed(k) && a in k.sems && b in k.sems && a != b && p != 0 && p in k.tcb
    requires SemWait(a) in k.s && p in k.s[SemWait(a)] && Heads(k, SemWait(b), p)
    requires k.tcb[p].status == PEND_SEM || k.tcb[p].status == PEND_SEM | PEND_DELAY
    ensures var g := WakeTop(k, SemWait(b));
            Ready in g.s && p in g.s[Ready] && SemWait(a) in g.s && p in g.s[SemWait(a)] && p !in g.s[SemWait(b)]
  {
    hide Formed, Top;
    FormedLists(k);
    WakeClears(k.tcb[p], b);
  }

  lemma WakeClears(t: Tcb, b: nat)
    requires t.status == PEND_SEM || t.status == PEND_SEM | PEND_DELAY
    ensures WakeTcb(t, SemWait(b)).status == 0
  {}

  lemma SemListed(k: KernelState, m: nat)
    requires Formed(k) && m in k.sems
    ensures SemWait(m) in k.s
  {}

  // ---- a run that leaves such an entry -----------------------------------------------------

  ghost function Machine(ready: set<nat>, timer0: set<nat>, timer1: set<nat>, wait: set<nat>, active: nat, task: Tcb,
                         count: nat, running: bool, current: nat): KernelState
  {
    KernelState(2, map[Ready := ready, Timer(0) := timer0, Timer(1) := timer1, SemWait(0) := wait], active,
                map[0 := Tcb(0, 0, Null, Null), 1 := task], map[0 := Sem(count, 1)], map[],
                running, 0, current, current)
  }

  const IDLE: Tcb := Tcb(0, 0, Null, Null)

  function Waiter(ticks: nat): Tcb
  {
    Tcb(ticks, PEND_SEM | PEND_DELAY, To(SemWait(0)), Null)
  }

  function Woken(ticks: nat): Tcb
  {
    Tcb(ticks, 0, To(SemWait(0)), Null)
  }

  // Two tasks and a semaphore without units
  lemma Created()
    ensures var k := Init(2);
            && Ready in k.s && Ready in Create(k, 0, 0).s
            && SemCreate(Create(Create(k, 0, 0), 1, 0), 0, 0, 1) == Machine({0, 1}, {}, {}, {}, 0, IDLE, 0, false, 0)
  {
    var k2 := Create(Create(Init(2), 0, 0), 1, 0);
    assert k2.s[Ready] == {0, 1};
    assert k2.tcb == map[0 := IDLE, 1 := IDLE];
    var k3 := SemCreate(k2, 0, 0, 1);
    assert k3.s == map[Ready := {0, 1}, Timer(0) := {}, Timer(1) := {}, SemWait(0) := {}];
  }

  lemma Started()
    ensures Ready in Machine({0, 1}, {}, {}, {}, 0, IDLE, 0, false, 0).s
    ensures Start(Machine({0, 1}, {}, {}, {}, 0, IDLE, 0, false, 0)) == Machine({0, 1}, {}, {}, {}, 0, IDLE, 0, true, 1)
  {
    TopIs({0, 1}, 1);
  }

  // Task 1 waits for a unit, for one tick at most
  lemma Waited()
    ensures var k := Machine({0, 1}, {}, {}, {}, 0, IDLE, 0, true, 1);
            Formed(k) && SemTake(k, 0, 1).0 == Machine({0}, {1}, {}, {1}, 0, Waiter(1), 0, true, 0)
  {
    var k := Machine({0, 1}, {}, {}, {}, 0, IDLE, 0, true, 1);
    TopIs({0}, 0);
    WaitedLists(k.s);
    WaitedTask();
    assert k.tcb[1 := Waiter(1)] == Machine({0}, {1}, {}, {1}, 0, Waiter(1), 0, true, 0).tcb;
  }

  lemma WaitedTask()
    ensures BlockTcb(IDLE, SemWait(0), 1) == Waiter(1)
  {}

  lemma WaitedLists(s: Lists)
    requires s == map[Ready := {0, 1}, Timer(0) := {}, Timer(1) := {}, SemWait(0) := {}]
    ensures BlockLists(s, 0, 1, SemWait(0), 1) == map[Ready := {0}, Timer(0) := {1}, Timer(1) := {}, SemWait(0) := {1}]
  {
    assert {0, 1} - {1} == {0} && {} + {1} == {1};
    var r := BlockLists(s, 0, 1, SemWait(0), 1);
    assert r[Ready] == {0} && r[Timer(0)] == {1} && r[Timer(1)] == {} && r[SemWait(0)] == {1};
  }

  // The idle task gives a unit before any tick; task 1 runs and takes it, its entry stays behind
  lemma Given()
    ensures var k := Machine({0}, {1}, {}, {1}, 0, Waiter(1), 0, true, 0);
            Formed(k) && SemGive(k, 0, 1).0 == Machine({0, 1}, {1}, {}, {}, 0, Woken(1), 1, true, 1)
  {
    TopIs({1}, 1);
    TopIs({0, 1}, 1);
    WokenTask();
    var k := SetCount(Machine({0}, {1}, {}, {1}, 0, Waiter(1), 0, true, 0), 0, 1);
    GivenLists(k.s);
    assert k.tcb[1 := Woken(1)] == Machine({0, 1}, {1}, {}, {}, 0, Woken(1), 1, true, 1).tcb;
  }

  lemma WokenTask()
    ensures WakeTcb(Waiter(1), SemWait(0)) == Woken(1)
  {}

  lemma GivenLists(s: Lists)
    requires s == map[Ready := {0}, Timer(0) := {1}, Timer(1) := {}, SemWait(0) := {1}]
    ensures Add(Del(s, SemWait(0), 1), Ready, 1)
            == map[Ready := {0, 1}, Timer(0) := {1}, Timer(1) := {}, SemWait(0) := {}]
  {
    assert {0} + {1} == {0, 1} && {1} - {1} == {};
  }

  lemma Retaken()
    ensures var k := Machine({0, 1}, {1}, {}, {}, 0, Woken(1), 1, true, 1);
            0 in k.sems && SemRetake(k, 0).0 == Machine({0, 1}, {1}, {}, {}, 0, Woken(1), 0, true, 1)
  {}

  // ---- putting the run together ------------------------------------------------------------

  // The calls cs, from the initial state of a kernel for two tasks, end in g
  ghost predicate Reaches(cs: seq<Call>, g: KernelState)
  {
    Inv(Init(2)) && Legal(Init(2), cs) && Run(Init(2), cs) == g
  }

  lemma {:induction false} RunThen(k: KernelState, cs: seq<Call>, c: Call)
    requires Inv(k) && Legal(k, cs) && Allowed(Run(k, cs), c)
    ensures Legal(k, cs + [c]) && Run(k, cs + [c]) == Step(Run(k, cs), c)
    decreases |cs|
  {
    hide Inv, Step, Allowed;
    if cs == [] {
      StepInv(k, c);
      assert [c][1..] == [];
      assert Legal(Step(k, c), []) && Run(Step(k, c), []) == Step(k, c);
    } else {
      StepInv(k, cs[0]);
      RunThen(Step(k, cs[0]), cs[1..], c);
      assert (cs + [c])[1..] == cs[1..] + [c];
    }
  }

  lemma Then(cs: seq<Call>, g: KernelState, c: Call, h: KernelState)
    requires Reaches(cs, g) && Allowed(g, c)
    requires Inv(g) ==> Step(g, c) == h
    ensures Reaches(cs + [c], h)
  {
    hide Inv, Step, Allowed, Legal, Run, Init;
    RunThen(Init(2), cs, c);
  }

  lemma Begun()
    ensures Reaches([], Init(2))
  {
    hide Inv, Init;
    InitInv(2);
  }

  const CREATION: seq<Call> := [] + [CreateTask(0, 0)] + [CreateTask(1, 0)] + [NewSem(0, 0, 1)]

  lemma AfterCreation()
    ensures Reaches(CREATION, Machine({0, 1}, {}, {}, {}, 0, IDLE, 0, false, 0))
  {
    hide Inv, Reaches, Formed;
    Begun();
    Created();
    var k1 := Create(Init(2), 0, 0);
    var k2 := Create(k1, 1, 0);
    Then([], Init(2), CreateTask(0, 0), k1);
    Then([] + [CreateTask(0, 0)], k1, CreateTask(1, 0), k2);
    Then([] + [CreateTask(0, 0)] + [CreateTask(1, 0)], k2, NewSem(0, 0, 1), SemCreate(k2, 0, 0, 1));
  }

  const LEAVES_ENTRY: seq<Call> := CREATION + [StartKernel] + [TakeSem(0, 1)] + [GiveSem(0, 1)] + [RetakeSem(0)]

  // Task 1 runs again, its unit taken in time, and its entry still has one tick left
  lemma EntryLeft()
    ensures Reaches(LEAVES_ENTRY, Machine({0, 1}, {1}, {}, {}, 0, Woken(1), 0, true, 1))
  {
    hide Inv, Reaches, Formed, Step, Start, SemTake, SemGive, SemRetake, Woken, Waiter, Allowed, Machine;
    AfterCreation();
    Started();
    Waited();
    Given();
    Retaken();
    var k0 := Machine({0, 1}, {}, {}, {}, 0, IDLE, 0, false, 0);
    var k1 := Machine({0, 1}, {}, {}, {}, 0, IDLE, 0, true, 1);
    var k2 := Machine({0}, {1}, {}, {1}, 0, Waiter(1), 0, true, 0);
    var k3 := Machine({0, 1}, {1}, {}, {}, 0, Woken(1), 1, true, 1);
    var k4 := Machine({0, 1}, {1}, {}, {}, 0, Woken(1), 0, true, 1);
    Scheduling(k0, k1, k3);
    StepsAre(k0, k1, k2, k3);
    Then(CREATION, k0, StartKernel, k1);
    Then(CREATION + [StartKernel], k1, TakeSem(0, 1), k2);
    Then(CREATION + [StartKernel] + [TakeSem(0, 1)], k2, GiveSem(0, 1), k3);
    Then(CREATION + [StartKernel] + [TakeSem(0, 1)] + [GiveSem(0, 1)], k3, RetakeSem(0), k4);
  }

  lemma Scheduling(k0: KernelState, k1: KernelState, k3: KernelState)
    requires k0 == Machine({0, 1}, {}, {}, {}, 0, IDLE, 0, false, 0)
    requires k1 == Machine({0, 1}, {}, {}, {}, 0, IDLE, 0, true, 1)
    requires k3 == Machine({0, 1}, {1}, {}, {}, 0, Woken(1), 1, true, 1)
    ensures !k0.running && 0 in k0.tcb && MayBlock(k1) && 0 in k3.sems
  {
    hide Woken;
  }

  lemma StepsAre(k0: KernelState, k1: KernelState, k2: KernelState, k3: KernelState)
    requires !k0.running && 0 in k0.tcb && MayBlock(k1) && 0 in k3.sems
    ensures Allowed(k0, StartKernel) && Allowed(k1, TakeSem(0, 1)) && Allowed(k2, GiveSem(0, 1))
            && Allowed(k3, RetakeSem(0))
    ensures Inv(k0) ==> Ready in k0.s && Step(k0, StartKernel) == Start(k0)
    ensures Inv(k1) ==> Formed(k1) && k1.current in k1.tcb && Step(k1, TakeSem(0, 1)) == SemTake(k1, 0, 1).0
    ensures Inv(k2) ==> Formed(k2) && Step(k2, GiveSem(0, 1)) == SemGive(k2, 0, 1).0
    ensures Inv(k3) ==> Step(k3, RetakeSem(0)) == SemRetake(k3, 0).0
  {
    hide Inv, Formed, Start, SemTake, SemGive, SemRetake;
    if Inv(k0) { InvFormed(k0); FormedLists(k0); }
    if Inv(k1) { InvFormed(k1); }
    if Inv(k2) { InvFormed(k2); }
  }

  // A run after which a take without a timeout is ended by the very next tick, with no unit given
  lemma TickEndsPatientTake()
    ensures var k := Machine({0, 1}, {1}, {}, {}, 0, Woken(1), 0, true, 1);
            && Reaches(LEAVES_ENTRY, k) && Inv(k) && MayBlock(k) && TakeBlocks(k, 0) && k.current == 1
            && Formed(k) && Formed(SemTake(k, 0, 0).0)
            && var h := Tick(SemTake(k, 0, 0).0); Ready in h.s && 1 in h.s[Ready]
  {
    hide Inv, Reaches, Formed, Tick, Block, Woken;
    var k := Machine({0, 1}, {1}, {}, {}, 0, Woken(1), 0, true, 1);
    EntryLeft();
    ReachesInv(LEAVES_ENTRY, k);
    InvFormed(k);
    WokenDelay();
    EndedByStaleEntry(k, SemWait(0));
  }

  // After the same run the very next tick ends a suspension
  lemma TickEndsSuspension()
    ensures var k := Machine({0, 1}, {1}, {}, {}, 0, Woken(1), 0, true, 1);
            && Reaches(LEAVES_ENTRY, k) && Inv(k) && Ready in k.s && Formed(Suspend(k, 1).0)
            && Suspend(k, 1).1 == StatusOk
            && var h := Tick(Suspend(k, 1).0); Ready in h.s && 1 in h.s[Ready]
  {
    hide Inv, Reaches, Formed, Tick, Woken;
    var k := Machine({0, 1}, {1}, {}, {}, 0, Woken(1), 0, true, 1);
    EntryLeft();
    ReachesInv(LEAVES_ENTRY, k);
    WokenDelay();
    SuspensionEnded(k, 1);
  }

  lemma WokenDelay()
    ensures Woken(1).delayTime == 1 && Woken(1).status == 0
  {}

  lemma ReachesInv(cs: seq<Call>, g: KernelState)
    requires Reaches(cs, g)
    ensures Inv(g)
  {
    hide Inv, Init;
  }
}
