// One mutex: who owns it, who waits for it, and the priority each task shows.
module MutexModel {
  import opened PrioLists

  const PEND_MTX: bv16 := 0x100

  datatype Status = StatusOk | MutexOwned | InvalidParam

  // A control block: the priority it shows and its status word
  datatype Task = Task(prio: nat, status: bv16)

  // Tasks are named by the slot they were created in. Slot n - 1 is reserved: while the mutex is
  // taken it points to the owner's control block.
  datatype MutexState =
    MutexState(n: nat, taken: bool, owner: nat, pending: set<nat>, task: map<nat, Task>, ready: set<nat>)

  function Blocked(t: Task): Task { t.(status := t.status | PEND_MTX) }

  function Unblocked(t: Task): Task { t.(status := t.status & !PEND_MTX) }

  function Shown(t: Task, prio: nat): Task { t.(prio := prio) }

  ghost predicate Valid(m: MutexState)
  {
    && 2 <= m.n <= MAX_TASKS
    && (forall p :: p in m.task ==> p < m.n - 1)
    && m.pending <= m.task.Keys
    && (m.pending != {} ==> m.taken)
    && (m.taken ==> m.owner in m.task && m.task[m.owner].prio == m.n - 1)
    && (forall p :: p in m.task && (m.taken ==> p != m.owner) ==> m.task[p].prio == p)
  }

  // Task c becomes the owner, at the reserved priority
  ghost function Raise(m: MutexState, c: nat): (r: MutexState)
    requires c in m.task && m.n >= 1
  {
    var t := Unblocked(Shown(m.task[c], m.n - 1));
    m.(taken := true, owner := c, task := m.task[c := t],
       ready := if t.status == 0 then m.ready + {m.n - 1} else m.ready)
  }

  // uLipeMutexTake by task c
  ghost function Take(m: MutexState, c: nat): (MutexState, Status)
    requires c in m.task && m.n >= 1
  {
    if m.taken then
      (m.(pending := m.pending + {c}, task := m.task[c := Blocked(m.task[c])], ready := m.ready - {c}), MutexOwned)
    else (Raise(m, c), StatusOk)
  }

  // The owner gives up the reserved priority and leaves the wait list
  ghost function Lower(m: MutexState): MutexState
    requires m.owner in m.task && m.n >= 1
  {
    var t := Shown(Unblocked(m.task[m.owner]), m.owner);
    m.(pending := m.pending - {m.owner}, task := m.task[m.owner := t], ready := m.ready - {m.n - 1})
  }

  // uLipeMutexGive by the owner
  ghost function Give(m: MutexState): MutexState
    requires m.owner in m.task && m.n >= 1 && m.pending <= m.task.Keys
  {
    var l := Lower(m);
    if l.pending != {} then Raise(l, Top(l.pending)) else l.(taken := false, owner := m.n - 1)
  }

  lemma TakeValid(m: MutexState, c: nat)
    requires Valid(m) && c in m.task && (m.taken ==> c != m.owner)
    ensures Valid(Take(m, c).0)
  {
    hide Unblocked, Blocked;
    Keeps(m.task[c]);
    Keeps(Shown(m.task[c], m.n - 1));
  }

  lemma Keeps(t: Task)
    ensures Blocked(t).prio == t.prio && Unblocked(t).prio == t.prio
  {}

  lemma LowerKeeps(m: MutexState)
    requires Valid(m) && m.taken
    ensures var l := Lower(m);
            && l.task.Keys == m.task.Keys && l.n == m.n && l.taken && l.owner == m.owner
            && l.pending == m.pending - {m.owner}
            && forall p :: p in l.task ==> l.task[p].prio == p
  {
    hide Unblocked;
    Keeps(m.task[m.owner]);
  }

  lemma GiveValid(m: MutexState)
    requires Valid(m) && m.taken
    ensures Valid(Give(m))
  {
    hide Unblocked, Lower;
    LowerKeeps(m);
    var l := Lower(m);
    if l.pending != {} {
      var w := Top(l.pending);
      assert w in l.task;
      Keeps(Shown(l.task[w], l.n - 1));
    }
  }

  // A free mutex goes to whoever takes it, who is then ready at the reserved priority, the greatest
  // there is; whoever finds it taken is told so, leaves the ready list and waits
  lemma TakeExact(m: MutexState, c: nat)
    requires Valid(m) && c in m.task && (m.taken ==> c != m.owner) && forall p :: p in m.ready ==> p < m.n
    ensures var (g, r) := Take(m, c); var t := g.task[c];
            && g.taken && g.task.Keys == m.task.Keys && t.status & !PEND_MTX == m.task[c].status & !PEND_MTX
            && (forall p :: p in m.task && p != c ==> g.task[p] == m.task[p])
            && if m.taken then
                 && r == MutexOwned && g.owner == m.owner && g.pending == m.pending + {c} && g.ready == m.ready - {c}
                 && t.prio == c && t.status & PEND_MTX == PEND_MTX
               else
                 && r == StatusOk && g.owner == c && g.pending == m.pending && t.prio == m.n - 1
                 && t.status & PEND_MTX == 0
                 && (t.status == 0 ==> g.ready == m.ready + {m.n - 1} && Top(g.ready) == m.n - 1)
                 && (t.status != 0 ==> g.ready == m.ready)
  {
    hide Valid;
    ShownParts(m, c);
    if !m.taken && Take(m, c).0.task[c].status == 0 { TopIs(m.ready + {m.n - 1}, m.n - 1); }
  }

  lemma ShownParts(m: MutexState, c: nat)
    requires Valid(m) && c in m.task && (m.taken ==> c != m.owner)
    ensures m.task[c].prio == c && m.n >= 2
  {}

  // The mutex goes to the greatest waiter other than the giver, who is then ready at the reserved
  // priority; it is free only when there is none, and then nobody is ready at that priority. The giver
  // shows its own slot again
  lemma GiveHandsOver(m: MutexState)
    requires Valid(m) && m.taken
    ensures var g := Give(m); var others := m.pending - {m.owner};
            && g.taken == (others != {})
            && (g.taken ==> g.owner in others && forall p :: p in others ==> p <= g.owner)
            && g.pending == others && g.task.Keys == m.task.Keys
            && g.task[m.owner] == Task(m.owner, m.task[m.owner].status & !PEND_MTX)
            && (g.taken ==> g.owner in m.task
                            && g.task[g.owner] == Task(m.n - 1, m.task[g.owner].status & !PEND_MTX))
            && (forall p :: p in m.task && p != m.owner && (g.taken ==> p != g.owner) ==> g.task[p] == m.task[p])
            && (g.taken && g.task[g.owner].status == 0 ==> g.ready == m.ready + {m.n - 1})
            && (!g.taken ==> g.ready == m.ready - {m.n - 1} && g.owner == m.n - 1)
  {
    hide Valid;
    OwnerParts(m);
    if m.pending - {m.owner} != {} {
      var w := Top(m.pending - {m.owner});
      assert w in m.pending - {m.owner};
      assert m.ready - {m.n - 1} + {m.n - 1} == m.ready + {m.n - 1};
    }
  }

  // After a give that hands over, the scheduler picks the new owner
  lemma NewOwnerRuns(m: MutexState)
    requires Valid(m) && m.taken && forall p :: p in m.ready ==> p < m.n
    ensures var g := Give(m);
            g.taken && g.owner in g.task && g.task[g.owner].status == 0 ==> Top(g.ready) == m.n - 1
  {
    hide Give, Valid;
    OwnerParts(m);
    GiveHandsOver(m);
    TopIs(m.ready + {m.n - 1}, m.n - 1);
  }

  lemma OwnerParts(m: MutexState)
    requires Valid(m) && m.taken
    ensures m.owner in m.task && m.owner < m.n - 1 && m.pending <= m.task.Keys && m.n >= 2
  {}

  // ---- runs --------------------------------------------------------------------------------

  datatype Call = TakeBy(task: nat) | GiveByOwner

  // A caller is a ready task; no recursion, and only the owner gives
  ghost predicate Allowed(m: MutexState, c: Call)
  {
    match c
    case TakeBy(t) => t in m.task && t in m.ready && t !in m.pending && (m.taken ==> t != m.owner)
    case GiveByOwner => m.taken
  }

  ghost function Step(m: MutexState, c: Call): MutexState
    requires Valid(m) && Allowed(m, c)
  {
    match c
    case TakeBy(t) => Take(m, t).0
    case GiveByOwner => Give(m)
  }

  lemma StepValid(m: MutexState, c: Call)
    requires Valid(m) && Allowed(m, c)
    ensures Valid(Step(m, c))
  {
    hide Valid, Take, Give;
    match c
    case TakeBy(t) => TakeValid(m, t);
    case GiveByOwner => GiveValid(m);
  }

  ghost predicate Legal(m: MutexState, cs: seq<Call>)
    requires Valid(m)
    decreases |cs|
  {
    cs == [] || (Allowed(m, cs[0]) && (StepValid(m, cs[0]); Legal(Step(m, cs[0]), cs[1..])))
  }

  ghost function Run(m: MutexState, cs: seq<Call>): (r: MutexState)
    requires Valid(m) && Legal(m, cs)
    ensures Valid(r)
    decreases |cs|
  {
    if cs == [] then m else StepValid(m, cs[0]); Run(Step(m, cs[0]), cs[1..])
  }

  // Nothing taken, every task ready
  ghost function Init(n: nat, tasks: set<nat>): MutexState
  {
    MutexState(n, false, 0, {}, map p | p in tasks :: Task(p, 0), tasks)
  }

  lemma InitValid(n: nat, tasks: set<nat>)
    requires 2 <= n <= MAX_TASKS && forall p :: p in tasks ==> p < n - 1
    ensures Valid(Init(n, tasks)) && Traced(Init(n, tasks))
  {}

  // In every reachable state a task shows the reserved priority exactly when it owns the mutex, and
  // its own slot otherwise; nobody waits for a free mutex
  lemma OwnerAlone(n: nat, tasks: set<nat>, cs: seq<Call>, p: nat)
    requires 2 <= n <= MAX_TASKS && (forall q :: q in tasks ==> q < n - 1) && p in tasks
    requires Valid(Init(n, tasks)) && Legal(Init(n, tasks), cs)
    ensures var m := Run(Init(n, tasks), cs);
            && p in m.task
            && (m.task[p].prio == n - 1 <==> m.taken && p == m.owner)
            && (m.task[p].prio != n - 1 ==> m.task[p].prio == p)
            && (m.pending != {} ==> m.taken)
  {
    hide Legal, Run, Step, Allowed;
    RunKeeps(Init(n, tasks), cs);
  }

  lemma StepKeeps(m: MutexState, c: Call)
    requires Valid(m) && Allowed(m, c)
    ensures Step(m, c).n == m.n && Step(m, c).task.Keys == m.task.Keys
    ensures Traced(m) ==> Traced(Step(m, c))
  {
    hide Valid, Take, Give, Traced;
    match c
    case TakeBy(t) => TakeKeeps(m, t);
    case GiveByOwner => GiveKeeps(m);
  }

  lemma TakeKeeps(m: MutexState, t: nat)
    requires Valid(m) && Allowed(m, TakeBy(t))
    ensures Take(m, t).0.n == m.n && Take(m, t).0.task.Keys == m.task.Keys
    ensures Traced(m) ==> Traced(Take(m, t).0)
  {}

  lemma GiveKeeps(m: MutexState)
    requires Valid(m) && m.taken
    ensures Give(m).n == m.n && Give(m).task.Keys == m.task.Keys
    ensures Traced(m) ==> Traced(Give(m))
  {
    hide Give, Valid, Traced;
    GiveNames(m);
    if Traced(m) { GiveTraced(m); }
  }

  lemma GiveNames(m: MutexState)
    requires Valid(m) && m.taken
    ensures Give(m).n == m.n && Give(m).task.Keys == m.task.Keys
  {
    hide Unblocked, Shown;
    OwnerParts(m);
  }

  lemma GiveTraced(m: MutexState)
    requires Valid(m) && m.taken && Traced(m)
    ensures Traced(Give(m))
  {
    hide Give, Valid;
    OwnerParts(m);
    GiveNames(m);
    GiveHandsOver(m);
    Unpended();
  }

  lemma Unpended()
    ensures PEND_MTX & !PEND_MTX == 0 && (0 as bv16) & !PEND_MTX == 0
  {}

  lemma {:induction false} RunKeeps(m: MutexState, cs: seq<Call>)
    requires Valid(m) && Legal(m, cs)
    ensures Run(m, cs).n == m.n && Run(m, cs).task.Keys == m.task.Keys
    ensures Traced(m) ==> Traced(Run(m, cs))
    decreases |cs|
  {
    hide Valid, Step, Allowed, Traced;
    if cs != [] {
      StepValid(m, cs[0]);
      StepKeeps(m, cs[0]);
      RunKeeps(Step(m, cs[0]), cs[1..]);
    }
  }

  // Waiters are not ready; an owner that never waited for the mutex still is, in its own slot
  ghost predicate Traced(m: MutexState)
  {
    && (forall p :: p in m.pending ==> p !in m.ready)
    && (forall p :: p in m.ready ==> p < m.n)
    && (m.taken && m.owner !in m.pending ==> m.owner in m.ready)
    && (m.taken <==> m.n - 1 in m.ready)
    && (forall p :: p in m.task ==> m.task[p].status == if Waiting(m, p) then PEND_MTX else 0)
  }

  // p is in the wait list, not because it once waited for the mutex it now owns
  predicate Waiting(m: MutexState, p: nat)
  {
    p in m.pending && (m.taken ==> p != m.owner)
  }

  // What the mutex is for: in every reachable state its owner is what the scheduler picks, at the
  // reserved priority; when it is free nobody is ready at that priority. Exactly those who wait for it
  // are marked so
  lemma OwnerRuns(n: nat, tasks: set<nat>, cs: seq<Call>)
    requires 2 <= n <= MAX_TASKS && (forall q :: q in tasks ==> q < n - 1)
    requires Valid(Init(n, tasks)) && Legal(Init(n, tasks), cs)
    ensures var m := Run(Init(n, tasks), cs);
            && (m.taken ==> m.owner in m.task && m.task[m.owner] == Task(n - 1, 0) && Top(m.ready) == n - 1)
            && (!m.taken ==> n - 1 !in m.ready)
            && (forall p :: p in m.task ==> m.task[p].status == if Waiting(m, p) then PEND_MTX else 0)
  {
    hide Legal, Run, Step, Allowed;
    InitValid(n, tasks);
    RunKeeps(Init(n, tasks), cs);
    var m := Run(Init(n, tasks), cs);
    if m.taken { TopIs(m.ready, n - 1); }
  }

  // One would expect a task to be ready after giving the mutex up. In runs of mutex calls it is exactly
  // when it got the mutex without waiting: an owner that had to wait is still in the wait list, and
  // giving the mutex up does not put it back in the ready list
  lemma GiverReadyIff(n: nat, tasks: set<nat>, cs: seq<Call>)
    requires 2 <= n <= MAX_TASKS && (forall q :: q in tasks ==> q < n - 1)
    requires Valid(Init(n, tasks)) && Legal(Init(n, tasks), cs) && Run(Init(n, tasks), cs).taken
    ensures var m := Run(Init(n, tasks), cs);
            m.owner in Give(m).ready <==> m.owner !in m.pending
  {
    hide Legal, Run, Step, Allowed, Unblocked, Shown;
    InitValid(n, tasks);
    RunKeeps(Init(n, tasks), cs);
  }

  // Task 2 waits for task 1, gets the mutex and gives it up: its status word is 0, but it is not in
  // the ready list
  lemma WaiterNotReady()
    ensures var m := Init(4, {1, 2}); var cs := [TakeBy(1), TakeBy(2), GiveByOwner];
            && Valid(m) && Legal(m, cs)
            && var r := Run(m, cs);
            && r.taken && r.owner == 2 && 2 in r.task && r.task[2].status == 0
            && 2 !in Give(r).ready && 3 !in Give(r).ready
  {
    hide Valid;
    var m := Init(4, {1, 2});
    InitValid(4, {1, 2});
    var m1 := Take(m, 1).0;
    StepValid(m, TakeBy(1));
    assert m1.owner == 1 && m1.taken && m1.pending == {} && m1.ready == {1, 2, 3};
    var m2 := Take(m1, 2).0;
    StepValid(m1, TakeBy(2));
    assert m2.pending == {2} && m2.ready == {1, 3} && m2.owner == 1;
    TopIs({2}, 2);
    var m3 := Give(m2);
    StepValid(m2, GiveByOwner);
    assert m3.owner == 2 && m3.pending == {2} && 2 !in m3.ready;
    var cs := [TakeBy(1), TakeBy(2), GiveByOwner];
    assert cs[1..] == [TakeBy(2), GiveByOwner] && cs[1..][1..] == [GiveByOwner] && cs[1..][1..][1..] == [];
    assert Legal(m3, []) && Run(m3, []) == m3;
    assert Legal(m2, [GiveByOwner]) && Run(m2, [GiveByOwner]) == m3;
    assert Legal(m1, cs[1..]) && Run(m1, cs[1..]) == m3;
  }
}
