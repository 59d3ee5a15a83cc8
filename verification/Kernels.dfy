// The kernel as the program keeps it: priority lists, task table, semaphores, message queues and
// the scheduler's variables, updated in place by each call.
module Kernels {
  import opened PrioLists
  import opened TaskModel
  import opened KernelModel
  import opened TickModel
  import opened Rings

  // No two lists, and no two queues, share storage
  ghost predicate ListsApart(m: map<ListId, PrioList>)
  {
    forall i, j :: i in m && j in m && i != j ==> m[i] != m[j] && m[i].prioTbl != m[j].prioTbl
  }

  lemma ListApart(m: map<ListId, PrioList>, i: ListId, j: ListId)
    requires ListsApart(m) && i in m && j in m && i != j
    ensures m[i] != m[j] && m[i].prioTbl != m[j].prioTbl
  {}

  lemma ListAdded(m: map<ListId, PrioList>, id: ListId, l: PrioList)
    requires ListsApart(m) && forall j :: j in m ==> m[j] != l && m[j].prioTbl != l.prioTbl
    ensures ListsApart(m[id := l])
  {}

  ghost predicate RingsApart(m: map<nat, Ring>)
  {
    forall i, j :: i in m && j in m && i != j ==> m[i] != m[j] && m[i].base != m[j].base
  }

  lemma RingApart(m: map<nat, Ring>, i: nat, j: nat)
    requires RingsApart(m) && i in m && j in m && i != j
    ensures m[i] != m[j] && m[i].base != m[j].base
  {}

  lemma RingAdded(m: map<nat, Ring>, q: nat, r: Ring)
    requires RingsApart(m) && forall j :: j in m ==> m[j] != r && m[j].base != r.base
    ensures RingsApart(m[q := r])
  {}

  class Kernel {
    const n: nat
    var lists: map<ListId, PrioList>
    var active: nat
    var tcb: map<nat, Tcb>
    var tasksCount: nat
    var sems: map<nat, Sem>
    var rings: map<nat, Ring>
    var running: bool
    var irqCounter: nat
    var currentTask: nat
    var highPrioTask: nat

    // what the lists and the queues hold, and the objects they are stored in
    ghost var held: Lists
    ghost var stored: map<nat, Queue>
    ghost var listRepr: set<object>
    ghost var ringRepr: set<object>

    // The lists are well-formed and do not share storage
    ghost predicate ListsOk()
      reads `lists, `held, `listRepr, listRepr
    {
      && held.Keys == lists.Keys
      && (forall id :: id in lists ==> lists[id] in listRepr && lists[id].prioTbl in listRepr)
      && (forall id :: id in lists ==> lists[id].Valid() && lists[id].n == n && lists[id].contents == held[id])
      && ListsApart(lists)
    }

    ghost predicate RingsOk()
      reads `rings, `stored, `ringRepr, ringRepr
    {
      && stored.Keys == rings.Keys
      && (forall q :: q in rings ==> rings[q] in ringRepr && rings[q].base in ringRepr && rings[q].Valid())
      && (forall q :: q in rings ==> stored[q] == Queue(rings[q].numSlots, rings[q].contents))
      && RingsApart(rings)
    }

    ghost predicate Parts()
      reads `lists, `held, `listRepr, listRepr, `rings, `stored, `ringRepr, ringRepr
    {
      listRepr !! ringRepr && this !in listRepr + ringRepr && ListsOk() && RingsOk()
    }

    ghost function View(): KernelState
      reads this
    {
      KernelState(n, held, active, tcb, sems, stored, running, irqCounter, currentTask, highPrioTask)
    }

    ghost predicate Valid()
      reads this, listRepr, ringRepr
    {
      Parts() && tasksCount == |tcb.Keys| && Inv(View())
    }

    // Zeroed memory
    constructor (tasks: nat)
      ensures n == tasks && Blank() && fresh(listRepr)
    {
      n := tasks;
      active, tasksCount, running, irqCounter, currentTask, highPrioTask := 0, 0, false, 0, 0, 0;
      tcb, sems, rings, stored := map[], map[], map[], map[];
      lists, held, listRepr, ringRepr := map[], map[], {}, {};
    }

    ghost predicate Blank()
      reads this, listRepr, ringRepr
    {
      && Parts() && tasksCount == 0 && ringRepr == {}
      && View() == KernelState(n, map[], 0, map[], map[], map[], false, 0, 0, 0)
    }

    // The lists the kernel starts with, as uLipeRtosInit finds them before it installs the idle task
    method StartLists()
      requires Blank() && 1 <= n <= MAX_TASKS
      modifies `lists, `held, `listRepr
      ensures Valid() && View() == Init(n) && fresh(listRepr - old(listRepr))
    {
      hide ListsOk, RingsOk, Inv, Init;
      InitInv(n);
      InitIs(n);
      FirstLists();
    }

    method FirstLists()
      requires Parts() && held == map[] && 1 <= n <= MAX_TASKS
      modifies `lists, `held, `listRepr
      ensures Parts() && held == map[][Ready := {}][Timer(0) := {}][Timer(1) := {}] && fresh(listRepr - old(listRepr))
    {
      hide ListsOk, RingsOk;
      NewList(Ready);
      NewLists(Timer(0), Timer(1));
    }

    lemma InitIs(tasks: nat)
      ensures Init(tasks) == KernelState(tasks, map[][Ready := {}][Timer(0) := {}][Timer(1) := {}], 0,
                                         map[], map[], map[], false, 0, 0, 0)
    {}

    // ---- the lists -----------------------------------------------------------------------

    method SetPrio(p: nat, id: ListId)
      requires Parts() && id in held && p < n
      modifies `held, listRepr
      ensures Parts() && id in old(held) && held == Add(old(held), id, p)
    {
      hide PrioList.Valid, RingsOk, ListsApart;
      lists[id].Set(p);
      held := Add(held, id, p);
      forall j | j in lists && j != id ensures lists[j].Valid() && lists[j].contents == held[j] {
        ListApart(lists, id, j);
      }
    }

    method ClrPrio(p: nat, id: ListId)
      requires Parts() && id in held && p < n
      modifies `held, listRepr
      ensures Parts() && id in old(held) && held == Del(old(held), id, p)
    {
      hide PrioList.Valid, RingsOk, ListsApart;
      lists[id].Clr(p);
      held := Del(held, id, p);
      forall j | j in lists && j != id ensures lists[j].Valid() && lists[j].contents == held[j] {
        ListApart(lists, id, j);
      }
    }

    // Give task p a new status word; with nothing left to wait for it becomes ready
    method SetStatus(p: nat, status: bv16)
      requires Parts() && Ready in held && p in tcb && p < n
      modifies `tcb, `held, listRepr
      ensures Parts() && Ready in old(held)
      ensures tcb == old(tcb)[p := WithStatus(old(tcb)[p], status)]
      ensures held == if status == 0 then Add(old(held), Ready, p) else old(held)
    {
      hide ListsOk, RingsOk;
      tcb := tcb[p := tcb[p].(status := status)];
      if tcb[p].status == 0 {
        SetPrio(p, Ready);
      }
    }

    // The word found past the end of the table is arbitrary
    method FindHighPrio(id: ListId) returns (p: nat)
      requires Parts() && id in held
      ensures p == Top(held[id]) && p < n
    {
      hide PrioList.Valid, RingsOk;
      var beyond: bv32 := *;
      p := lists[id].FindHighPrio(beyond);
    }

    // ---- scheduling ------------------------------------------------------------------------

    // uLipeKernelTaskYield; a requested context switch is taken at once
    method TaskYield()
      requires Parts() && Ready in View().s && Inv(Yield(View()))
      modifies `highPrioTask, `currentTask
      ensures Parts() && Ready in old(View()).s && View() == Yield(old(View()))
    {
      hide ListsOk, RingsOk, Inv, Agree;
      if !running {
        return;
      }
      if irqCounter > 0 {
        return;
      }
      var prio := FindHighPrio(Ready);
      YieldNames(View());
      assert prio in tcb;
      highPrioTask := prio;
      if highPrioTask != currentTask {
        currentTask := highPrioTask;
      }
    }

    lemma YieldNames(k: KernelState)
      requires Ready in k.s && k.running && k.irq == 0 && Inv(Yield(k))
      ensures Top(k.s[Ready]) in k.tcb
    {
      hide Agree;
    }

    method RtosStart()
      requires Valid() && !running && 0 in tcb
      modifies `running, `highPrioTask, `currentTask
      ensures Valid() && Ready in old(View()).s && View() == Start(old(View()))
    {
      hide ListsOk, RingsOk, Inv, Agree;
      ghost var k := View();
      StartInv(k);
      highPrioTask := FindHighPrio(Ready);
      running := true;
      currentTask := highPrioTask;
    }

    method IrqEnter()
      requires Valid()
      modifies `irqCounter
      ensures Valid() && View() == IrqIn(old(View()))
    {
      hide ListsOk, RingsOk, Inv, Agree;
      IrqInInv(View());
      if !running {
        return;
      }
      if irqCounter < 0xFFFF {
        irqCounter := irqCounter + 1;
      }
    }

    method IrqLeave()
      requires Parts() && Ready in View().s && Inv(IrqOut(View()))
      modifies `irqCounter, `highPrioTask, `currentTask
      ensures Parts() && Ready in old(View()).s && View() == IrqOut(old(View()))
    {
      hide ListsOk, RingsOk, Inv, Agree, Yield;
      if !running {
        return;
      }
      if irqCounter > 0 {
        irqCounter := irqCounter - 1;
      }
      if irqCounter == 0 {
        TaskYield();
      }
    }

    // ---- tasks -----------------------------------------------------------------------------

    // uLipeTaskCreate; the flags say whether a task function was given and whether the two
    // allocations succeeded, delay is what the new control block happens to hold
    method TaskCreate(taskPrio: nat, hasTask: bool, gotTcb: bool, gotStack: bool, delay: nat) returns (r: Status)
      requires Valid()
      modifies `tcb, `tasksCount, `highPrioTask, `currentTask, `held, listRepr
      ensures Valid()
      ensures r == if !hasTask || taskPrio > n - 1 then InvalidParam
                   else if !gotTcb then OutOfTasks
                   else if !gotStack then OutOfMem
                   else if |old(tcb).Keys| >= n then OutOfTasks
                   else if taskPrio in old(tcb) then InvalidParam
                   else StatusOk
      ensures Ready in old(View()).s
      ensures View() == if r == StatusOk then Create(old(View()), taskPrio, delay) else old(View())
    {
      hide ListsOk, RingsOk, Inv, Agree, Yield;
      ghost var k := View();
      InvFormed(k);
      if !hasTask { return InvalidParam; }
      if taskPrio > n - 1 { return InvalidParam; }
      if !gotTcb { return OutOfTasks; }
      if !gotStack { return OutOfMem; }
      if tasksCount >= n { return OutOfTasks; }
      if taskPrio in tcb { return InvalidParam; }
      CreateInv(k, taskPrio, delay);
      tasksCount := tasksCount + 1;
      tcb := tcb[taskPrio := Tcb(delay, 0, Null, Null)];
      SetPrio(taskPrio, Ready);
      TaskYield();
      r := StatusOk;
    }

    // uLipeTaskSuspend
    method TaskSuspend(taskPrio: nat) returns (r: Status)
      requires Valid() && taskPrio < n
      modifies `tcb, `highPrioTask, `currentTask, `held, listRepr
      ensures Valid() && Ready in old(View()).s && (View(), r) == Suspend(old(View()), taskPrio)
    {
      hide ListsOk, RingsOk, Inv, Agree, Yield;
      ghost var k := View();
      SuspendInv(k, taskPrio);
      if taskPrio !in tcb { return InvalidParam; }
      if tcb[taskPrio].status != 0 { return CantSuspend; }
      ClrPrio(taskPrio, Ready);
      tcb := tcb[taskPrio := tcb[taskPrio].(status := tcb[taskPrio].status | SUSPEND)];
      TaskYield();
      r := StatusOk;
    }

    // uLipeTaskResume
    method TaskResume(taskPrio: nat) returns (r: Status)
      requires Valid() && taskPrio < n
      modifies `tcb, `highPrioTask, `currentTask, `held, listRepr
      ensures Valid() && Ready in old(View()).s && (View(), r) == Resume(old(View()), taskPrio)
    {
      hide ListsOk, RingsOk, Inv, Agree, Yield, WithStatus, Resume;
      ghost var k := View();
      ResumeInv(k, taskPrio);
      if taskPrio !in tcb {
        ResumeNone(k, taskPrio);
        return InvalidParam;
      }
      var status := tcb[taskPrio].status & !SUSPEND;
      SetStatus(taskPrio, status);
      ResumeIs(k, taskPrio, status, held, tcb);
      TaskYield();
      r := StatusOk;
    }

    lemma ResumeNone(k: KernelState, p: nat)
      requires Ready in k.s && p !in k.tcb
      ensures Resume(k, p) == (k, InvalidParam)
    {}

    // Mark task p as delayed and enter it in the active timer list
    method StartTimer(p: nat, ticks: nat)
      requires Parts() && Timer(active) in held && p in tcb && p < n
      modifies `tcb, `held, listRepr
      ensures Parts() && Timer(active) in old(held)
      ensures tcb == old(tcb)[p := DelayTcb(old(tcb)[p], ticks)]
      ensures held == Add(old(held), Timer(active), p)
    {
      hide ListsOk, RingsOk, DelayTcb;
      tcb := tcb[p := DelayTcb(tcb[p], ticks)];
      SetPrio(p, Timer(active));
    }

    // uLipeTaskDelay
    method TaskDelay(ticks: nat) returns (r: Status)
      requires Valid() && (ticks != 0 ==> MayBlock(View()))
      modifies `tcb, `highPrioTask, `currentTask, `held, listRepr
      ensures Valid() && r == StatusOk
      ensures Formed(old(View())) && (ticks != 0 ==> old(currentTask) in old(tcb))
      ensures View() == Delay(old(View()), ticks)
    {
      hide ListsOk, RingsOk, Inv, Agree, Yield, DelayTcb;
      ghost var k := View();
      DelayInv(k, ticks);
      if ticks != 0 {
        CurrentReady(k);
        ClrPrio(currentTask, Ready);
        StartTimer(currentTask, ticks);
        TaskYield();
      }
      r := StatusOk;
    }

    // ---- waiting ---------------------------------------------------------------------------

    // The body shared by the blocking services: the caller leaves the ready list for list id
    method BlockOn(id: ListId, timeout: nat)
      requires Valid() && MayBlock(View()) && id in held && IsWait(id)
      modifies `tcb, `highPrioTask, `currentTask, `held, listRepr
      ensures Valid()
      ensures Formed(old(View())) && old(currentTask) in old(tcb) && View() == Block(old(View()), id, timeout)
    {
      hide ListsOk, RingsOk, Inv, Agree, Yield, Block, PendTcb, DelayTcb;
      ghost var k := View();
      BlockInv(k, id, timeout);
      CurrentReady(k);
      var c := currentTask;
      SetPrio(c, id);
      ClrPrio(c, Ready);
      tcb := tcb[c := PendTcb(tcb[c], id)];
      if timeout != 0 {
        StartTimer(c, timeout);
      }
      BlockIs(k, id, timeout, held, tcb);
      TaskYield();
    }

    lemma BlockIs(k: KernelState, id: ListId, ticks: nat, s: Lists, tcb: Tasks)
      requires Formed(k) && id in k.s && IsWait(id) && k.current in k.tcb
      requires s == if ticks != 0 then Add(Del(Add(k.s, id, k.current), Ready, k.current), Timer(k.active), k.current)
                    else Del(Add(k.s, id, k.current), Ready, k.current)
      requires var t := PendTcb(k.tcb[k.current], id);
               tcb == k.tcb[k.current := if ticks != 0 then DelayTcb(t, ticks) else t]
      ensures Ready in s && Block(k, id, ticks) == Yield(k.(s := s, tcb := tcb))
    {
      hide Yield, PendTcb, DelayTcb;
      assert s == BlockLists(k.s, k.active, k.current, id, ticks);
    }

    // Take task p off list id and give it a new status word
    method Release(p: nat, id: ListId, status: bv16)
      requires Parts() && Ready in held && id in held && id != Ready && p in tcb && p < n
      modifies `tcb, `held, listRepr
      ensures Parts() && id in old(held) && Ready in old(held)
      ensures tcb == old(tcb)[p := WithStatus(old(tcb)[p], status)]
      ensures held == if status == 0 then Add(Del(old(held), id, p), Ready, p) else Del(old(held), id, p)
    {
      hide ListsOk, RingsOk, WithStatus;
      ClrPrio(p, id);
      SetStatus(p, status);
    }

    // SemPostLoop, QueueInsertLoop, QueueRemoveLoop: release the greatest waiter of list id
    method ReleaseTop(id: ListId)
      requires Parts() && Sound(View()) && id in held && IsWait(id)
      modifies `tcb, `held, listRepr
      ensures Parts() && Sound(View()) && tcb.Keys == old(tcb.Keys) && held.Keys == old(held.Keys)
      ensures Formed(old(View())) && id in old(held) && View() == WakeTop(old(View()), id)
    {
      hide ListsOk, RingsOk, Sound, Agree, WithStatus, WakeTop, WakeTcb, WakeStatus, Add, Del;
      ghost var k := View();
      WakeTopSound(k, id);
      var i := FindHighPrio(id);
      if i != 0 {
        var status := WakeStatus(tcb[i], id);
        Release(i, id, status);
        WakeIs(k, id, i, status, held, tcb);
      } else {
        WakeNone(k, id);
      }
    }

    lemma WakeIs(k: KernelState, id: ListId, i: nat, st: bv16, s: Lists, tcb: Tasks)
      requires Formed(k) && id in k.s && IsWait(id)
      requires i == Top(k.s[id]) && i != 0 && i in k.tcb
      requires st == WakeStatus(k.tcb[i], id)
      requires s == if st == 0 then Add(Del(k.s, id, i), Ready, i) else Del(k.s, id, i)
      requires tcb == k.tcb[i := WithStatus(k.tcb[i], st)]
      ensures WakeTop(k, id) == k.(s := s, tcb := tcb) && tcb.Keys == k.tcb.Keys && s.Keys == k.s.Keys
    {}

    lemma WakeNone(k: KernelState, id: ListId)
      requires Formed(k) && id in k.s && Top(k.s[id]) == 0
      ensures WakeTop(k, id) == k
    {}

    // Release the greatest waiter of list id, then reschedule
    method Announce(id: ListId)
      requires Parts() && Sound(View()) && id in held && IsWait(id)
      requires Formed(View()) && Inv(Yield(WakeTop(View(), id)))
      modifies `tcb, `highPrioTask, `currentTask, `held, listRepr
      ensures Parts() && tcb.Keys == old(tcb.Keys)
      ensures Formed(old(View())) && id in old(held) && View() == Yield(WakeTop(old(View()), id))
    {
      hide ListsOk, RingsOk, Inv, Sound, Agree, Yield, WakeTop;
      ReleaseTop(id);
      TaskYield();
    }

    // ---- semaphores --------------------------------------------------------------------------

    // uLipeSemTake up to the point where a caller that finds no unit sleeps
    method TakeSem(h: nat, timeout: nat) returns (r: Status)
      requires Valid() && (TakeBlocks(View(), h) ==> MayBlock(View()))
      modifies `sems, `tcb, `highPrioTask, `currentTask, `held, listRepr
      ensures Valid() && Formed(old(View())) && (TakeBlocks(old(View()), h) ==> old(currentTask) in old(tcb))
      ensures (View(), r) == SemTake(old(View()), h, timeout)
    {
      hide ListsOk, RingsOk, Inv, Sound, Agree, Yield, Block;
      ghost var k := View();
      SemTakeInv(k, h, timeout);
      if h !in sems {
        return InvalidParam;
      }
      if sems[h].count == 0 {
        BlockOn(SemWait(h), timeout);
        return Waiting;
      }
      sems := sems[h := sems[h].(count := sems[h].count - 1)];
      r := StatusOk;
    }

    // The rest of uLipeSemTake, when the caller that slept runs again
    method RetakeSem(h: nat) returns (r: Status)
      requires Valid() && h in sems
      modifies `sems
      ensures Valid() && (View(), r) == SemRetake(old(View()), h)
    {
      hide ListsOk, RingsOk, Inv, Sound, Agree, Yield;
      SemRetakeInv(View(), h);
      if sems[h].count > 0 {
        sems := sems[h := sems[h].(count := sems[h].count - 1)];
        r := StatusOk;
      } else {
        r := Timeout;
      }
    }

    // uLipeSemGive
    method GiveSem(h: nat, count: nat) returns (r: Status)
      requires Valid()
      modifies `sems, `tcb, `highPrioTask, `currentTask, `held, listRepr
      ensures Valid() && Formed(old(View())) && (View(), r) == SemGive(old(View()), h, count)
    {
      hide ListsOk, RingsOk, Inv, Sound, Agree, Yield, WakeTop;
      ghost var k := View();
      SemGiveInv(k, h, count);
      if h !in sems {
        return InvalidParam;
      }
      InvParts(k);
      SetCountSound(k, h, Capped(k.sems[h], count));
      var total := sems[h].count + count;
      if total > sems[h].limit {
        sems := sems[h := sems[h].(count := sems[h].limit)];
      } else {
        sems := sems[h := sems[h].(count := sems[h].count + count)];
      }
      assert View() == SetCount(k, h, Capped(k.sems[h], count));
      Announce(SemWait(h));
      r := StatusOk;
    }

    // ---- creating objects --------------------------------------------------------------------

    // A new wait list starts empty
    method NewList(id: ListId)
      requires Parts() && id !in held && 1 <= n <= MAX_TASKS
      modifies `lists, `held, `listRepr
      ensures Parts() && held == old(held)[id := {}] && fresh(listRepr - old(listRepr))
    {
      hide PrioList.Valid, RingsOk, ListsApart;
      var l := new PrioList(n);
      ListAdded(lists, id, l);
      lists := lists[id := l];
      listRepr := listRepr + {l, l.prioTbl};
      held := held[id := {}];
    }

    method NewLists(a: ListId, b: ListId)
      requires Parts() && a !in held && b !in held && a != b && 1 <= n <= MAX_TASKS
      modifies `lists, `held, `listRepr
      ensures Parts() && held == old(held)[a := {}][b := {}] && fresh(listRepr - old(listRepr))
    {
      hide ListsOk, RingsOk;
      NewList(a);
      NewList(b);
    }

    // uLipeSemCreate; got says whether a block could be allocated, h is its address
    method CreateSem(h: nat, initCount: nat, limitCount: nat, got: bool) returns (r: Status)
      requires Valid() && h !in sems
      modifies `sems, `lists, `held, `listRepr
      ensures Valid() && fresh(listRepr - old(listRepr))
      ensures r == if got then StatusOk else OutOfSem
      ensures View() == if got then SemCreate(old(View()), h, initCount, limitCount) else old(View())
    {
      hide ListsOk, RingsOk, Inv, Agree;
      if !got {
        return OutOfSem;
      }
      SemCreateInv(View(), h, initCount, limitCount);
      InvNames(View());
      sems := sems[h := Sem(initCount, limitCount)];
      NewList(SemWait(h));
      r := StatusOk;
    }

    lemma InvNames(k: KernelState)
      requires Inv(k)
      ensures 1 <= k.n <= MAX_TASKS
      ensures forall m :: SemWait(m) in k.s <==> m in k.sems
      ensures forall q :: SlotWait(q) in k.s <==> q in k.queues
      ensures forall q :: InsertWait(q) in k.s <==> q in k.queues
      ensures forall q :: q in k.queues ==> |k.queues[q].held| <= k.queues[q].slots
    {
      hide Agree;
    }

    // uLipeQueueCreate; the flags say whether the control block and the slots could be allocated,
    // h is the address of the control block
    method CreateQueue(h: nat, slots: nat, gotBlock: bool, gotSlots: bool) returns (r: Status)
      requires Valid() && h !in rings && h !in stored
      modifies `rings, `stored, `ringRepr, `lists, `held, `listRepr
      ensures Valid() && fresh(listRepr - old(listRepr)) && fresh(ringRepr - old(ringRepr))
      ensures r == if !gotBlock then OutOfQueue else if !gotSlots then InvalidParam else StatusOk
      ensures View() == if r == StatusOk then QueueCreate(old(View()), h, slots) else old(View())
    {
      hide ListsOk, RingsOk, Inv, Agree;
      if !gotBlock {
        return OutOfQueue;
      }
      if !gotSlots {
        return InvalidParam;
      }
      InstallQueue(h, slots);
      r := StatusOk;
    }

    method InstallQueue(h: nat, slots: nat)
      requires Valid() && h !in rings && h !in stored
      modifies `rings, `stored, `ringRepr, `lists, `held, `listRepr
      ensures Valid() && fresh(listRepr - old(listRepr)) && fresh(ringRepr - old(ringRepr))
      ensures View() == QueueCreate(old(View()), h, slots)
    {
      hide ListsOk, RingsOk, Inv, QueueCreate;
      QueueCreateInv(View(), h, slots);
      InvNames(View());
      QueueCreateIs(View(), h, slots);
      NewRing(h, slots);
      NewLists(SlotWait(h), InsertWait(h));
    }

    lemma QueueCreateIs(k: KernelState, h: nat, slots: nat)
      ensures QueueCreate(k, h, slots) ==
              k.(s := k.s[SlotWait(h) := {}][InsertWait(h) := {}], queues := k.queues[h := Queue(slots, [])])
    {}

    // ---- queue storage -----------------------------------------------------------------------

    method NewRing(h: nat, slots: nat)
      requires Parts() && h !in stored
      modifies `rings, `stored, `ringRepr
      ensures Parts() && stored == old(stored)[h := Queue(slots, [])] && fresh(ringRepr - old(ringRepr))
    {
      hide Ring.Valid, ListsOk, RingsApart;
      var r := new Ring(slots);
      RingAdded(rings, h, r);
      rings := rings[h := r];
      ringRepr := ringRepr + {r, r.base};
      stored := stored[h := Queue(slots, [])];
    }

    method Put(h: nat, data: nat)
      requires Parts() && h in stored && |stored[h].held| < stored[h].slots && data != 0
      modifies `stored, ringRepr
      ensures Parts() && h in old(stored)
      ensures stored == old(stored)[h := old(stored)[h].(held := old(stored)[h].held + [data])]
    {
      hide ListsOk, RingsApart, Ring.Valid;
      rings[h].Held();
      rings[h].Put(data);
      stored := stored[h := stored[h].(held := stored[h].held + [data])];
      forall j | j in rings && j != h
        ensures rings[j].Valid() && stored[j] == Queue(rings[j].numSlots, rings[j].contents) {
        RingApart(rings, h, j);
      }
    }

    method Get(h: nat) returns (ptr: nat)
      requires Parts() && h in stored && |stored[h].held| > 0
      modifies `stored, ringRepr
      ensures Parts() && h in old(stored) && |old(stored)[h].held| > 0
      ensures ptr == old(stored)[h].held[0] && ptr != 0
      ensures stored == old(stored)[h := old(stored)[h].(held := old(stored)[h].held[1..])]
    {
      hide ListsOk, RingsApart, Ring.Valid;
      rings[h].Held();
      ptr := rings[h].Get();
      stored := stored[h := stored[h].(held := stored[h].held[1..])];
      forall j | j in rings && j != h
        ensures rings[j].Valid() && stored[j] == Queue(rings[j].numSlots, rings[j].contents) {
        RingApart(rings, h, j);
      }
    }

    method Clear(h: nat)
      requires Parts() && h in stored
      modifies `stored, ringRepr
      ensures Parts() && h in old(stored)
      ensures stored == old(stored)[h := old(stored)[h].(held := [])]
    {
      hide ListsOk, RingsApart, Ring.Valid;
      rings[h].Flush();
      stored := stored[h := stored[h].(held := [])];
      forall j | j in rings && j != h
        ensures rings[j].Valid() && stored[j] == Queue(rings[j].numSlots, rings[j].contents) {
        RingApart(rings, h, j);
      }
    }

    // Whether queue h is full, or empty, as its counters say
    method Usage(h: nat) returns (full: bool, empty: bool)
      requires Parts() && h in stored
      ensures h in rings && full == (|stored[h].held| >= stored[h].slots) && empty == (|stored[h].held| == 0)
    {
      hide ListsOk, RingsApart, Ring.Valid;
      rings[h].Held();
      full := rings[h].used >= rings[h].numSlots;
      empty := rings[h].used == 0;
    }

    // ---- queues ------------------------------------------------------------------------------

    method InsertFree(h: nat, data: nat)
      requires Valid() && data != 0 && h in stored && |stored[h].held| < stored[h].slots
      modifies `stored, `tcb, `highPrioTask, `currentTask, `held, listRepr, ringRepr
      ensures Valid() && Formed(old(View())) && h in old(stored)
      ensures var k := SetHeld(old(View()), h, old(stored)[h].held + [data]);
              InsertWait(h) in k.s && Formed(k) && View() == Yield(WakeTop(k, InsertWait(h)))
    {
      hide ListsOk, RingsOk, Inv, Sound, Agree, Yield, WakeTop, SetHeld;
      ghost var k := View();
      InvFormed(k);
      ghost var g := SetHeld(k, h, k.queues[h].held + [data]);
      InsertFreeInv(k, h, data);
      Put(h, data);
      HeldIs(k, h, k.queues[h].held + [data], stored);
      Announce(InsertWait(h));
    }

    lemma HeldIs(k: KernelState, h: nat, held: seq<nat>, stored: map<nat, Queue>)
      requires h in k.queues && stored == k.queues[h := k.queues[h].(held := held)]
      ensures SetHeld(k, h, held) == k.(queues := stored)
    {}

    // uLipeQueueInsert
    method InsertQueue(h: nat, data: nat, opt: nat, timeout: nat) returns (r: Status)
      requires Valid() && (InsertBlocks(View(), h, data, opt) ==> MayBlock(View()))
      modifies `stored, `tcb, `highPrioTask, `currentTask, `held, listRepr, ringRepr
      ensures Valid() && Formed(old(View()))
      ensures InsertBlocks(old(View()), h, data, opt) ==> old(currentTask) in old(tcb)
      ensures (View(), r) == QueueInsert(old(View()), h, data, opt, timeout)
    {
      hide ListsOk, RingsOk, Inv, Sound, Agree, Yield, WakeTop, Block;
      ghost var k := View();
      QueueInsertInv(k, h, data, opt, timeout);
      if data == 0 {
        return InvalidParam;
      }
      if h !in rings {
        StoredKeys();
        return InvalidParam;
      }
      StoredKeys();
      var full, _ := Usage(h);
      if full {
        if opt == BLOCK_FULL {
          BlockOn(SlotWait(h), timeout);
        }
        return QueueFull;
      }
      InsertFree(h, data);
      r := StatusOk;
    }

    lemma StoredKeys()
      requires Parts()
      ensures stored.Keys == rings.Keys
    {
      hide ListsOk;
    }

    method RemoveHeld(h: nat) returns (ptr: nat)
      requires Valid() && h in stored && |stored[h].held| > 0
      modifies `stored, `tcb, `highPrioTask, `currentTask, `held, listRepr, ringRepr
      ensures Valid() && Formed(old(View())) && h in old(stored) && |old(stored)[h].held| > 0
      ensures ptr == old(stored)[h].held[0] && ptr != 0
      ensures var k := SetHeld(old(View()), h, old(stored)[h].held[1..]);
              SlotWait(h) in k.s && Formed(k) && View() == Yield(WakeTop(k, SlotWait(h)))
    {
      hide ListsOk, RingsOk, Inv, Sound, Agree, Yield, WakeTop, SetHeld;
      ghost var k := View();
      InvFormed(k);
      RemoveHeldInv(k, h);
      ptr := Get(h);
      HeldIs(k, h, k.queues[h].held[1..], stored);
      Announce(SlotWait(h));
    }

    // uLipeQueueRemove
    method RemoveQueue(h: nat, opt: nat, timeout: nat) returns (ptr: nat, err: Status)
      requires Valid() && (RemoveBlocks(View(), h, opt) ==> MayBlock(View()))
      modifies `stored, `tcb, `highPrioTask, `currentTask, `held, listRepr, ringRepr
      ensures Valid() && Formed(old(View())) && (RemoveBlocks(old(View()), h, opt) ==> old(currentTask) in old(tcb))
      ensures (View(), ptr, err) == QueueRemove(old(View()), h, opt, timeout)
      ensures ptr != 0 <==> err == StatusOk
    {
      hide ListsOk, RingsOk, Inv, Sound, Agree, Yield, WakeTop, Block;
      ghost var k := View();
      QueueRemoveInv(k, h, opt, timeout);
      ptr := 0;
      StoredKeys();
      if h !in rings {
        return 0, InvalidParam;
      }
      var _, empty := Usage(h);
      if empty {
        if opt == BLOCK_EMPTY {
          BlockOn(InsertWait(h), timeout);
        }
        return 0, QueueEmpty;
      }
      ptr := RemoveHeld(h);
      err := StatusOk;
    }

    // uLipeQueueFlush
    method FlushQueue(h: nat) returns (r: Status)
      requires Valid()
      modifies `stored, `tcb, `highPrioTask, `currentTask, `held, listRepr, ringRepr
      ensures Valid() && Formed(old(View())) && (View(), r) == QueueFlush(old(View()), h)
    {
      hide ListsOk, RingsOk, Inv, Sound, Agree, Yield, WakeTop;
      ghost var k := View();
      QueueFlushInv(k, h);
      StoredKeys();
      if h !in rings {
        return InvalidParam;
      }
      FlushHeld(h);
      r := StatusOk;
    }

    method FlushHeld(h: nat)
      requires Valid() && h in stored
      modifies `stored, `tcb, `highPrioTask, `currentTask, `held, listRepr, ringRepr
      ensures Valid() && Formed(old(View())) && h in old(stored) && View() == QueueFlush(old(View()), h).0
    {
      hide ListsOk, RingsOk, Inv, Sound, Agree, Yield, WakeTop, SetHeld;
      ghost var k := View();
      QueueFlushInv(k, h);
      InvParts(k);
      SetHeldSound(k, h, []);
      Clear(h);
      HeldIs(k, h, [], stored);
      ReleaseTop(SlotWait(h));
      Announce(InsertWait(h));
    }

    // ---- the tick ----------------------------------------------------------------------------

    // Take task p off the list a back pointer names
    method LeaveList(p: nat, at: Pointer)
      requires Parts() && p < n && (at.To? ==> at.list in held)
      modifies `held, listRepr
      ensures Parts() && (at.To? ==> at.list in old(held)) && held == Leave(old(held), at, p)
    {
      hide ListsOk, RingsOk;
      if at.To? {
        ClrPrio(p, at.list);
      }
    }

    // One turn of the loop: the entry of task i, of which t is the control block
    method Turn(i: nat, t: Tcb)
      requires Parts() && HasLists(held, active, t) && i in tcb && i < n && t.delayTime > 0
      modifies `tcb, `held, listRepr
      ensures Parts() && HasLists(old(held), active, t)
      ensures held == TurnLists(old(held), active, t, i) && tcb == old(tcb)[i := TickTcb(t)]
    {
      hide ListsOk, RingsOk, Leave;
      ClrPrio(i, Timer(active));
      var t1 := t.(delayTime := t.delayTime - 1);
      if t1.delayTime == 0 {
        t1 := t1.(status := 0);
        LeaveList(i, t.queueBmp);
        t1 := t1.(queueBmp := Null);
        LeaveList(i, t.semBmp);
        t1 := t1.(semBmp := Null);
        SetPrio(i, Ready);
      } else if t1.status & PEND_DELAY == 0 {
      } else {
        SetPrio(i, Timer(Flip(active)));
      }
      tcb := tcb[i := t1];
    }

    // The entries done of k's active timer list have been processed
    ghost predicate Progress(k: KernelState, done: set<nat>)
      reads `held, `tcb, `active
    {
      && Ready in k.s && Timer(k.active) in k.s && done <= k.s[Timer(k.active)]
      && active == k.active && held == TickLists(k.s, k.tcb, k.active, done) && tcb == TickTasks(k.tcb, done)
    }

    // Process entry i, the greatest one left, and find the next
    method NextEntry(i: nat, ghost k: KernelState, ghost done: set<nat>) returns (next: nat)
      requires Parts() && Sound(k) && k.n == n && Progress(k, done)
      requires i != 0 && i == Top(k.s[Timer(k.active)] - done)
      modifies `tcb, `held, listRepr
      ensures Parts() && Progress(k, done + {i})
      ensures next == Top(k.s[Timer(k.active)] - (done + {i}))
      ensures |k.s[Timer(k.active)] - (done + {i})| < |k.s[Timer(k.active)] - done|
    {
      hide ListsOk, RingsOk, Sound, Agree, TurnLists, TickLists, TickTasks, HasLists, Formed, Shaped;
      SoundParts(k);
      Pending(k.s, k.tcb, k.active, done);
      TimerBound(k, i);
      TurnIs(k.s, k.tcb, k.active, done, i);
      assert tcb[i].delayTime > 0;
      Turn(i, tcb[i]);
      Smaller(k.s[Timer(k.active)], done, i);
      Pending(k.s, k.tcb, k.active, done + {i});
      next := FindHighPrio(Timer(active));
    }

    // The loop of uLipeKernelRtosTick, from its first entry to the last
    method Drain(first: nat, ghost k: KernelState)
      requires Parts() && Sound(k) && k.n == n && Progress(k, {}) && first == Top(k.s[Timer(k.active)] - {})
      modifies `tcb, `held, listRepr
      ensures Parts() && Timer(k.active) in k.s && Progress(k, k.s[Timer(k.active)])
    {
      hide ListsOk, RingsOk, Sound, TickLists, TickTasks;
      ghost var all := k.s[Timer(k.active)];
      ghost var done: set<nat> := {};
      var i := first;
      while i != 0
        invariant Parts() && Progress(k, done) && i == Top(all - done)
        decreases |all - done|
      {
        var next := NextEntry(i, k, done);
        done := done + {i};
        i := next;
      }
      Finished(k, done);
    }

    // The entries of the active timer list, then the swap of the two lists
    method TickLoop()
      requires Parts() && Sound(View())
      modifies `active, `tcb, `held, listRepr
      ensures Parts() && tcb.Keys == old(tcb.Keys)
      ensures Formed(old(View())) && View() == TickBody(old(View()))
    {
      hide ListsOk, RingsOk, Sound, Agree, TickLists, TickTasks, Formed, Shaped, TickBody, Progress;
      ghost var k := View();
      SoundParts(k);
      TimerListed(k);
      BodyIs(k);
      Begun(k);
      var i := FindHighPrio(Timer(active));
      if i != 0 {
        Drain(i, k);
        Finished(k, k.s[Timer(k.active)]);
        active := Flip(active);
      } else {
        Finished(k, {});
      }
    }

    lemma Begun(k: KernelState)
      requires Ready in k.s && Timer(k.active) in k.s && active == k.active && held == k.s && tcb == k.tcb
      ensures Progress(k, {}) && k.s[Timer(k.active)] - {} == k.s[Timer(k.active)]
    {
      hide TickLists, TickTasks;
      NoneDone(k.s, k.tcb, k.active);
    }

    lemma Finished(k: KernelState, done: set<nat>)
      requires Sound(k) && Progress(k, done)
      ensures Timer(k.active) in k.s && active == k.active
      ensures held == TickLists(k.s, k.tcb, k.active, done) && tcb == TickTasks(k.tcb, done)
      ensures Top(k.s[Timer(k.active)] - done) == 0 ==> done == k.s[Timer(k.active)]
    {
      hide TickLists, TickTasks, Agree, Sound;
      SoundParts(k);
      Pending(k.s, k.tcb, k.active, done);
    }

    lemma TimerListed(k: KernelState)
      requires Formed(k)
      ensures Ready in k.s && Timer(k.active) in k.s
    {}

    lemma BodyIs(k: KernelState)
      requires Ready in k.s && Timer(k.active) in k.s
      ensures var all := k.s[Timer(k.active)];
              TickBody(k) == if all == {} then k
                             else k.(s := TickLists(k.s, k.tcb, k.active, all), tcb := TickTasks(k.tcb, all),
                                     active := Flip(k.active))
    {
      hide TickLists, TickTasks;
    }

    lemma TimerBound(k: KernelState, i: nat)
      requires Sound(k) && Timer(k.active) in k.s && i in k.s[Timer(k.active)]
      ensures i < k.n
    {
      assert TaskAgrees(k.s, k.tcb, k.active, i);
    }

    lemma Smaller(all: set<nat>, done: set<nat>, i: nat)
      requires i in all && i !in done
      ensures |all - (done + {i})| < |all - done|
    {
      assert all - (done + {i}) == (all - done) - {i};
    }

    // uLipeKernelRtosTick
    method RtosTick()
      requires Valid()
      modifies `irqCounter, `active, `tcb, `highPrioTask, `currentTask, `held, listRepr
      ensures Valid() && Formed(old(View())) && View() == Tick(old(View()))
    {
      hide ListsOk, RingsOk, Inv, Sound, Agree, TickBody, IrqOut, IrqIn;
      TickInv(View());
      if !running {
        return;
      }
      IrqEnter();
      InvParts(View());
      ghost var k1 := View();
      TickLoop();
      TickBodyKeeps(k1);
      IrqLeave();
    }
  }
}
