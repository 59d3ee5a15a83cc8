// The mutex as the program keeps it: control blocks reached through a table in which the reserved
// slot points to the owner's block.
module Mutexes {
  import opened Bits
  import opened PrioLists
  import opened MutexModel

  class ControlBlock {
    var taskPrio: nat
    var taskStatus: bv16

    constructor (prio: nat)
      ensures taskPrio == prio && taskStatus == 0
    {
      taskPrio, taskStatus := prio, 0;
    }

    function View(): Task
      reads this
    {
      Task(taskPrio, taskStatus)
    }
  }

  class Mutex {
    const n: nat
    const tcbPtrTbl: array<ControlBlock?>
    const tasksPending: PrioList
    const taskPrioList: PrioList
    var mutexTaken: bool
    var mutexOwner: nat
    // what the table's own slots show, and the blocks they point to
    ghost var tasks: map<nat, Task>
    ghost var blocks: set<ControlBlock>

    // The table is not the storage of either list, and no block is a list or the mutex
    ghost predicate Apart()
      reads `blocks
    {
      var table: object := tcbPtrTbl;
      && table != tasksPending.prioTbl && table != taskPrioList.prioTbl
      && forall b: object :: b in blocks ==>
           b !in {this, tcbPtrTbl, tasksPending, taskPrioList, tasksPending.prioTbl, taskPrioList.prioTbl}
    }

    ghost predicate ListsOk()
      reads tasksPending, tasksPending.prioTbl, taskPrioList, taskPrioList.prioTbl
    {
      && tasksPending != taskPrioList && tasksPending.prioTbl != taskPrioList.prioTbl
      && tasksPending.Valid() && taskPrioList.Valid() && tasksPending.n == n && taskPrioList.n == n
    }

    // The slots below the reserved one point to different blocks, or to none
    ghost predicate TableOk()
      reads `tasks, `blocks, tcbPtrTbl, blocks
    {
      && tcbPtrTbl.Length == n && 2 <= n <= MAX_TASKS
      && (forall p :: 0 <= p < n - 1 ==> (tcbPtrTbl[p] != null <==> p in tasks))
      && (forall p :: p in tasks ==> p < n - 1 && tcbPtrTbl[p] in blocks && tcbPtrTbl[p].View() == tasks[p])
      && (forall p, q :: p in tasks && q in tasks && p != q ==> tcbPtrTbl[p] != tcbPtrTbl[q])
    }

    ghost function View(): MutexState
      reads this, tasksPending, taskPrioList
    {
      MutexState(n, mutexTaken, mutexOwner, tasksPending.contents, tasks, taskPrioList.contents)
    }

    ghost predicate Valid()
      reads this, tasksPending, tasksPending.prioTbl, taskPrioList, taskPrioList.prioTbl, tcbPtrTbl, blocks
    {
      && ListsOk() && TableOk() && MutexModel.Valid(View())
      && Apart() && (mutexTaken ==> tcbPtrTbl[n - 1] == tcbPtrTbl[mutexOwner])
    }

    // uLipeMutexCreate, over the task table and the ready list given
    constructor (tasksMax: nat, table: array<ControlBlock?>, readyList: PrioList, ghost bs: set<ControlBlock>)
      requires 2 <= tasksMax <= MAX_TASKS && table.Length == tasksMax && readyList.Valid() && readyList.n == tasksMax
      requires forall p :: 0 <= p < tasksMax - 1 && table[p] != null ==> table[p] in bs && table[p].taskPrio == p
      requires forall p, q :: 0 <= p < q < tasksMax - 1 && table[p] != null ==> table[p] != table[q]
      ensures Valid() && tcbPtrTbl == table && taskPrioList == readyList && !mutexTaken && mutexOwner == 0
      ensures View().pending == {} && View().ready == readyList.contents
      ensures fresh(tasksPending) && fresh(tasksPending.prioTbl)
    {
      n, tcbPtrTbl, taskPrioList := tasksMax, table, readyList;
      tasksPending := new PrioList(tasksMax);
      mutexTaken, mutexOwner := false, 0;
      blocks := bs;
      tasks := map p | 0 <= p < tasksMax - 1 && table[p] != null :: table[p].View();
    }

    // Overwrite the block slot k points to, which is that of task p
    method Store(k: nat, t: Task, ghost p: nat)
      requires TableOk() && p in tasks && k < n && tcbPtrTbl[k] == tcbPtrTbl[p]
      modifies `tasks, blocks
      ensures TableOk() && tasks == old(tasks)[p := t]
    {
      var b := tcbPtrTbl[k];
      b.taskPrio := t.prio;
      b.taskStatus := t.status;
      tasks := tasks[p := t];
    }

    // The block slot k points to, which is that of task p
    method Load(k: nat, ghost p: nat) returns (t: Task)
      requires TableOk() && p in tasks && k < n && tcbPtrTbl[k] == tcbPtrTbl[p]
      ensures t == tasks[p]
    {
      t := tcbPtrTbl[k].View();
    }

    // Point the reserved slot to task c's block, raise its priority and make the slot ready
    method MakeOwner(c: nat)
      requires ListsOk() && TableOk() && Apart() && c in tasks
      modifies `tasks, tcbPtrTbl, blocks, taskPrioList, taskPrioList.prioTbl
      ensures ListsOk() && TableOk() && c in old(tasks) && tcbPtrTbl[n - 1] == tcbPtrTbl[c] == old(tcbPtrTbl[c])
      ensures var t := Unblocked(Shown(old(tasks)[c], n - 1));
              && tasks == old(tasks)[c := t]
              && taskPrioList.contents ==
                 if t.status == 0 then old(taskPrioList.contents) + {n - 1} else old(taskPrioList.contents)
    {
      hide Unblocked, Shown, PrioList.Valid;
      tcbPtrTbl[n - 1] := tcbPtrTbl[c];
      assert TableOk();
      var t := Load(n - 1, c);
      t := Unblocked(Shown(t, n - 1));
      Store(n - 1, t, c);
      if t.status == 0 {
        taskPrioList.Set(n - 1);
      }
    }

    // uLipeMutexTake, called by task c
    method Take(c: nat) returns (r: Status)
      requires Valid() && c in tasks && (mutexTaken ==> c != mutexOwner)
      modifies this, tcbPtrTbl, blocks, tasksPending, tasksPending.prioTbl, taskPrioList, taskPrioList.prioTbl
      ensures Valid() && c in old(tasks) && (View(), r) == MutexModel.Take(old(View()), c) && blocks == old(blocks)
    {
      hide TableOk, Unblocked, Blocked, Shown, PrioList.Valid, MutexModel.Valid;
      TakeValid(View(), c);
      Shows(View(), c);
      var t := Load(c, c);
      if mutexTaken {
        tasksPending.Set(t.prio);
        taskPrioList.Clr(t.prio);
        Store(c, Blocked(t), c);
        return MutexOwned;
      }
      mutexTaken := true;
      mutexOwner := t.prio;
      MakeOwner(c);
      r := StatusOk;
    }

    // The owner's block, reached through the reserved slot, gives up its priority
    method LowerOwner()
      requires Valid() && mutexTaken
      modifies `tasks, blocks, tasksPending, tasksPending.prioTbl, taskPrioList, taskPrioList.prioTbl
      ensures ListsOk() && TableOk() && Apart()
      ensures old(mutexOwner) in old(tasks) && View() == Lower(old(View())) && blocks == old(blocks)
    {
      hide TableOk, Unblocked, Shown, PrioList.Valid, MutexModel.Valid;
      Owns(View());
      var t := Load(n - 1, mutexOwner);
      taskPrioList.Clr(t.prio);
      t := Unblocked(t);
      Store(n - 1, t, mutexOwner);
      Store(mutexOwner, Shown(t, mutexOwner), mutexOwner);
      tasksPending.Clr(mutexOwner);
    }

    // uLipeMutexGive, called by the owner
    method Give()
      requires Valid() && mutexTaken
      modifies this, tcbPtrTbl, blocks, tasksPending, tasksPending.prioTbl, taskPrioList, taskPrioList.prioTbl
      ensures Valid() && blocks == old(blocks)
      ensures old(mutexOwner) in old(tasks) && old(tasksPending.contents) <= old(tasks).Keys
      ensures View() == MutexModel.Give(old(View()))
    {
      hide TableOk, Unblocked, Shown, PrioList.Valid, MutexModel.Valid, Lower;
      ghost var m := View();
      Owns(m);
      GiveValid(m);
      LowerKeeps(m);
      LowerOwner();
      var empty := IsEmpty(tasksPending);
      if !empty {
        var beyond: bv32 := *;
        mutexOwner := tasksPending.FindHighPrio(beyond);
        MakeOwner(mutexOwner);
        return;
      }
      mutexTaken := false;
      mutexOwner := n - 1;
    }

    // tasksPending.prioGrp == 0
    static method IsEmpty(l: PrioList) returns (empty: bool)
      requires l.Valid()
      ensures empty == (l.contents == {})
    {
      hide Bit;
      empty := l.prioGrp == 0;
      if !empty {
        HighIndexOf(l.prioGrp);
        if l.contents == {} { l.EmptyRow(HighIndex(l.prioGrp)); }
      } else if l.contents != {} {
        var p :| p in l.contents;
        l.Member(p);
        ZeroBits(p / 32);
      }
    }

    lemma Owns(m: MutexState)
      requires MutexModel.Valid(m) && m.taken
      ensures m.owner in m.task && m.task[m.owner].prio == m.n - 1 && m.owner < m.n - 1 && m.pending <= m.task.Keys
    {}

    lemma Shows(m: MutexState, c: nat)
      requires MutexModel.Valid(m) && c in m.task && (m.taken ==> c != m.owner)
      ensures m.task[c].prio == c && c < m.n - 1
    {}
  }
  // What a call on mutex h may write; h is NULL when the caller has no mutex
  ghost function Footprint(h: Mutex?): set<object>
    reads h
  {
    if h == null then {}
    else {h, h.tcbPtrTbl, h.tasksPending, h.tasksPending.prioTbl, h.taskPrioList, h.taskPrioList.prioTbl} + h.blocks
  }

  // uLipeMutexTake by task c, with the reschedule at its end; runs is the slot whose task runs next
  method MutexTake(h: Mutex?, c: nat) returns (r: Status, runs: nat)
    requires h != null ==> h.Valid() && c in h.tasks && (h.mutexTaken ==> c != h.mutexOwner)
    modifies Footprint(h)
    ensures h == null ==> r == InvalidParam && runs == c
    ensures h != null ==>
              && h.Valid() && h.blocks == old(h.blocks) && c in old(h.View().task)
              && (h.View(), r) == MutexModel.Take(old(h.View()), c) && runs == Top(h.View().ready)
    ensures h != null && r == StatusOk && c in h.View().task && h.View().task[c].status == 0 ==> runs == h.n - 1
  {
    hide MutexModel.Take, MutexModel.Valid;
    if h == null {
      return InvalidParam, c;
    }
    ReadyBound(h);
    TakeExact(h.View(), c);
    r := h.Take(c);
    runs := Yield(h);
  }

  // uLipeMutexGive by task c, with the reschedule at its end
  method MutexGive(h: Mutex?, c: nat) returns (r: Status, runs: nat)
    requires h != null ==> h.Valid() && h.mutexTaken
    modifies Footprint(h)
    ensures h == null ==> r == InvalidParam && runs == c
    ensures h != null ==>
              && h.Valid() && h.blocks == old(h.blocks) && r == StatusOk
              && old(h.mutexOwner) in old(h.View().task) && old(h.View().pending) <= old(h.View().task).Keys
              && h.View() == MutexModel.Give(old(h.View())) && runs == Top(h.View().ready)
    ensures h != null && h.mutexTaken && h.mutexOwner in h.View().task && h.View().task[h.mutexOwner].status == 0 ==>
              runs == h.n - 1
  {
    hide MutexModel.Give, MutexModel.Valid;
    if h == null {
      return InvalidParam, c;
    }
    ReadyBound(h);
    NewOwnerRuns(h.View());
    h.Give();
    runs := Yield(h);
    r := StatusOk;
  }

  lemma ReadyBound(h: Mutex)
    requires h.Valid()
    ensures MutexModel.Valid(h.View()) && h.View().n == h.n && forall p :: p in h.View().ready ==> p < h.n
  {
    hide MutexModel.Valid;
  }

  // uLipeKernelTaskYield called by a task: the greatest ready slot
  method Yield(h: Mutex) returns (runs: nat)
    requires h.Valid()
    ensures runs == Top(h.View().ready)
  {
    hide MutexModel.Valid;
    var beyond: bv32 := *;
    runs := h.taskPrioList.FindHighPrio(beyond);
  }
}
