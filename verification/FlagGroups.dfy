// A flag group as the program keeps it.
module FlagGroups {
  import opened PrioLists
  import opened FlagModel

  class FlagGroup {
    const n: nat
    const waitA: PrioList
    const waitB: PrioList
    const ready: PrioList
    var activeList: nat
    var flagRegister: bv32
    var tcb: map<nat, Waiter>

    // waitTasks[k]
    function Wait(k: nat): PrioList
    {
      if k == 0 then waitA else waitB
    }

    ghost predicate Apart()
    {
      && waitA != waitB && waitA != ready && waitB != ready
      && waitA.prioTbl != waitB.prioTbl && waitA.prioTbl != ready.prioTbl && waitB.prioTbl != ready.prioTbl
      && waitA.n == n && waitB.n == n && ready.n == n
    }

    ghost predicate ListsOk()
      reads waitA, waitA.prioTbl, waitB, waitB.prioTbl, ready, ready.prioTbl
    {
      Apart() && waitA.Valid() && waitB.Valid() && ready.Valid()
    }

    // Waiters are installed tasks other than the idle task; the inactive list is empty
    ghost predicate Valid()
      reads this, waitA, waitA.prioTbl, waitB, waitB.prioTbl, ready, ready.prioTbl
    {
      && ListsOk() && activeList < 2
      && Wait(1 - activeList).contents == {}
      && 0 !in Wait(activeList).contents && Wait(activeList).contents <= tcb.Keys
    }

    ghost function View(): Group
      reads this, waitA, waitB, ready
    {
      Group(flagRegister, tcb, ready.contents, Wait(if activeList == 0 then 1 else 0).contents)
    }

    constructor (tasks: nat, readyList: PrioList)
      requires 1 <= tasks <= MAX_TASKS && readyList.Valid() && readyList.n == tasks
      ensures Valid() && ready == readyList && flagRegister == 0 && tcb == map[] && Wait(activeList).contents == {}
      ensures fresh(waitA) && fresh(waitA.prioTbl) && fresh(waitB) && fresh(waitB.prioTbl)
    {
      n, ready := tasks, readyList;
      waitA := new PrioList(tasks);
      waitB := new PrioList(tasks);
      activeList, flagRegister, tcb := 0, 0, map[];
    }

    // Does the register satisfy waiter w? With the flags it answers to, and its status word without
    // the wait it is released from
    static method Matches(register: bv32, w: Waiter) returns (matched: bool, mask: bv32, status: bv16)
      ensures matched == Satisfied(register, w)
      ensures matched ==> mask == Matched(register, w) && status == Unmarked(w)
      ensures !matched ==> status == w.status
    {
      hide Kind, Unset, Common;
      matched, mask, status := false, 0, w.status;
      var kind := Kind(w.status);
      if kind == FLAG_ALL {
        mask := Common(register, w.pending);
        if mask == w.pending {
          matched := true;
          status := Unset(status, FLAG_ALL | DELAYED);
        }
      } else if kind == FLAG_ANY {
        mask := register;
        if mask != 0 {
          matched := true;
          status := Unset(status, FLAG_ANY | DELAYED);
        }
      }
    }

    // Clear from the register what this waiter, and the ones before it, consumed; tmp and its new
    // value are 16-bit numbers
    static method Consume(register: bv32, tmp: bv32, mask: bv32) returns (register': bv32, tmp': bv32)
      requires Gone(register, tmp)
      ensures Gone(register', tmp') && register' == Without(register, Low(mask))
    {
      hide Gone, Without, Low;
      tmp' := (tmp | mask) & 0xFFFF;
      register' := register & !tmp';
      Accumulates(register, tmp, mask);
    }

    // Give task i its new status word; with nothing left to wait for it becomes ready
    method Release(i: nat, status: bv16)
      requires ListsOk() && i in tcb && i < n
      modifies `tcb, ready, ready.prioTbl
      ensures ListsOk() && tcb == old(tcb)[i := WithStatus(old(tcb)[i], status)]
      ensures ready.contents == if status == 0 then old(ready.contents) + {i} else old(ready.contents)
    {
      hide WithStatus, PrioList.Valid;
      tcb := tcb[i := WithStatus(tcb[i], status)];
      if status == 0 {
        ready.Set(i);
      }
    }

    // Waiter i, satisfied by the register: mask is what it answers to, status its status word
    // without the wait
    method Grant(i: nat, tmp: bv32, mask: bv32, status: bv16) returns (tmp': bv32)
      requires ListsOk() && i in tcb && i < n && Gone(flagRegister, tmp) && Satisfied(flagRegister, tcb[i])
      requires mask == Matched(flagRegister, tcb[i]) && status == Unmarked(tcb[i])
      modifies `flagRegister, `tcb, ready, ready.prioTbl
      ensures ListsOk() && i in old(tcb) && Gone(flagRegister, tmp')
      ensures flagRegister == Without(old(flagRegister), Consumed(old(flagRegister), old(tcb)[i]))
      ensures tcb == old(tcb)[i := Released(old(tcb)[i])]
      ensures ready.contents ==
              if Released(old(tcb)[i]).status == 0 then old(ready.contents) + {i} else old(ready.contents)
    {
      hide Satisfied, Matched, Gone, Without, Unmarked, Consumed, Consumes, Unset, Marked, WithStatus, ListsOk, Low;
      MarkStays(tcb[i]);
      ConsumedIs(flagRegister, tcb[i]);
      tmp' := tmp;
      var st := status;
      if Marked(st) {
        flagRegister, tmp' := Consume(flagRegister, tmp, mask);
        st := Unset(st, CONSUME);
      }
      Release(i, st);
    }

    // One turn of the loop for waiter i
    method Visit(i: nat, tmp: bv32) returns (tmp': bv32)
      requires ListsOk() && activeList < 2 && i in tcb && i < n && Gone(flagRegister, tmp)
      modifies `flagRegister, `tcb, waitA, waitA.prioTbl, waitB, waitB.prioTbl, ready, ready.prioTbl
      ensures ListsOk() && i in old(tcb) && View() == Serve(old(View()), i)
      ensures Wait(activeList).contents == old(Wait(activeList).contents)
      ensures Gone(flagRegister, tmp')
    {
      hide Satisfied, Matched, Gone, Without, Unmarked, Consumed, Waits, Consumes, Kind, Unset, Released,
           PrioList.Valid;
      tmp' := tmp;
      var matched, mask, status := Matches(flagRegister, tcb[i]);
      if matched {
        tmp' := Grant(i, tmp, mask, status);
      } else {
        WaitsIs(tcb[i]);
        if Kind(status) != 0 {
          Wait(if activeList == 0 then 1 else 0).Set(i);
        }
      }
    }

    // The body of the loop of FlagsPostLoop: visit i, find the greatest waiter left, remove it
    method Turn(i: nat, tmp: bv32) returns (next: nat, tmp': bv32)
      requires ListsOk() && activeList < 2 && i in tcb && i < n && Gone(flagRegister, tmp)
      modifies `flagRegister, `tcb, waitA, waitA.prioTbl, waitB, waitB.prioTbl, ready, ready.prioTbl
      ensures ListsOk() && Gone(flagRegister, tmp')
      ensures i in old(tcb) && View() == Serve(old(View()), i)
      ensures next == Top(old(Wait(activeList).contents)) && next < n
      ensures Wait(activeList).contents == old(Wait(activeList).contents) - {next}
    {
      hide Serve, Gone, PrioList.Valid;
      tmp' := Visit(i, tmp);
      var beyond: bv32 := *;
      next := Wait(activeList).FindHighPrio(beyond);
      Wait(activeList).Clr(next);
    }

    // FlagsPostLoop. The list is searched before its first entry is removed, so the first waiter is
    // visited twice
    method FlagsPostLoop()
      requires Valid()
      modifies `activeList, `flagRegister, `tcb, waitA, waitA.prioTbl, waitB, waitB.prioTbl, ready, ready.prioTbl
      ensures Valid() && activeList != old(activeList)
      ensures old(Wait(activeList).contents) <= old(tcb.Keys)
      ensures var r := Post(old(View()), old(Wait(activeList).contents));
              && flagRegister == r.reg && tcb == r.tcb && ready.contents == r.ready
              && Wait(activeList).contents == r.kept && Wait(old(activeList)).contents == {}
    {
      hide Serve, Post, Gone, OnTrack, PrioList.Valid;
      ghost var g, ws := View(), Wait(activeList).contents;
      ghost var a: nat := activeList;
      ghost var result := Post(g, ws);
      var tmp: bv32 := 0;
      NothingGone(flagRegister);
      var beyond: bv32 := *;
      var i: nat := Wait(activeList).FindHighPrio(beyond);
      ghost var first := i != 0;
      TrackStart(g, ws);
      while i != 0
        invariant ListsOk() && activeList == a && i < n && Gone(flagRegister, tmp)
        invariant OnTrack(result, View(), Wait(a).contents, i, first)
        decreases |Wait(a).contents| + if i != 0 then 1 else 0
      {
        TrackTurn(result, View(), Wait(a).contents, i, first);
        i, tmp := Turn(i, tmp);
        first := false;
      }
      TrackEnd(result, g, ws, View(), Wait(a).contents, first);
      activeList := if activeList == 0 then 1 else 0;
    }

    // uLipeFlagsPost without the final reschedule
    method FlagsPost(flags: bv32)
      requires Valid()
      modifies `activeList, `flagRegister, `tcb, waitA, waitA.prioTbl, waitB, waitB.prioTbl, ready, ready.prioTbl
      ensures Valid()
      ensures old(Wait(activeList).contents) <= old(tcb.Keys)
      ensures var g := Group(old(flagRegister) | flags, old(tcb), old(ready.contents), {});
              var r := Post(g, old(Wait(activeList).contents));
              && flagRegister == r.reg && tcb == r.tcb && ready.contents == r.ready
              && Wait(activeList).contents == r.kept
    {
      hide Serve, Post, PrioList.Valid;
      flagRegister := flagRegister | flags;
      FlagsPostLoop();
    }
  }
}
