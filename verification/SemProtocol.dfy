// One semaphore used by any number of tasks, every interleaving. uLipeSemTake leaves its critical
// section between finding no unit and going to sleep, so a take is several steps here.
module SemProtocol {
  import opened PrioLists

  // Where the tasks are: checked found no unit; pointed has set its back pointer to the wait list;
  // listed has entered the wait list; asleep has marked itself as waiting; woken is ready again but
  // has not looked at the count yet. list is the wait list itself, back the tasks whose back pointer
  // names it, due those with an entry in the timer list that the next tick ends, of this wait or left
  // from an earlier one. taken and added count units handed out and units put in.
  datatype SemState =
    SemState(count: nat, limit: nat, checked: set<nat>, pointed: set<nat>, listed: set<nat>, asleep: set<nat>,
             woken: set<nat>, list: set<nat>, back: set<nat>, due: set<nat>, taken: nat, added: nat)

  datatype Call =
    | Begin(task: nat)    // the first look at the count
    | Point(task: nat)
    | Enlist(task: nat)
    | Sleep(task: nat, timeout: nat)
    | Grab                // a look that finds a unit, whoever looks
    | Recheck(task: nat)  // the look at the count after waking
    | Turn(task: nat)     // the back pointer is set to another semaphore's list
    | Retime(due: set<nat>)  // timer entries come and go, or age
    | Expire(task: nat)   // the tick ends an entry
    | Mislead(task: nat)  // another semaphore, whose list still holds the task, wakes it
    | Give(units: nat)

  // Between the first look and going to sleep
  ghost predicate InGap(p: SemState, t: nat)
  {
    t in p.checked || t in p.pointed || t in p.listed
  }

  ghost predicate Inside(p: SemState, t: nat)
  {
    InGap(p, t) || t in p.asleep || t in p.woken
  }

  // A task in a gap is not marked as delayed: whatever entry it has stays as it is until a tick
  // ends it
  ghost predicate Allowed(p: SemState, c: Call)
  {
    match c
    case Begin(t) => t != 0 && !Inside(p, t)
    case Point(t) => t in p.checked
    case Enlist(t) => t in p.pointed
    case Sleep(t, _) => t in p.listed
    case Grab => p.count > 0
    case Recheck(t) => t in p.woken
    case Turn(t) => !Inside(p, t)
    case Retime(due) => forall t :: InGap(p, t) ==> (t in due <==> t in p.due)
    case Expire(t) => t in p.due
    case Mislead(t) => t in p.asleep
    case Give(_) => true
  }

  // A look at the count: take a unit if there is one
  function Look(p: SemState): SemState
  {
    if p.count > 0 then p.(count := p.count - 1, taken := p.taken + 1) else p
  }

  function Enter(p: SemState, t: nat): SemState
  {
    if p.count > 0 then Look(p) else p.(checked := p.checked + {t})
  }

  function Aim(p: SemState, t: nat): SemState
  {
    p.(checked := p.checked - {t}, pointed := p.pointed + {t}, back := p.back + {t})
  }

  function Join(p: SemState, t: nat): SemState
  {
    p.(pointed := p.pointed - {t}, listed := p.listed + {t}, list := p.list + {t})
  }

  // Without a timeout an entry left from an earlier wait stays; a timeout replaces it
  function Doze(p: SemState, t: nat, timeout: nat): SemState
  {
    p.(listed := p.listed - {t}, asleep := p.asleep + {t},
       due := if timeout == 0 then p.due else if timeout == 1 then p.due + {t} else p.due - {t})
  }

  // The tick takes the task off the list its back pointer names, clears the pointer, and makes the
  // task ready
  function Strike(p: SemState, t: nat): SemState
  {
    p.(due := p.due - {t}, back := p.back - {t}, list := if t in p.back then p.list - {t} else p.list,
       asleep := p.asleep - {t}, woken := if t in p.asleep then p.woken + {t} else p.woken)
  }

  function Capped(count: nat, limit: nat, units: nat): nat
  {
    if count + units > limit then limit else count + units
  }

  // The greatest task of the wait list leaves it; if it is asleep it wakes
  ghost function Wake(p: SemState): SemState
  {
    var i := Top(p.list);
    if i == 0 then p
    else if i in p.asleep then p.(list := p.list - {i}, asleep := p.asleep - {i}, woken := p.woken + {i})
    else p.(list := p.list - {i})
  }

  ghost function Supply(p: SemState, units: nat): SemState
    requires p.count <= p.limit
  {
    var c := Capped(p.count, p.limit, units);
    Wake(p.(count := c, added := p.added + (c - p.count)))
  }

  ghost function Step(p: SemState, c: Call): SemState
    requires p.count <= p.limit
  {
    match c
    case Begin(t) => Enter(p, t)
    case Point(t) => Aim(p, t)
    case Enlist(t) => Join(p, t)
    case Sleep(t, timeout) => Doze(p, t, timeout)
    case Grab => Look(p)
    case Recheck(t) => Look(p.(woken := p.woken - {t}))
    case Turn(t) => p.(back := p.back - {t})
    case Retime(due) => p.(due := due)
    case Expire(t) => Strike(p, t)
    case Mislead(t) => p.(asleep := p.asleep - {t}, woken := p.woken + {t})
    case Give(units) => Supply(p, units)
  }

  ghost function Init(count: nat, limit: nat): SemState
  {
    SemState(count, limit, {}, {}, {}, {}, {}, {}, {}, {}, 0, 0)
  }

  // ---- conservation ------------------------------------------------------------------------

  // Units are conserved by every step, whoever interrupts whom, and the count stays within its limit
  lemma StepConserves(p: SemState, c: Call)
    requires p.count <= p.limit && Allowed(p, c)
    ensures var q := Step(p, c);
            q.limit == p.limit && q.count <= q.limit && q.count + q.taken - q.added == p.count + p.taken - p.added
  {}

  // Every step of the run is allowed when it is made
  ghost predicate Legal(p: SemState, cs: seq<Call>)
    requires p.count <= p.limit
    decreases |cs|
  {
    hide Step, Allowed;
    cs == [] || (Allowed(p, cs[0]) && (StepConserves(p, cs[0]); Legal(Step(p, cs[0]), cs[1..])))
  }

  ghost function Run(p: SemState, cs: seq<Call>): SemState
    requires p.count <= p.limit && Legal(p, cs)
    decreases |cs|
  {
    hide Step, Allowed;
    if cs == [] then p else StepConserves(p, cs[0]); Run(Step(p, cs[0]), cs[1..])
  }

  lemma {:induction false} RunConserves(p: SemState, cs: seq<Call>)
    requires p.count <= p.limit && Legal(p, cs)
    ensures var q := Run(p, cs);
            q.limit == p.limit && q.count <= q.limit && q.count + q.taken - q.added == p.count + p.taken - p.added
    decreases |cs|
  {
    hide Step, Allowed;
    if cs != [] {
      StepConserves(p, cs[0]);
      RunConserves(Step(p, cs[0]), cs[1..]);
    }
  }

  // In every run: count + units taken = units at creation + units added, and count <= limit
  lemma UnitsConserved(count: nat, limit: nat, cs: seq<Call>)
    requires count <= limit && Legal(Init(count, limit), cs)
    ensures var q := Run(Init(count, limit), cs); q.count + q.taken == count + q.added && q.count <= limit
  {
    hide Step, Allowed, Legal, Run;
    RunConserves(Init(count, limit), cs);
  }

  // ---- units do not pile up beside waiters -------------------------------------------------

  // Units by which gives exceed one
  function Excess(cs: seq<Call>): nat
  {
    if cs == [] then 0 else (if cs[0].Give? && cs[0].units > 1 then cs[0].units - 1 else 0) + Excess(cs[1..])
  }

  lemma ExcessOne(c: Call)
    ensures Excess([c]) == if c.Give? && c.units > 1 then c.units - 1 else 0
  {
    assert [c][1..] == [];
  }

  // No task is between finding no unit and entering the wait list, and the greatest task of the list,
  // if there is one, is asleep
  ghost predicate GiveSafe(p: SemState)
  {
    p.checked == {} && p.pointed == {} && (p.list != {} ==> Top(p.list) in p.asleep)
  }

  // Neither a give nor the end of an old timer entry lands in a gap, here or at another semaphore,
  // which would then hold a task it has not put to sleep. Takes may be interrupted otherwise, and an
  // entry may end before its task has set the back pointer
  ghost predicate Harmless(p: SemState, c: Call)
  {
    && (c.Give? ==> GiveSafe(p))
    && (c.Expire? ==> c.task !in p.pointed && c.task !in p.listed)
    && !c.Mislead?
  }

  ghost predicate HarmlessRun(p: SemState, cs: seq<Call>)
    requires p.count <= p.limit && Legal(p, cs)
    decreases |cs|
  {
    hide Step, Allowed, Harmless;
    cs == [] || (Harmless(p, cs[0]) && (StepConserves(p, cs[0]); HarmlessRun(Step(p, cs[0]), cs[1..])))
  }

  // A task is in one place at a time
  ghost predicate Separate(p: SemState)
  {
    && p.checked !! p.pointed && p.checked !! p.listed && p.checked !! p.asleep && p.checked !! p.woken
    && p.pointed !! p.listed && p.pointed !! p.asleep && p.pointed !! p.woken
    && p.listed !! p.asleep && p.listed !! p.woken && p.asleep !! p.woken
    && 0 !in p.checked && 0 !in p.pointed && 0 !in p.listed && 0 !in p.asleep
  }

  // The wait list holds those asleep and those about to be, and they and those about to enter it have
  // their back pointers set
  ghost predicate Placed(p: SemState)
  {
    && Separate(p) && p.list == p.asleep + p.listed
    && p.pointed <= p.back && p.listed <= p.back && p.asleep <= p.back
  }

  // While the list holds anyone the units at hand are covered by woken tasks, but for the excess e
  ghost predicate Units(p: SemState, e: nat)
  {
    && (p.checked != {} || p.pointed != {} ==> p.count == 0)
    && (p.list != {} ==> p.count <= |p.woken| + e)
  }

  ghost predicate Covered(p: SemState, e: nat)
  {
    Placed(p) && Units(p, e)
  }

  // No semaphore q whose own gives keep out of gaps wakes a task that waits at p: a task is in one take
  // at a time
  lemma SafeGiveMisleadsNobody(p: SemState, q: SemState, t: nat)
    requires GiveSafe(q) && q.list != {} && t in p.asleep && !(Inside(p, t) && Inside(q, t))
    ensures t != Top(q.list)
  {}

  lemma NotMisled(p: SemState, c: Call)
    requires Harmless(p, c)
    ensures !c.Mislead?
  {}

  lemma StepPlaced(p: SemState, c: Call)
    requires p.count <= p.limit && Allowed(p, c) && Harmless(p, c) && Placed(p)
    ensures Placed(Step(p, c))
  {
    hide Placed, Separate, Harmless, Enter, Aim, Join, Doze, Strike, Look, Supply;
    NotMisled(p, c);
    match c
    case Begin(t) => EnterPlaced(p, t);
    case Point(t) => AimPlaced(p, t);
    case Enlist(t) => JoinPlaced(p, t);
    case Sleep(t, timeout) => DozePlaced(p, t, timeout);
    case Grab => LookPlaced(p, p.woken);
    case Recheck(t) => LookPlaced(p, p.woken - {t});
    case Turn(t) => TurnPlaced(p, t);
    case Retime(due) => RetimePlaced(p, due);
    case Expire(t) => StrikePlaced(p, t);
    case Give(units) => SupplyPlaced(p, units);
  }

  lemma EnterPlaced(p: SemState, t: nat)
    requires Placed(p) && t != 0 && !Inside(p, t)
    ensures Placed(Enter(p, t))
  {}

  lemma AimPlaced(p: SemState, t: nat)
    requires Placed(p) && t in p.checked
    ensures Placed(Aim(p, t))
  {}

  lemma JoinPlaced(p: SemState, t: nat)
    requires Placed(p) && t in p.pointed
    ensures Placed(Join(p, t))
  {}

  lemma DozePlaced(p: SemState, t: nat, timeout: nat)
    requires Placed(p) && t in p.listed
    ensures Placed(Doze(p, t, timeout))
  {}

  lemma LookPlaced(p: SemState, woken: set<nat>)
    requires Placed(p) && woken <= p.woken
    ensures Placed(Look(p.(woken := woken)))
  {}

  lemma TurnPlaced(p: SemState, t: nat)
    requires Placed(p) && !Inside(p, t)
    ensures Placed(p.(back := p.back - {t}))
  {}

  lemma RetimePlaced(p: SemState, due: set<nat>)
    requires Placed(p)
    ensures Placed(p.(due := due))
  {}

  lemma StrikePlaced(p: SemState, t: nat)
    requires Placed(p) && Harmless(p, Expire(t))
    ensures Placed(Strike(p, t))
  {}

  lemma SupplyPlaced(p: SemState, units: nat)
    requires p.count <= p.limit && Placed(p) && Harmless(p, Give(units))
    ensures Placed(Supply(p, units))
  {}

  lemma StepUnits(p: SemState, c: Call, e: nat)
    requires p.count <= p.limit && Allowed(p, c) && Harmless(p, c) && Covered(p, e)
    ensures Units(Step(p, c), e + Excess([c]))
  {
    hide Units, Placed, Harmless, Enter, Aim, Join, Doze, Strike, Look, Supply;
    ExcessOne(c);
    NotMisled(p, c);
    match c
    case Begin(t) => EnterUnits(p, t, e);
    case Point(t) => AimUnits(p, t, e);
    case Enlist(t) => JoinUnits(p, t, e);
    case Sleep(t, timeout) => DozeUnits(p, t, timeout, e);
    case Grab => LookUnits(p, e);
    case Recheck(t) => RecheckUnits(p, t, e);
    case Turn(t) => TimerUnits(p, p.back - {t}, p.due, e);
    case Retime(due) => TimerUnits(p, p.back, due, e);
    case Expire(t) => StrikeUnits(p, t, e);
    case Give(units) => SupplyUnits(p, units, e);
  }

  lemma EnterUnits(p: SemState, t: nat, e: nat)
    requires Units(p, e)
    ensures Units(Enter(p, t), e)
  {}

  lemma AimUnits(p: SemState, t: nat, e: nat)
    requires Units(p, e) && t in p.checked
    ensures Units(Aim(p, t), e)
  {}

  lemma JoinUnits(p: SemState, t: nat, e: nat)
    requires Units(p, e) && t in p.pointed
    ensures Units(Join(p, t), e)
  {}

  lemma DozeUnits(p: SemState, t: nat, timeout: nat, e: nat)
    requires Units(p, e)
    ensures Units(Doze(p, t, timeout), e)
  {}

  lemma LookUnits(p: SemState, e: nat)
    requires Units(p, e)
    ensures Units(Look(p), e)
  {}

  lemma RecheckUnits(p: SemState, t: nat, e: nat)
    requires Units(p, e) && t in p.woken
    ensures Units(Look(p.(woken := p.woken - {t})), e)
  {
    assert |p.woken - {t}| == |p.woken| - 1;
  }

  lemma TimerUnits(p: SemState, back: set<nat>, due: set<nat>, e: nat)
    requires Units(p, e)
    ensures Units(p.(back := back), e) && Units(p.(due := due), e)
  {}

  lemma StrikeUnits(p: SemState, t: nat, e: nat)
    requires Units(p, e)
    ensures Units(Strike(p, t), e)
  {
    if t !in p.woken { assert |p.woken + {t}| == |p.woken| + 1; }
    else { assert p.woken + {t} == p.woken; }
  }

  lemma SupplyUnits(p: SemState, units: nat, e: nat)
    requires p.count <= p.limit && Harmless(p, Give(units)) && Covered(p, e)
    ensures Units(Supply(p, units), e + if units > 1 then units - 1 else 0)
  {
    var i := Top(p.list);
    if p.list != {} {
      assert i in p.asleep && |p.woken + {i}| == |p.woken| + 1;
    }
  }

  lemma {:induction false} RunCovered(p: SemState, cs: seq<Call>, e: nat)
    requires p.count <= p.limit && Legal(p, cs) && HarmlessRun(p, cs) && Covered(p, e)
    ensures Covered(Run(p, cs), e + Excess(cs))
    decreases |cs|
  {
    hide Step, Allowed, Placed, Units, Harmless;
    if cs != [] {
      ExcessOne(cs[0]);
      StepPlaced(p, cs[0]);
      StepUnits(p, cs[0], e);
      StepConserves(p, cs[0]);
      assert Excess(cs) == Excess([cs[0]]) + Excess(cs[1..]);
      RunCovered(Step(p, cs[0]), cs[1..], e + Excess([cs[0]]));
    }
  }

  // Over every interleaving in which neither a give nor the end of an old timer entry lands in a gap,
  // here or at another semaphore, every task that sleeps is in the wait list with its back pointer set,
  // and waiters are present only while the count is at most the number of woken tasks that have not
  // looked yet, plus what gives of several units brought beyond one each
  lemma WaitersCovered(count: nat, limit: nat, cs: seq<Call>)
    requires count <= limit && Legal(Init(count, limit), cs) && HarmlessRun(Init(count, limit), cs)
    ensures var q := Run(Init(count, limit), cs);
            && q.list == q.asleep + q.listed && q.asleep <= q.back
            && (q.list != {} ==> q.count <= |q.woken| + Excess(cs))
  {
    hide Step, Allowed, Harmless;
    RunCovered(Init(count, limit), cs, 0);
  }

  // ---- what callers can see to ---------------------------------------------------------------

  // Who has to wait has no timer entry about to end when the take begins
  ghost predicate Clean(p: SemState, c: Call)
  {
    && (c.Give? ==> GiveSafe(p))
    && (c.Begin? && p.count == 0 ==> c.task !in p.due)
    && !c.Mislead?
  }

  ghost predicate CleanRun(p: SemState, cs: seq<Call>)
    requires p.count <= p.limit && Legal(p, cs)
    decreases |cs|
  {
    hide Step, Allowed, Clean;
    cs == [] || (Clean(p, cs[0]) && (StepConserves(p, cs[0]); CleanRun(Step(p, cs[0]), cs[1..])))
  }

  ghost predicate GapsUndue(p: SemState)
  {
    Separate(p) && forall t :: InGap(p, t) ==> t !in p.due
  }

  // A task is in one place at a time whatever lands where
  lemma StepSeparate(p: SemState, c: Call)
    requires p.count <= p.limit && Allowed(p, c) && Separate(p)
    ensures Separate(Step(p, c))
  {
    hide Top;
  }

  lemma StepUndue(p: SemState, c: Call)
    requires p.count <= p.limit && Allowed(p, c) && Clean(p, c) && GapsUndue(p)
    ensures GapsUndue(Step(p, c)) && Harmless(p, c)
  {
    hide GiveSafe, Top;
    StepSeparate(p, c);
    forall t | InGap(Step(p, c), t) ensures t !in Step(p, c).due {
      assert InGap(p, t) || (c.Begin? && c.task == t && p.count == 0);
    }
  }

  // A take begun without an entry about to end meets no such entry in its gaps
  lemma {:induction false} RunUndue(p: SemState, cs: seq<Call>)
    requires p.count <= p.limit && Legal(p, cs) && CleanRun(p, cs) && GapsUndue(p)
    ensures HarmlessRun(p, cs)
    decreases |cs|
  {
    hide Step, Allowed, Clean, Harmless, GapsUndue;
    if cs != [] {
      StepConserves(p, cs[0]);
      StepUndue(p, cs[0]);
      RunUndue(Step(p, cs[0]), cs[1..]);
    }
  }

  // So the waiters are covered when no take that has to wait begins with such an entry
  lemma CleanCovered(count: nat, limit: nat, cs: seq<Call>)
    requires count <= limit && Legal(Init(count, limit), cs) && CleanRun(Init(count, limit), cs)
    ensures var q := Run(Init(count, limit), cs);
            && q.list == q.asleep + q.listed && q.asleep <= q.back
            && (q.list != {} ==> q.count <= |q.woken| + Excess(cs))
  {
    hide Step, Allowed, Harmless, Clean, Legal, Run, HarmlessRun, CleanRun, Excess;
    RunUndue(Init(count, limit), cs);
    WaitersCovered(count, limit, cs);
  }

  // ---- what lands in a gap -------------------------------------------------------------------

  // The rest of the first half of a take
  function Finish(p: SemState, t: nat, timeout: nat): SemState
  {
    var p1 := if t in p.checked then Aim(p, t) else p;
    var p2 := if t in p1.pointed then Join(p1, t) else p1;
    Doze(p2, t, timeout)
  }

  // A give between the first look of a task and its entry into the wait list. The units are covered
  // once it sleeps exactly when they are no more than the tasks awake by then: those woken before,
  // and the one the give itself woke if there was anyone to wake
  lemma FirstGapExact(p: SemState, t: nat, units: nat, timeout: nat)
    requires p.count <= p.limit && (t in p.checked || t in p.pointed)
    requires 0 !in p.list && p.list == p.asleep && p.asleep !! p.woken
    ensures var q := Finish(Supply(p, units), t, timeout);
            (q.list != {} ==> q.count <= |q.woken|)
            <==> Capped(p.count, p.limit, units) <= |p.woken| + if p.list != {} then 1 else 0
  {
    var q := Finish(Supply(p, units), t, timeout);
    assert t in q.list;
    if p.list != {} {
      assert Top(p.list) in p.asleep && |p.woken + {Top(p.list)}| == |p.woken| + 1;
    }
  }

  // A give between the entry of a task into the wait list and its going to sleep: it sleeps in the
  // list exactly when the give found a greater task there
  lemma SecondGapExact(p: SemState, t: nat, units: nat, timeout: nat)
    requires p.count <= p.limit && Placed(p) && t in p.listed
    ensures var q := Finish(Supply(p, units), t, timeout);
            t in q.asleep && (t in q.list <==> t != Top(p.list))
  {}

  // The end of an old timer entry in a gap. Once the task sleeps it is in the list exactly when it had
  // not entered it, and has its back pointer exactly when it had not set it
  lemma ExpireInGapExact(p: SemState, t: nat, timeout: nat)
    requires Placed(p) && InGap(p, t) && t in p.due
    ensures Allowed(p, Expire(t))
    ensures var q := Finish(Strike(p, t), t, timeout);
            t in q.asleep && (t in q.list <==> t !in p.listed) && (t in q.back <==> t in p.checked)
  {
    hide Top;
  }

  // A sleeper in the list whose time is up leaves the list exactly when its back pointer is still set;
  // otherwise a ready task stays listed, and the next give may find it
  lemma TimeoutLeavesIff(p: SemState, t: nat)
    requires Separate(p) && t in p.asleep && t in p.list && t in p.due
    ensures var q := Strike(p, t); t in q.woken && t !in q.asleep && (t !in q.list <==> t in p.back)
  {
    hide Top;
  }

  // ---- runs ----------------------------------------------------------------------------------

  ghost predicate Reaches(p: SemState, cs: seq<Call>, q: SemState)
  {
    p.count <= p.limit && Legal(p, cs) && Run(p, cs) == q
  }

  ghost predicate Harmlessly(p: SemState, cs: seq<Call>)
  {
    p.count <= p.limit && Legal(p, cs) && HarmlessRun(p, cs)
  }

  lemma {:induction false} Then(p: SemState, cs: seq<Call>, q: SemState, c: Call)
    requires Reaches(p, cs, q) && q.count <= q.limit && Allowed(q, c)
    ensures Reaches(p, cs + [c], Step(q, c))
    ensures Harmlessly(p, cs) && Harmless(q, c) ==> Harmlessly(p, cs + [c])
    decreases |cs|
  {
    hide Step, Allowed, Harmless;
    if cs == [] {
      StepConserves(p, c);
      assert [] + [c] == [c] && [c][1..] == [];
      var r := Step(p, c);
      assert Legal(r, []) && Run(r, []) == r && HarmlessRun(r, []);
      assert Legal(p, [c]);
    } else {
      StepConserves(p, cs[0]);
      assert Reaches(Step(p, cs[0]), cs[1..], q);
      Then(Step(p, cs[0]), cs[1..], q, c);
      assert (cs + [c])[0] == cs[0] && (cs + [c])[1..] == cs[1..] + [c];
      assert Legal(p, cs + [c]);
    }
  }

  lemma Stay(p: SemState)
    requires p.count <= p.limit
    ensures Reaches(p, [], p) && Harmlessly(p, [])
  {}

  lemma {:induction false} ExcessThen(cs: seq<Call>, c: Call)
    ensures Excess(cs + [c]) == Excess(cs) + Excess([c])
  {
    ExcessOne(c);
    if cs == [] { assert [] + [c] == [c]; }
    else {
      assert (cs + [c])[0] == cs[0] && (cs + [c])[1..] == cs[1..] + [c];
      ExcessThen(cs[1..], c);
    }
  }

  // A state whose count is at most 1, its sets in the order of SemState
  function At(count: nat, checked: set<nat>, pointed: set<nat>, listed: set<nat>, asleep: set<nat>, woken: set<nat>,
              list: set<nat>, back: set<nat>, due: set<nat>, added: nat): SemState
  {
    SemState(count, 1, checked, pointed, listed, asleep, woken, list, back, due, 0, added)
  }

  lemma ThenAt(cs: seq<Call>, p: SemState, c: Call, q: SemState)
    requires Reaches(Init(0, 1), cs, p) && p.count <= p.limit && Allowed(p, c) && Step(p, c) == q
    ensures Reaches(Init(0, 1), cs + [c], q)
  {
    hide Reaches, Allowed, Step;
    Then(Init(0, 1), cs, p, c);
  }

  // Task 1 finds no unit and sets its back pointer
  const AIMED: seq<Call> := [] + [Begin(1)] + [Point(1)]

  lemma Aimed()
    ensures Reaches(Init(0, 1), AIMED,
                    At(0, {}, {1}, {}, {}, {}, {}, {1}, {}, 0))
  {
    hide Reaches, Harmlessly;
    Stay(Init(0, 1));
    ThenAt([], Init(0, 1), Begin(1), At(0, {1}, {}, {}, {}, {}, {}, {}, {}, 0));
    ThenAt([] + [Begin(1)], At(0, {1}, {}, {}, {}, {}, {}, {}, {}, 0), Point(1),
           At(0, {}, {1}, {}, {}, {}, {}, {1}, {}, 0));
  }

  // A give between the first look and entering the wait list wakes nobody: the task then sleeps
  // beside a free unit
  lemma UnitBesideSleeper()
    ensures Reaches(Init(0, 1), AIMED + [Give(1)] + [Enlist(1)] + [Sleep(1, 0)],
                    At(1, {}, {}, {}, {1}, {}, {1}, {1}, {}, 1))
  {
    hide Reaches, Harmlessly;
    Aimed();
    ThenAt(AIMED, At(0, {}, {1}, {}, {}, {}, {}, {1}, {}, 0), Give(1), At(1, {}, {1}, {}, {}, {}, {}, {1}, {}, 1));
    ThenAt(AIMED + [Give(1)], At(1, {}, {1}, {}, {}, {}, {}, {1}, {}, 1), Enlist(1),
           At(1, {}, {}, {1}, {}, {}, {1}, {1}, {}, 1));
    ThenAt(AIMED + [Give(1)] + [Enlist(1)], At(1, {}, {}, {1}, {}, {}, {1}, {1}, {}, 1), Sleep(1, 0),
           At(1, {}, {}, {}, {1}, {}, {1}, {1}, {}, 1));
  }

  // A give between entering the wait list and going to sleep takes the task off the list: it then
  // sleeps in no list, and no give can wake it
  lemma SleeperOffTheList()
    ensures Reaches(Init(0, 1), AIMED + [Enlist(1)] + [Give(1)] + [Sleep(1, 0)],
                    At(1, {}, {}, {}, {1}, {}, {}, {1}, {}, 1))
  {
    hide Reaches, Harmlessly;
    Aimed();
    ThenAt(AIMED, At(0, {}, {1}, {}, {}, {}, {}, {1}, {}, 0), Enlist(1), At(0, {}, {}, {1}, {}, {}, {1}, {1}, {}, 0));
    ThenAt(AIMED + [Enlist(1)], At(0, {}, {}, {1}, {}, {}, {1}, {1}, {}, 0), Give(1),
           At(1, {}, {}, {1}, {}, {}, {}, {1}, {}, 1));
    ThenAt(AIMED + [Enlist(1)] + [Give(1)], At(1, {}, {}, {1}, {}, {}, {}, {1}, {}, 1), Sleep(1, 0),
           At(1, {}, {}, {}, {1}, {}, {}, {1}, {}, 1));
  }

  // Task 1 likewise, with an old timer entry about to end
  const DUE_AND_AIMED: seq<Call> := [] + [Retime({1})] + [Begin(1)] + [Point(1)]

  lemma DueAndAimed()
    ensures Reaches(Init(0, 1), DUE_AND_AIMED,
                    At(0, {}, {1}, {}, {}, {}, {}, {1}, {1}, 0))
  {
    hide Reaches, Harmlessly;
    Stay(Init(0, 1));
    ThenAt([], Init(0, 1), Retime({1}), At(0, {}, {}, {}, {}, {}, {}, {}, {1}, 0));
    ThenAt([] + [Retime({1})], At(0, {}, {}, {}, {}, {}, {}, {}, {1}, 0), Begin(1),
           At(0, {1}, {}, {}, {}, {}, {}, {}, {1}, 0));
    ThenAt([] + [Retime({1})] + [Begin(1)], At(0, {1}, {}, {}, {}, {}, {}, {}, {1}, 0), Point(1),
           At(0, {}, {1}, {}, {}, {}, {}, {1}, {1}, 0));
  }

  // The tick that ends it takes the task off the list as well, with no give anywhere
  lemma TickOffTheList()
    ensures Reaches(Init(0, 1), DUE_AND_AIMED + [Enlist(1)] + [Expire(1)] + [Sleep(1, 0)],
                    At(0, {}, {}, {}, {1}, {}, {}, {}, {}, 0))
  {
    hide Reaches, Harmlessly;
    DueAndAimed();
    ThenAt(DUE_AND_AIMED, At(0, {}, {1}, {}, {}, {}, {}, {1}, {1}, 0), Enlist(1),
           At(0, {}, {}, {1}, {}, {}, {1}, {1}, {1}, 0));
    ThenAt(DUE_AND_AIMED + [Enlist(1)], At(0, {}, {}, {1}, {}, {}, {1}, {1}, {1}, 0), Expire(1),
           At(0, {}, {}, {1}, {}, {}, {}, {}, {}, 0));
    ThenAt(DUE_AND_AIMED + [Enlist(1)] + [Expire(1)], At(0, {}, {}, {1}, {}, {}, {}, {}, {}, 0), Sleep(1, 0),
           At(0, {}, {}, {}, {1}, {}, {}, {}, {}, 0));
  }

  // Task 1 waits without a timeout
  const PATIENT: seq<Call> := AIMED + [Enlist(1)] + [Sleep(1, 0)]

  lemma PatientSleeper()
    ensures Reaches(Init(0, 1), PATIENT,
                    At(0, {}, {}, {}, {1}, {}, {1}, {1}, {}, 0))
  {
    hide Reaches, Harmlessly;
    Aimed();
    ThenAt(AIMED, At(0, {}, {1}, {}, {}, {}, {}, {1}, {}, 0), Enlist(1), At(0, {}, {}, {1}, {}, {}, {1}, {1}, {}, 0));
    ThenAt(AIMED + [Enlist(1)], At(0, {}, {}, {1}, {}, {}, {1}, {1}, {}, 0), Sleep(1, 0),
           At(0, {}, {}, {}, {1}, {}, {1}, {1}, {}, 0));
  }

  // Task 2, an old entry of which is about to end, finds no unit either
  const SECOND_AIMED: seq<Call> := PATIENT + [Retime({2})] + [Begin(2)] + [Point(2)]

  lemma SecondAimed()
    ensures Reaches(Init(0, 1), SECOND_AIMED,
                    At(0, {}, {2}, {}, {1}, {}, {1}, {1, 2}, {2}, 0))
  {
    hide Reaches, Harmlessly;
    PatientSleeper();
    ThenAt(PATIENT, At(0, {}, {}, {}, {1}, {}, {1}, {1}, {}, 0), Retime({2}),
           At(0, {}, {}, {}, {1}, {}, {1}, {1}, {2}, 0));
    ThenAt(PATIENT + [Retime({2})], At(0, {}, {}, {}, {1}, {}, {1}, {1}, {2}, 0), Begin(2),
           At(0, {2}, {}, {}, {1}, {}, {1}, {1}, {2}, 0));
    ThenAt(PATIENT + [Retime({2})] + [Begin(2)], At(0, {2}, {}, {}, {1}, {}, {1}, {1}, {2}, 0), Point(2),
           At(0, {}, {2}, {}, {1}, {}, {1}, {1, 2}, {2}, 0));
  }

  // The entry ends before task 2 enters the list
  const POINTER_LOST: seq<Call> := SECOND_AIMED + [Expire(2)] + [Enlist(2)] + [Sleep(2, 1)]

  lemma PointerLost()
    ensures Reaches(Init(0, 1), POINTER_LOST,
                    At(0, {}, {}, {}, {1, 2}, {}, {1, 2}, {1}, {2}, 0))
  {
    hide Reaches, Harmlessly;
    SecondAimed();
    ThenAt(SECOND_AIMED, At(0, {}, {2}, {}, {1}, {}, {1}, {1, 2}, {2}, 0), Expire(2),
           At(0, {}, {2}, {}, {1}, {}, {1}, {1}, {}, 0));
    ThenAt(SECOND_AIMED + [Expire(2)], At(0, {}, {2}, {}, {1}, {}, {1}, {1}, {}, 0), Enlist(2),
           At(0, {}, {}, {2}, {1}, {}, {1, 2}, {1}, {}, 0));
    ThenAt(SECOND_AIMED + [Expire(2)] + [Enlist(2)], At(0, {}, {}, {2}, {1}, {}, {1, 2}, {1}, {}, 0), Sleep(2, 1),
           At(0, {}, {}, {}, {1, 2}, {}, {1, 2}, {1}, {2}, 0));
  }

  // Its own timeout then leaves it in the list, and it takes the next give's wake-up from task 1,
  // which sleeps on beside the unit
  lemma ReadyButListed()
    ensures Reaches(Init(0, 1), POINTER_LOST + [Expire(2)] + [Recheck(2)] + [Give(1)],
                    At(1, {}, {}, {}, {1}, {}, {1}, {1}, {}, 1))
  {
    hide Reaches, Harmlessly;
    PointerLost();
    ThenAt(POINTER_LOST, At(0, {}, {}, {}, {1, 2}, {}, {1, 2}, {1}, {2}, 0), Expire(2),
           At(0, {}, {}, {}, {1}, {2}, {1, 2}, {1}, {}, 0));
    ThenAt(POINTER_LOST + [Expire(2)], At(0, {}, {}, {}, {1}, {2}, {1, 2}, {1}, {}, 0), Recheck(2),
           At(0, {}, {}, {}, {1}, {}, {1, 2}, {1}, {}, 0));
    ThenAt(POINTER_LOST + [Expire(2)] + [Recheck(2)], At(0, {}, {}, {}, {1}, {}, {1, 2}, {1}, {}, 0), Give(1),
           At(1, {}, {}, {}, {1}, {}, {1}, {1}, {}, 1));
  }

  // A sleeper in no list stays asleep whatever is given; only its timeout wakes it
  lemma {:induction false} NeverWoken(p: SemState, cs: seq<Call>, t: nat)
    requires p.count <= p.limit && Legal(p, cs) && t in p.asleep && t !in p.list && !InGap(p, t)
    requires Expire(t) !in cs && Mislead(t) !in cs
    ensures t in Run(p, cs).asleep && t !in Run(p, cs).list
    decreases |cs|
  {
    hide Step, Allowed;
    if cs != [] {
      StepConserves(p, cs[0]);
      StillAsleep(p, cs[0], t);
      assert cs[0] in cs && forall c :: c in cs[1..] ==> c in cs;
      NeverWoken(Step(p, cs[0]), cs[1..], t);
    }
  }

  lemma StillAsleep(p: SemState, c: Call, t: nat)
    requires p.count <= p.limit && Allowed(p, c) && c != Expire(t) && c != Mislead(t)
    requires t in p.asleep && t !in p.list && !InGap(p, t)
    ensures var q := Step(p, c); t in q.asleep && t !in q.list && !InGap(q, t)
  {
    if c.Give? && p.list != {} {
      assert Top(p.list) in p.list;
    }
  }
}
