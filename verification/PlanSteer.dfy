/** Executors that steer a plan to a chosen state, and runs on which one step fails. */
module PlanSteer {
  import opened PlanDag
  import opened PlanWalk
  import opened PlanState
  import opened PlanSafety
  import opened PlanRuns
  import opened PlanFrontier
  import opened PlanProgress
  import opened PlanStuck
  import opened PlanCalls

  // ----- executors that steer

  /** Both ways of building a step ask for this. */
  ghost predicate Budgets(steps: Steps) {
    forall k :: 0 <= k < |steps| ==> steps[k].retryMax >= 0
  }

  function Always(outcome: Outcome): Executor {
    (n: nat) => outcome
  }

  lemma {:induction false} StepReturned(s: State, step: Step, truthy: bool, truths: set<string>)
    requires !step.requireConsent && step.retryMax >= 0 && ConditionHolds(step, s.truths)
    ensures var t := StepTurn(s, step, Always(Returned(truthy, truths)), true).state;
      StatusOf(t, step.id) == Done && t.truths == SetTruth(truths, step.resultKey, truthy)
  {
    hide MarkCompleted;
    var exec := Always(Returned(truthy, truths));
    var a := Attempt(s, step, exec, 0, true);
    assert exec(|s.log|) == Returned(truthy, truths);
    SatisfyFrame(a.state.(truths := SetTruth(a.state.truths, step.resultKey, truthy)), step.id, Done);
  }

  lemma {:induction false} StepRaised(s: State, step: Step, truths: set<string>)
    requires !step.requireConsent && step.retryMax >= 0 && ConditionHolds(step, s.truths)
    ensures var t := StepTurn(s, step, Always(Raised(Permanent, truths)), true).state;
      if step.degradeTruthy.Some? then StatusOf(t, step.id) == Degraded else StatusOf(t, step.id) == Failed && t.truths == truths
  {
    hide MarkCompleted;
    var exec := Always(Raised(Permanent, truths));
    var a := Attempt(s, step, exec, 0, true);
    assert exec(|s.log|) == Raised(Permanent, truths);
    if step.degradeTruthy.Some? {
      SatisfyFrame(a.state.(truths := SetTruth(a.state.truths, step.resultKey, step.degradeTruthy.value)), step.id, Degraded);
    }
  }

  /** Only `fails` failed, nothing in `quiet` came out as done. */
  ghost predicate Steered(s: State, t: State, fails: Option<Id>, quiet: set<Id>) {
    forall id :: StatusOf(t, id) != StatusOf(s, id) ==>
      && (StatusOf(t, id) == Failed ==> fails == Some(id))
      && (StatusOf(t, id) == Done ==> id !in quiet)
      && (fails == Some(id) ==> !IsSatisfied(StatusOf(t, id)))
  }

  function KeyOf(steps: Steps, id: Id): string {
    match Find(steps, id)
    case None => ""
    case Some(step) => step.conditionKey
  }

  /** The condition of the step holds until it fails, and no condition holds from then on. */
  ghost predicate Armed(s: State, fails: Option<Id>) {
    fails.Some? ==>
      if StatusOf(s, fails.value) == Failed then s.truths == {} else KeyOf(s.steps, fails.value) in s.truths
  }

  lemma {:induction false} SteeredOn(s: State, t: State, u: State, fails: Option<Id>, quiet: set<Id>)
    requires Steered(s, t, fails, quiet) && Steered(t, u, fails, quiet)
    ensures Steered(s, u, fails, quiet)
  {
    forall id | StatusOf(u, id) != StatusOf(s, id)
      ensures (StatusOf(u, id) == Failed ==> fails == Some(id)) && (StatusOf(u, id) == Done ==> id !in quiet)
        && (fails == Some(id) ==> !IsSatisfied(StatusOf(u, id)))
    {
      assert StatusOf(t, id) != StatusOf(s, id) || StatusOf(u, id) != StatusOf(t, id);
    }
  }

  function OutcomeFor(s: State, id: Id, fails: Option<Id>, quiet: set<Id>): Outcome {
    if fails == Some(id) || id in quiet then Raised(Permanent, {})
    else if fails.Some? && StatusOf(s, fails.value) != Failed then Returned(true, {KeyOf(s.steps, fails.value)})
    else Returned(false, {})
  }

  ghost predicate CanSteer(s: State, fails: Option<Id>, quiet: set<Id>) {
    && Budgets(s.steps)
    && (forall id :: id in quiet ==> !CanFail(s.steps, id))
    && (fails.Some? ==> CanFail(s.steps, fails.value) && quiet == {})
    && Armed(s, fails)
  }

  lemma {:induction false} ExecutedSteered(s: State, step: Step, fails: Option<Id>, quiet: set<Id>)
    requires Resting(s) && step in ReadySteps(s) && CanSteer(s, fails, quiet) && ConditionHolds(step, s.truths)
    ensures var t := StepTurn(s, step, Always(OutcomeFor(s, step.id, fails, quiet)), true).state;
      Steered(s, t, fails, quiet) && Armed(t, fails) && t.steps == s.steps
  {
    hide StepTurn, ReadyAmong, NoConsent, LogGrows, Core, Covered, NoneRunning, ConditionHolds;
    RestingIs(s);
    ReadyNeedsNoConsent(s, step);
    FindIs(s.steps, step);
    var outcome := OutcomeFor(s, step.id, fails, quiet);
    StepTurnFrame(s, step, Always(outcome), true);
    if outcome.Raised? {
      StepRaised(s, step, outcome.truths);
    } else {
      StepReturned(s, step, outcome.truthy, outcome.truths);
    }
  }

  lemma {:induction false} SkippedSteered(s: State, step: Step, exec: Executor, fails: Option<Id>, quiet: set<Id>)
    requires Resting(s) && step in ReadySteps(s) && CanSteer(s, fails, quiet) && !ConditionHolds(step, s.truths)
    ensures var t := StepTurn(s, step, exec, true).state;
      Steered(s, t, fails, quiet) && Armed(t, fails) && t.steps == s.steps
  {
    hide ReadyAmong, NoConsent, Core, Covered, NoneRunning, MarkCompleted;
    RestingIs(s);
    ReadyNeedsNoConsent(s, step);
    FindIs(s.steps, step);
    SatisfyFrame(s, step.id, Skipped);
  }

  lemma {:induction false} NothingReadySteered(s: State, fails: Option<Id>, quiet: set<Id>)
    requires Armed(s, fails)
    ensures Steered(s, NothingReady(s), fails, quiet) && Armed(NothingReady(s), fails)
  {
    hide PropagateFrom, AllDependenciesFailed, AllFinal;
    var failed := s.(status := PlanFailed);
    PropagateKeepsChain(failed, IdsOf(s.steps), s.stepStatus, false);
    PropagateKeepsTruths(failed, IdsOf(s.steps), s.stepStatus, false);
    forall id
      ensures StatusOf(NothingReady(s), id) == StatusOf(s, id) || (IsOpen(StatusOf(s, id)) && StatusOf(NothingReady(s), id) == Blocked)
    {
      PropagationsBlockOnly(failed, IdsOf(s.steps), s.stepStatus, false, id);
    }
  }

  /** For every choice of what is to fail and what is to end quietly there is an executor. */
  lemma {:induction false} SteerLoop(s: State, fails: Option<Id>, quiet: set<Id>) returns (exec: Executor)
    requires Resting(s) && InLoop(s) && CanSteer(s, fails, quiet)
    ensures var t := Loop(s, exec, true); Steered(s, t, fails, quiet) && Armed(t, fails)
    decreases OpenSteps(s)
  {
    hide Resting, Loop, OpenSteps, NothingReady, StepTurn, ReadyAmong, StopIsFailed, NotAsking, Steered, Armed, Budgets, CanFail,
      ConditionHolds;
    RestingIs(s);
    var any := Always(Returned(false, {}));
    if ReadySteps(s) == [] {
      exec := any;
      LoopUnfold(s, exec, true);
      NothingReadySteered(s, fails, quiet);
    } else {
      var step := ReadySteps(s)[0];
      ReadyNeedsNoConsent(s, step);
      if ConditionHolds(step, s.truths) {
        exec := Always(OutcomeFor(s, step.id, fails, quiet));
        LoopUnfold(s, exec, true);
        ExecutedSteered(s, step, fails, quiet);
        StepOutcome(s, step, exec);
      } else {
        SkipIgnores(s, step, any);
        LoopUnfold(s, any, true);
        TurnStops(s, any, true);
        StepResting(s, step, any);
        SkippedSteered(s, step, any, fails, quiet);
        var t := StepTurn(s, step, any, true).state;
        exec := SteerLoop(t, fails, quiet);
        LoopUnfold(s, exec, true);
        SkipIgnores(s, step, exec);
        SteeredOn(s, t, Loop(t, exec, true), fails, quiet);
      }
    }
  }

  lemma {:induction false} SkipIgnores(s: State, step: Step, exec: Executor)
    requires !step.requireConsent && !ConditionHolds(step, s.truths)
    ensures StepTurn(s, step, exec, true) == Continue(Satisfy(s, step.id, Skipped))
  {
  }

  lemma {:induction false} SteerCall(s: State, fails: Option<Id>, quiet: set<Id>) returns (exec: Executor, x: Option<Id>)
    requires Steady(s) && Runs(s) && CanSteer(s, fails, quiet)
    ensures Called(s, FirstRun(s, exec), ExecuteNext(s, exec, false), x)
    ensures Steered(s, FirstRun(s, exec), fails, quiet) && Armed(FirstRun(s, exec), fails)
    ensures ReadySteps(s) == [] ==> x == None
  {
    hide Resting, Loop, ReadyAmong, Called, Settled, Acyclic, FailedCanFail, NoneRunning, Covered, OpenSteps, CanFail, FinalVerdict;
    SteadyIs(s);
    var r := Reopened(s);
    SameResting(s, r);
    RestingIs(r);
    ReopenedRuns(s);
    RebuildChangesNothing(r);
    var begin := r.(status := PlanRunning, pausedReason := None, pausedStep := None);
    SameResting(r, begin);
    exec := SteerLoop(begin, fails, quiet);
    SteeredSame(s, begin, FirstRun(s, exec), fails, quiet);
    x := CallTaken(s, exec);
  }

  lemma {:induction false} SteeredSame(s: State, r: State, t: State, fails: Option<Id>, quiet: set<Id>)
    requires Steered(r, t, fails, quiet) && r.stepStatus == s.stepStatus
    ensures Steered(s, t, fails, quiet)
  {
    assert forall id :: StatusOf(r, id) == StatusOf(s, id);
  }

  // ----- one step fails, all others finish

  ghost predicate OneFailure(s: State, f: Id) {
    && CanFail(s.steps, f) && Budgets(s.steps) && Armed(s, Some(f))
    && !IsSatisfied(StatusOf(s, f))
    && forall id :: StatusOf(s, id) != Cancelled && (StatusOf(s, id) == Failed ==> id == f)
  }

  lemma {:induction false} NextOneFailure(s: State, first: State, t: State, x: Option<Id>, f: Id)
    requires OneFailure(s, f) && Called(s, first, t, x) && Steered(s, first, Some(f), {}) && Armed(first, Some(f))
    ensures OneFailure(t, f)
  {
    hide Moves, CanFail, Budgets, Spread, PropagateUnblock;
    forall id
      ensures StatusOf(t, id) != Cancelled && (StatusOf(t, id) == Failed ==> id == f)
      ensures StatusOf(t, id) == Failed <==> StatusOf(first, id) == Failed
      ensures IsSatisfied(StatusOf(t, id)) ==> IsSatisfied(StatusOf(first, id))
    {
      CalledMoves(s, first, t, x, id);
      NotCancelled(s, first, x, id);
    }
  }

  lemma {:induction false} SteadyDriven(exec: Executor)
    ensures AllDriven([ExecuteNextStep(exec, false)])
  {
  }

  lemma {:induction false} DrivenOn(ops: seq<Operation>, more: seq<Operation>)
    requires AllDriven(ops) && AllDriven(more)
    ensures AllDriven(ops + more)
  {
    hide IsDriven;
  }

  /** Driven until nothing is open. */
  lemma {:induction false} FailDown(s: State, f: Id) returns (ops: seq<Operation>)
    requires Live(s) && Steady(s) && OneFailure(s, f)
    ensures AllDriven(ops)
    ensures var t := ApplyAll(s, ops); Live(t) && Steady(t) && OneFailure(t, f) && OpenSteps(t) == {} && t.steps == s.steps
    decreases OpenSteps(s)
  {
    hide Live, Steady, OneFailure, ApplyAll, ExecuteNext, OpenSteps, Steered, Called, AllDriven;
    if OpenSteps(s) == {} {
      ops := [];
      NothingApplied(s);
    } else {
      OpenRuns(s);
      OneFailureSteers(s, f);
      var exec, x := SteerCall(s, Some(f), {});
      var t := ExecuteNext(s, exec, false);
      NextLive(s, exec);
      NextSteady(s, exec);
      NextOneFailure(s, FirstRun(s, exec), t, x, f);
      var rest := FailDown(t, f);
      var op := ExecuteNextStep(exec, false);
      ops := [op] + rest;
      ApplyOne(s, op);
      ApplyAllJoins(s, [op], rest);
      SteadyDriven(exec);
      DrivenOn([op], rest);
    }
  }

  lemma {:induction false} NothingApplied(s: State)
    ensures ApplyAll(s, []) == s && AllDriven([])
  {
  }

  lemma {:induction false} OneFailureSteers(s: State, f: Id)
    requires OneFailure(s, f)
    ensures CanSteer(s, Some(f), {})
  {
  }

  /** `f` failed, what depends on it is blocked, everything else is satisfied. */
  ghost predicate Halved(s: State, f: Id) {
    forall id :: id in Ids(s.steps) && id != f ==> if Reaches(s.steps, f, id) then StatusOf(s, id) == Blocked else IsSatisfied(StatusOf(s, id))
  }

  /** Whatever is blocked depends on the only failure. */
  lemma {:induction false} BlockedBehindOne(s: State, f: Id, b: Id)
    requires Grounded(s) && Acyclic(s.steps) && OneFailure(s, f) && StatusOf(s, b) == Blocked
    ensures Reaches(s.steps, f, b)
  {
    hide DependsOn, Acyclic, Reaches, CanFail, Budgets, Armed;
    if !Reaches(s.steps, f, b) {
      var stray := set id | id in s.stepStatus && s.stepStatus[id] == Blocked && !Reaches(s.steps, f, id);
      var least := LeastOf(s.steps, stray, b);
      assert Behind(s, least);
      var d :| DependsOn(s.steps, least, d) && IsFailedDependency(StatusOf(s, d));
      if StatusOf(s, d) == Failed {
        DirectlyReaches(s.steps, f, least);
      } else {
        ReachesFurther(s.steps, f, d, least);
      }
    }
  }

  lemma {:induction false} LiveIs(s: State)
    requires Live(s)
    ensures Core(s) && Grounded(s) && Acyclic(s.steps) && NoneRunning(s) && DistinctIds(s.steps)
  {
    hide Settled, Core, Grounded, NoneRunning, Acyclic;
    GoingIs(s);
  }

  lemma {:induction false} ClosedHalves(s: State, f: Id)
    requires Live(s) && OneFailure(s, f) && OpenSteps(s) == {} && f in Ids(s.steps)
    ensures StatusOf(s, f) == Failed && Halved(s, f)
  {
    hide Live, OpenSteps, Core, Grounded, Acyclic, Reaches, CanFail, Budgets, Armed, Ids, DistinctIds;
    LiveIs(s);
    forall id | id in Ids(s.steps)
      ensures id == f ==> StatusOf(s, f) == Failed
      ensures id != f ==> if Reaches(s.steps, f, id) then StatusOf(s, id) == Blocked else IsSatisfied(StatusOf(s, id))
    {
      InOpenSteps(s, id);
      assert StatusOf(s, id) != Running && StatusOf(s, id) != Cancelled;
      if StatusOf(s, id) == Blocked {
        BlockedBehindOne(s, f, id);
        ReachesNotItself(s.steps, f);
      } else if Reaches(s.steps, f, id) && IsSatisfied(StatusOf(s, id)) {
        SatisfiedBefore(s, f, id);
      }
    }
  }

  lemma {:induction false} CanFailIsStep(steps: Steps, f: Id)
    requires CanFail(steps, f)
    ensures f in Ids(steps)
  {
  }

  lemma {:induction false} CreatedSteps(steps: Steps, truths: set<string>)
    ensures Create(steps, truths, 0).steps == steps
  {
  }

  lemma {:induction false} CreatedOneFailure(steps: Steps, f: Id)
    requires Budgets(steps) && CanFail(steps, f)
    ensures OneFailure(Create(steps, {KeyOf(steps, f)}, 0), f)
  {
    hide CanFail, Budgets;
    assert forall id :: StatusOf(Create(steps, {KeyOf(steps, f)}, 0), id) == Pending;
  }

  /** A run after which only `f` is open, everything that depends on it is blocked, everything
      else is satisfied, and no condition holds. */
  lemma {:induction false} FailAndRetry(steps: Steps, f: Id) returns (truths: set<string>, ops: seq<Operation>)
    requires IsPlain(steps) && Budgets(steps) && CanFail(steps, f)
    ensures AllDriven(ops)
    ensures var t := ApplyAll(Create(steps, truths, 0), ops);
      Steady(t) && t.steps == steps && StatusOf(t, f) == Pending && Halved(t, f) && t.truths == {}
  {
    hide Live, Steady, OneFailure, ApplyAll, ExecuteNext, OpenSteps, AllDriven, Create, CanFail, Budgets, Retry, CanRetry;
    truths := {KeyOf(steps, f)};
    var s := Create(steps, truths, 0);
    CreatedSteps(steps, truths);
    CreatedIsLive(steps, truths);
    CreatedIsSteady(steps, truths);
    CreatedOneFailure(steps, f);
    var first := FailDown(s, f);
    var mid := ApplyAll(s, first);
    CanFailIsStep(steps, f);
    ClosedHalves(mid, f);
    var op := RetryStep(f);
    ops := first + [op];
    OneFailureArmed(mid, f);
    RetriedHalves(mid, f);
    RetrySteady(mid, f);
    ApplyAllJoins(s, first, [op]);
    ApplyOne(mid, op);
    RetryDriven(f);
    DrivenOn(first, [op]);
  }

  lemma {:induction false} RetryDriven(f: Id)
    ensures AllDriven([RetryStep(f)])
  {
  }

  lemma {:induction false} OneFailureArmed(s: State, f: Id)
    requires OneFailure(s, f) && StatusOf(s, f) == Failed
    ensures s.truths == {} && Find(s.steps, f).Some?
  {
  }

  lemma {:induction false} RetriedHalves(s: State, f: Id)
    requires Halved(s, f) && StatusOf(s, f) == Failed && s.truths == {} && Find(s.steps, f).Some?
    ensures CanRetry(s, f)
    ensures var t := Retry(s, f); t.steps == s.steps && StatusOf(t, f) == Pending && Halved(t, f) && t.truths == {}
  {
    hide Reaches, Ids;
    assert forall id :: StatusOf(Retry(s, f), id) == if id == f then Pending else StatusOf(s, id);
  }

  // ----- the failed step is tried again

  lemma {:induction false} OnlyOpen(s: State, f: Id)
    requires Steady(s) && f in Ids(s.steps) && StatusOf(s, f) == Pending && Halved(s, f)
    ensures Runs(s) && ReadySteps(s) != [] && ReadySteps(s)[0].id == f
  {
    hide Steady, OpenSteps, Halved, ReadyAmong, Core, Acyclic, NoLeak;
    InOpenSteps(s, f);
    OpenRuns(s);
    SteadyIs(s);
    SteadyFails(s);
    SomethingIsReady(s);
    ReadyInHalves(s, ReadySteps(s)[0], f);
  }

  lemma {:induction false} ReadyInHalves(s: State, step: Step, f: Id)
    requires step in ReadySteps(s) && Halved(s, f)
    ensures step.id == f
  {
    hide Reaches;
    assert step in s.steps && IsReady(s, step);
    IsStepId(s.steps, step);
  }

  ghost predicate NoneFailedOrCancelled(s: State) {
    forall id :: StatusOf(s, id) != Failed && StatusOf(s, id) != Cancelled
  }

  /** A call keeps a plan without failures so, unless it makes one. */
  lemma {:induction false} StillNoneFailed(s: State, first: State, t: State, x: Option<Id>, quiet: set<Id>)
    requires NoneFailedOrCancelled(s) && Called(s, first, t, x) && Steered(s, first, None, quiet)
    ensures NoneFailedOrCancelled(t) && NoneFailedOrCancelled(first)
  {
    hide Called;
    forall id
      ensures StatusOf(t, id) != Failed && StatusOf(t, id) != Cancelled
      ensures StatusOf(first, id) != Failed && StatusOf(first, id) != Cancelled
    {
      CalledMoves(s, first, t, x, id);
      CalledRan(s, first, t, x);
      NotCancelled(s, first, x, id);
    }
  }

  lemma {:induction false} HalvedHasNoFailure(s: State, f: Id)
    requires Halved(s, f) && StatusOf(s, f) == Pending && Covered(s)
    ensures NoneFailedOrCancelled(s)
  {
    hide Reaches, Ids;
  }

  lemma {:induction false} HalvedStays(s: State, first: State, x: Option<Id>, f: Id)
    requires Halved(s, f) && Ran(s, first, x)
    ensures Halved(first, f)
  {
    hide Reaches, CanFail, CanBeSkipped;
    forall id | id in Ids(s.steps) && id != f
      ensures if Reaches(s.steps, f, id) then StatusOf(first, id) == Blocked else IsSatisfied(StatusOf(first, id))
    {
      assert Moves(s.steps, x, id, StatusOf(s, id), StatusOf(first, id));
    }
  }

  lemma {:induction false} SpreadsNothing(first: State)
    requires NoneFailedOrCancelled(first)
    ensures Spread(first) == first
  {
    hide PropagateFrom;
    assert !SomeStatus(first, Failed) && !SomeStatus(first, Cancelled) by {
      assert forall id :: id in first.stepStatus ==> first.stepStatus[id] == StatusOf(first, id);
    }
    NothingToPropagate(first, IdsOf(first.steps));
  }

  /** A run in which `f` fails, is tried again and is then done, and the statuses from which the
      pass behind it starts. */
  lemma {:induction false} FailRetryDone(steps: Steps, f: Id) returns (truths: set<string>, ops: seq<Operation>, exec: Executor, first: State)
    requires IsPlain(steps) && Budgets(steps) && IsFirm(steps, f)
    ensures AllDriven(ops)
    ensures var s := ApplyAll(Create(steps, truths, 0), ops); var t := ExecuteNext(s, exec, false);
      && Steady(s) && s.steps == steps && Runs(s) && NewlyDone(s, first, f)
      && Called(s, first, t, Some(f)) && t.stepStatus == PropagateUnblock(first, f).stepStatus
      && first.steps == steps && Covered(first) && Halved(first, f) && NoneFailedOrCancelled(first) && NoneFailedOrCancelled(t)
  {
    hide Steady, ApplyAll, ExecuteNext, AllDriven, Create, IsFirm, Budgets, Halved, ReadyAmong, FirstRun, Steered, NoneFailedOrCancelled,
      Spread, UnblockEach, Ran, Ids, Runs, NewlyDone;
    FirmCanFail(steps, f);
    truths, ops := FailAndRetry(steps, f);
    var s := ApplyAll(Create(steps, truths, 0), ops);
    CanFailIsStep(steps, f);
    OnlyOpen(s, f);
    SteadyIs(s);
    SteadyFails(s);
    var x: Option<Id>;
    NothingToSteer(s);
    exec, x := SteerCall(s, None, {});
    first := FirstRun(s, exec);
    HalvedHasNoFailure(s, f);
    StillNoneFailed(s, first, ExecuteNext(s, exec, false), x, {});
    RunsIs(s);
    FirstTakes(s, exec);
    NoneIsFailed(first, f);
    MovedFirm(s, first, x, f);
    CalledRan(s, first, ExecuteNext(s, exec, false), x);
    CoveredFirst(s, exec);
    HalvedStays(s, first, x, f);
    SpreadsNothing(first);
  }

  lemma {:induction false} FirmCanFail(steps: Steps, f: Id)
    requires IsFirm(steps, f)
    ensures CanFail(steps, f)
  {
  }

  lemma {:induction false} NothingToSteer(s: State)
    requires Budgets(s.steps)
    ensures CanSteer(s, None, {})
  {
  }

  lemma {:induction false} RunsIs(s: State)
    requires Runs(s)
    ensures !Ended(s)
  {
  }

  lemma {:induction false} NoneIsFailed(s: State, id: Id)
    requires NoneFailedOrCancelled(s)
    ensures StatusOf(s, id) != Failed
  {
  }
}
