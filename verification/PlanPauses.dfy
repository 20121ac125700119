/** Running a fresh plan to its end: exactly which plans can pause behind a failure.

    The long run marks nothing behind a failed step. It looks one dependency deep, and a step two
    deep keeps the plan waiting. */
module PlanPauses {
  import opened PlanDag
  import opened PlanWalk
  import opened PlanState
  import opened PlanSafety
  import opened PlanRuns
  import opened PlanFrontier
  import opened PlanProgress
  import opened PlanStuck
  import opened PlanCalls
  import opened PlanSteer

  // ----- the condition

  predicate FailsFast(steps: Steps, id: Id) {
    Find(steps, id).Some? && Find(steps, id).value.failFast
  }

  /** `x` depends on `f` through other steps only, and a failure of `f` does not stop the plan. */
  ghost predicate Deep(steps: Steps, f: Id, x: Id) {
    CanFail(steps, f) && !FailsFast(steps, f) && Reaches(steps, f, x) && !DependsOn(steps, x, f)
  }

  ghost predicate HasDeep(steps: Steps) {
    exists f, x :: Deep(steps, f, x)
  }

  /** Some executor makes a run from the start pause. */
  ghost predicate CanPause(steps: Steps) {
    exists truths, exec :: Run(Create(steps, truths, 0), exec).status == PlanPaused
  }

  // ----- inside the long run

  predicate IsTaken(st: StepStatus) {
    IsSatisfied(st) || st == Failed
  }

  /** Nothing but pending, satisfied and failed steps, and no failure that stops the plan. */
  ghost predicate Rolling(s: State) {
    && Core(s) && NoConsent(s.steps) && DependenciesExist(s.steps) && Acyclic(s.steps) && Covered(s) && InLoop(s) && s.verdict.None?
    && forall id :: (StatusOf(s, id) == Pending || IsTaken(StatusOf(s, id)))
         && (StatusOf(s, id) == Failed ==> CanFail(s.steps, id) && !FailsFast(s.steps, id))
  }

  /** How one pass of the long run ends. */
  lemma {:induction false} LongOutcome(s: State, step: Step, exec: Executor)
    requires !step.requireConsent
    ensures var turn := StepTurn(s, step, exec, false); var st := StatusOf(turn.state, step.id);
      && IsTaken(st) && turn.state.verdict == s.verdict
      && (st == Failed ==> step.degradeTruthy.None?)
      && (turn.Stop? <==> st == Failed && step.failFast)
      && (turn.Stop? ==> turn.state.status == PlanFailed)
  {
    hide Attempt, MarkCompleted;
    var a := Attempt(s, step, exec, 0, false);
    AttemptFrame(s, step, exec, 0, false);
    SatisfyFrame(s, step.id, Skipped);
    match a.result {
      case Some(truthy) =>
        SatisfyFrame(a.state.(truths := SetTruth(a.state.truths, step.resultKey, truthy)), step.id, Done);
      case None =>
        if step.degradeTruthy.Some? {
          SatisfyFrame(a.state.(truths := SetTruth(a.state.truths, step.resultKey, step.degradeTruthy.value)), step.id, Degraded);
        }
    }
  }

  lemma {:induction false} StepRolls(s: State, step: Step, exec: Executor)
    requires Rolling(s) && step in ReadySteps(s) && StepTurn(s, step, exec, false).Continue?
    ensures Rolling(StepTurn(s, step, exec, false).state)
  {
    hide StepTurn, ReadyAmong, LogGrows, NoConsent, DistinctIds, DependsOn, Acyclic, Core, Ids, DependenciesExist;
    var t := StepTurn(s, step, exec, false).state;
    CoreIs(s);
    StepTurnFrame(s, step, exec, false);
    StepTurnEnds(s, step, exec, false);
    StepFollows(s, step, exec, false);
    ReadyNeedsNoConsent(s, step);
    LongOutcome(s, step, exec);
    FindIs(s.steps, step);
    IsStepId(s.steps, step);
    forall id
      ensures (StatusOf(t, id) == Pending || IsTaken(StatusOf(t, id)))
         && (StatusOf(t, id) == Failed ==> CanFail(s.steps, id) && !FailsFast(s.steps, id))
    {
      assert id != step.id ==> StatusOf(t, id) == StatusOf(s, id);
    }
  }

  lemma {:induction false} RollingIs(s: State)
    requires Rolling(s)
    ensures Core(s) && DistinctIds(s.steps) && NoConsent(s.steps) && DependenciesExist(s.steps) && Acyclic(s.steps)
    ensures InLoop(s) && s.verdict.None?
    ensures forall id :: (StatusOf(s, id) == Pending || IsTaken(StatusOf(s, id)))
    ensures forall id :: StatusOf(s, id) == Failed ==> CanFail(s.steps, id) && !FailsFast(s.steps, id)
  {
    hide Core, NoConsent, DependenciesExist, Acyclic, Covered, CanFail, FailsFast;
    CoreIs(s);
  }

  // ----- a pause shows a deep step

  /** A pending step that is not ready waits for a dependency that is not satisfied. */
  lemma {:induction false} WaitsFor(s: State, k: nat) returns (d: Id)
    requires Rolling(s) && ReadySteps(s) == [] && k < |s.steps| && StatusOf(s, s.steps[k].id) == Pending
    ensures DependsOn(s.steps, s.steps[k].id, d) && !IsSatisfied(StatusOf(s, d))
  {
    hide ReadyAmong, DependsOn, NoConsent, DependenciesExist, Acyclic, Earned, LogSafe, DistinctIds;
    var step := s.steps[k];
    assert step !in ReadySteps(s);
    assert !IsReady(s, step);
    var i :| 0 <= i < |step.dependsOn| && step.dependsOn[i] !in s.satisfied;
    d := step.dependsOn[i];
    IsDependency(s.steps, k, d);
  }

  /** The pending steps a step waits for, and the step itself. */
  ghost function WaitedFor(s: State, x: Id): set<Id> {
    set id | id in Ids(s.steps) && StatusOf(s, id) == Pending && (id == x || Reaches(s.steps, id, x))
  }

  lemma {:induction false} LeastWaits(s: State, x: Id) returns (z: Id, f: Id)
    requires Rolling(s) && ReadySteps(s) == [] && x in Ids(s.steps) && StatusOf(s, x) == Pending
    ensures (z == x || Reaches(s.steps, z, x)) && DependsOn(s.steps, z, f) && StatusOf(s, f) == Failed
  {
    hide ReadyAmong, DependsOn, NoConsent, Acyclic, Core, Reaches, Rolling, DistinctIds;
    RollingIs(s);
    z := LeastOf(s.steps, WaitedFor(s, x), x);
    var k :| 0 <= k < |s.steps| && s.steps[k].id == z;
    f := WaitsFor(s, k);
    if StatusOf(s, f) == Pending {
      DirectlyReaches(s.steps, f, z);
      if z != x {
        ReachesOn(s.steps, f, z, x);
      }
      IsWaitedFor(s, x, f);
    }
  }

  lemma {:induction false} IsWaitedFor(s: State, x: Id, f: Id)
    requires f in Ids(s.steps) && StatusOf(s, f) == Pending && Reaches(s.steps, f, x)
    ensures f in WaitedFor(s, x)
  {
  }

  lemma {:induction false} PausedIsDeep(s: State)
    requires Rolling(s) && ReadySteps(s) == [] && NothingReady(s).status == PlanPaused
    ensures HasDeep(s.steps)
  {
    hide ReadyAmong, DependsOn, NoConsent, Acyclic, Core, Reaches, PropagateFrom, CanFail, FailsFast, DistinctIds, Covered;
    PropagateKeepsPause(s.(status := PlanFailed), IdsOf(s.steps), s.stepStatus, false);
    var k :| 0 <= k < |s.steps| && !IsFinal(StatusOf(s, s.steps[k].id)) && !HasFailedDependency(s, s.steps[k].dependsOn);
    var x := s.steps[k].id;
    assert StatusOf(s, x) == Pending || IsTaken(StatusOf(s, x));
    IsStepId(s.steps, s.steps[k]);
    var z, f := LeastWaits(s, x);
    DirectlyReaches(s.steps, f, z);
    NoneDirectly(s, k, f);
    if z != x {
      ReachesOn(s.steps, f, z, x);
    }
    assert Deep(s.steps, f, x);
  }

  lemma {:induction false} NoneDirectly(s: State, k: nat, f: Id)
    requires Core(s) && k < |s.steps| && !HasFailedDependency(s, s.steps[k].dependsOn) && StatusOf(s, f) == Failed
    ensures !DependsOn(s.steps, s.steps[k].id, f)
  {
    if DependsOn(s.steps, s.steps[k].id, f) {
      NoneFailedAt(s, k, f);
    }
  }

  lemma {:induction false} NoneFailedAt(s: State, k: nat, f: Id)
    requires DistinctIds(s.steps) && k < |s.steps| && DependsOn(s.steps, s.steps[k].id, f) && StatusOf(s, f) == Failed
    ensures HasFailedDependency(s, s.steps[k].dependsOn)
  {
    var i :| 0 <= i < |s.steps| && s.steps[i].id == s.steps[k].id && f in s.steps[i].dependsOn;
    NoneFailed(s, s.steps[k].dependsOn, f);
  }

  lemma {:induction false} LoopPauses(s: State, exec: Executor)
    requires Rolling(s) && Loop(s, exec, false).status == PlanPaused
    ensures HasDeep(s.steps)
    decreases OpenSteps(s)
  {
    hide Rolling, Loop, OpenSteps, NothingReady, StepTurn, ReadyAmong, HasDeep, NoConsent;
    LoopUnfold(s, exec, false);
    RollingIs(s);
    if ReadySteps(s) == [] {
      PausedIsDeep(s);
    } else {
      var step := ReadySteps(s)[0];
      ReadyNeedsNoConsent(s, step);
      LongOutcome(s, step, exec);
      StepTurnKeepsSteps(s, step, exec);
      if StepTurn(s, step, exec, false).Continue? {
        StepRolls(s, step, exec);
        LoopPauses(StepTurn(s, step, exec, false).state, exec);
      }
    }
  }

  lemma {:induction false} StepTurnKeepsSteps(s: State, step: Step, exec: Executor)
    ensures StepTurn(s, step, exec, false).state.steps == s.steps
  {
    hide StepTurn, LogGrows;
    StepTurnFrame(s, step, exec, false);
  }

  // ----- a deep step is made to wait

  /** Every call from the nth on returns, but call `m` fails for good. */
  ghost predicate Aimed(exec: Executor, from: nat, m: nat, key: string) {
    && exec(m) == Raised(Permanent, {})
    && forall n: nat :: n >= from && n != m ==> exec(n) == Returned(true, {key})
  }

  lemma {:induction false} LongReturned(s: State, step: Step, exec: Executor, key: string)
    requires !step.requireConsent && step.retryMax >= 0 && ConditionHolds(step, s.truths)
    requires exec(|s.log|) == Returned(true, {key})
    ensures var turn := StepTurn(s, step, exec, false);
      turn.Continue? && StatusOf(turn.state, step.id) == Done && key in turn.state.truths && |turn.state.log| == |s.log| + 1
  {
    hide MarkCompleted;
    var a := Attempt(s, step, exec, 0, false);
    SatisfyFrame(a.state.(truths := SetTruth(a.state.truths, step.resultKey, true)), step.id, Done);
  }

  lemma {:induction false} LongRaised(s: State, step: Step, exec: Executor)
    requires !step.requireConsent && step.retryMax >= 0 && ConditionHolds(step, s.truths)
    requires step.degradeTruthy.None? && !step.failFast && exec(|s.log|) == Raised(Permanent, {})
    ensures var turn := StepTurn(s, step, exec, false);
      turn.Continue? && StatusOf(turn.state, step.id) == Failed && |turn.state.log| == |s.log| + 1
  {
    ProcessedFrame(SetStatus(Attempt(s, step, exec, 0, false).state, step.id, Failed), step.id);
  }

  lemma {:induction false} LongSkipped(s: State, step: Step, exec: Executor)
    requires !step.requireConsent && !ConditionHolds(step, s.truths)
    ensures StepTurn(s, step, exec, false) == Continue(Satisfy(s, step.id, Skipped))
    ensures var t := Satisfy(s, step.id, Skipped); StatusOf(t, step.id) == Skipped && t.truths == s.truths && t.log == s.log
  {
    SatisfyFrame(s, step.id, Skipped);
  }

  /** Of a deep pair, the first step failed or is about to, and nothing else failed. */
  ghost predicate OneFails(s: State, f: Id, x: Id) {
    && Rolling(s) && Budgets(s.steps) && Deep(s.steps, f, x)
    && !IsSatisfied(StatusOf(s, f)) && (StatusOf(s, f) != Failed ==> KeyOf(s.steps, f) in s.truths)
    && forall id :: StatusOf(s, id) == Failed ==> id == f
  }

  /** The long run comes to a pause with `x` pending. */
  ghost predicate PausesAt(t: State, x: Id) {
    t.status == PlanPaused && t.verdict.None? && StatusOf(t, x) == Pending && x in Ids(t.steps) && Covered(t)
  }

  lemma {:induction false} DeepIsPending(s: State, f: Id, x: Id)
    requires OneFails(s, f, x)
    ensures StatusOf(s, x) == Pending && x in Ids(s.steps)
  {
    hide Core, DependsOn, Reaches, Budgets, CanFail, NoConsent, DependenciesExist, Acyclic, Covered, Ids, Downstream;
    RollingIs(s);
    assert StatusOf(s, x) == Pending || IsTaken(StatusOf(s, x));
    ReachesNotItself(s.steps, f);
    DownstreamIsReachable(s.steps, f, x);
    if IsSatisfied(StatusOf(s, x)) {
      SatisfiedBefore(s, f, x);
    }
  }

  lemma {:induction false} WaitsQuietly(s: State, f: Id, x: Id)
    requires OneFails(s, f, x)
    ensures PausesAt(NothingReady(s), x)
  {
    hide Core, DependsOn, Reaches, Budgets, CanFail, NoConsent, DependenciesExist, Acyclic, PropagateFrom, FailsFast;
    RollingIs(s);
    DeepIsPending(s, f, x);
    var k :| 0 <= k < |s.steps| && s.steps[k].id == x;
    forall i | 0 <= i < |s.steps[k].dependsOn|
      ensures !IsFailedDependency(StatusOf(s, s.steps[k].dependsOn[i]))
    {
      var d := s.steps[k].dependsOn[i];
      IsDependency(s.steps, k, d);
      assert StatusOf(s, d) == Pending || IsTaken(StatusOf(s, d));
    }
    assert !HasFailedDependency(s, s.steps[k].dependsOn);
    assert !IsFinal(StatusOf(s, s.steps[k].id));
  }

  /** One pass when the call is not the one that fails. */
  lemma {:induction false} OtherRolls(s: State, step: Step, exec: Executor, f: Id, x: Id)
    requires OneFails(s, f, x) && step in ReadySteps(s) && step.id != f
    requires ConditionHolds(step, s.truths) ==> exec(|s.log|) == Returned(true, {KeyOf(s.steps, f)})
    ensures StepTurn(s, step, exec, false).Continue?
    ensures var t := StepTurn(s, step, exec, false).state;
      && OneFails(t, f, x) && t.steps == s.steps && StatusOf(t, f) == StatusOf(s, f)
      && |t.log| == |s.log| + if ConditionHolds(step, s.truths) then 1 else 0
  {
    hide Core, DependsOn, Reaches, CanFail, NoConsent, Rolling, StepTurn, LogGrows, ReadyAmong, Satisfy, ConditionHolds;
    RollingIs(s);
    ReadyNeedsNoConsent(s, step);
    if ConditionHolds(step, s.truths) {
      LongReturned(s, step, exec, KeyOf(s.steps, f));
    } else {
      LongSkipped(s, step, exec);
    }
    StepRolls(s, step, exec);
    StepTurnFrame(s, step, exec, false);
    OthersKept(s, StepTurn(s, step, exec, false).state, step);
  }

  lemma {:induction false} OthersKept(s: State, t: State, step: Step)
    requires t.stepStatus == s.stepStatus[step.id := StatusOf(t, step.id)]
    ensures forall id :: id != step.id ==> StatusOf(t, id) == StatusOf(s, id)
  {
  }

  /** The pass in which the step fails. */
  lemma {:induction false} FailureRolls(s: State, step: Step, exec: Executor, f: Id, x: Id)
    requires OneFails(s, f, x) && step in ReadySteps(s) && step.id == f && exec(|s.log|) == Raised(Permanent, {})
    ensures StepTurn(s, step, exec, false).Continue?
    ensures var t := StepTurn(s, step, exec, false).state;
      OneFails(t, f, x) && t.steps == s.steps && StatusOf(t, f) == Failed && |t.log| == |s.log| + 1
  {
    hide Core, DependsOn, Reaches, NoConsent, Rolling, StepTurn, LogGrows, ReadyAmong;
    RollingIs(s);
    ReadyNeedsNoConsent(s, step);
    FindIs(s.steps, step);
    LongRaised(s, step, exec);
    StepRolls(s, step, exec);
    StepTurnFrame(s, step, exec, false);
    OthersKept(s, StepTurn(s, step, exec, false).state, step);
  }

  /** After the failure the run goes on to the pause. */
  lemma {:induction false} RollsOn(s: State, exec: Executor, m: nat, f: Id, x: Id)
    requires OneFails(s, f, x) && StatusOf(s, f) == Failed && m < |s.log| && Aimed(exec, |s.log|, m, KeyOf(s.steps, f))
    ensures PausesAt(Loop(s, exec, false), x)
    decreases OpenSteps(s)
  {
    hide OneFails, Loop, OpenSteps, NothingReady, StepTurn, ReadyAmong, PausesAt, ConditionHolds, KeyOf;
    LoopUnfold(s, exec, false);
    if ReadySteps(s) == [] {
      WaitsQuietly(s, f, x);
    } else {
      var step := ReadySteps(s)[0];
      OpenIsNotFailed(s, step, f);
      OtherRolls(s, step, exec, f, x);
      RollsOn(StepTurn(s, step, exec, false).state, exec, m, f, x);
    }
  }

  lemma {:induction false} OpenIsNotFailed(s: State, step: Step, f: Id)
    requires step in ReadySteps(s)
    ensures step in s.steps && (StatusOf(s, f) == Failed ==> step.id != f)
  {
    assert step in s.steps && IsReady(s, step);
  }

  lemma {:induction false} FailingIsReady(s: State, f: Id, x: Id)
    requires OneFails(s, f, x) && StatusOf(s, f) == Pending
    ensures ReadySteps(s) != []
  {
    hide Core, DependsOn, Reaches, NoConsent, DependenciesExist, Acyclic, Covered, Ids, ReadyAmong, OpenSteps, CanFail, Deep;
    RollingIs(s);
    DeepIsPending(s, f, x);
    InOpenSteps(s, x);
    forall id
      ensures !IsFailedDependency(StatusOf(s, id)) && StatusOf(s, id) != Running
    {
      assert StatusOf(s, id) == Pending || IsTaken(StatusOf(s, id));
    }
    SomethingIsReady(s);
  }

  /** A pass looks at one outcome only, when that outcome is final. */
  lemma {:induction false} SameTurn(s: State, step: Step, exec: Executor, other: Executor)
    requires !step.requireConsent && step.retryMax >= 0
    requires ConditionHolds(step, s.truths) ==> exec(|s.log|) == other(|s.log|) && other(|s.log|).Returned?
    ensures StepTurn(s, step, exec, false) == StepTurn(s, step, other, false)
  {
    hide Conclude, MarkCompleted;
    if ConditionHolds(step, s.truths) {
      assert Attempt(s, step, exec, 0, false) == Attempt(s, step, other, 0, false);
    }
  }

  lemma {:induction false} HasBudget(s: State, step: Step)
    requires Budgets(s.steps) && NoConsent(s.steps) && step in s.steps
    ensures step.retryMax >= 0 && !step.requireConsent
  {
  }

  lemma {:induction false} OneFailsIs(s: State, f: Id, x: Id)
    requires OneFails(s, f, x)
    ensures Rolling(s) && Budgets(s.steps) && NoConsent(s.steps)
  {
    hide Core, NoConsent, DependenciesExist, Acyclic, Covered, CanFail, FailsFast;
  }

  /** Until the failure: the call to aim at is found by letting every earlier one return. */
  lemma {:induction false} FindsCall(s: State, f: Id, x: Id) returns (m: nat)
    requires OneFails(s, f, x) && StatusOf(s, f) == Pending
    ensures m >= |s.log|
    ensures forall exec: Executor :: Aimed(exec, |s.log|, m, KeyOf(s.steps, f)) ==> PausesAt(Loop(s, exec, false), x)
    decreases OpenSteps(s)
  {
    hide OneFails, Loop, OpenSteps, NothingReady, StepTurn, ReadyAmong, PausesAt, ConditionHolds, KeyOf, Rolling, NoConsent, Budgets;
    FailingIsReady(s, f, x);
    var step := ReadySteps(s)[0];
    OpenIsNotFailed(s, step, f);
    OneFailsIs(s, f, x);
    HasBudget(s, step);
    var key := KeyOf(s.steps, f);
    var any := Always(Returned(true, {key}));
    if step.id == f {
      m := |s.log|;
      forall exec: Executor | Aimed(exec, |s.log|, m, key)
        ensures PausesAt(Loop(s, exec, false), x)
      {
        FailureRolls(s, step, exec, f, x);
        LoopUnfold(s, exec, false);
        RollsOn(StepTurn(s, step, exec, false).state, exec, m, f, x);
      }
    } else {
      OtherRolls(s, step, any, f, x);
      LoopUnfold(s, any, false);
      var t := StepTurn(s, step, any, false).state;
      m := FindsCall(t, f, x);
      if !ConditionHolds(step, s.truths) {
        forall exec: Executor | Aimed(exec, |s.log|, m, key)
          ensures PausesAt(Loop(s, exec, false), x)
        {
          SameTurn(s, step, exec, any);
          LoopUnfold(s, exec, false);
        }
      } else {
        forall exec: Executor | Aimed(exec, |s.log|, m, key)
          ensures PausesAt(Loop(s, exec, false), x)
        {
          SameTurn(s, step, exec, any);
          LoopUnfold(s, exec, false);
          assert Aimed(exec, |t.log|, m, key);
        }
      }
    }
  }

  // ----- exactly which plans can pause

  /** Where the long run of a fresh plan begins. */
  ghost function Begun(steps: Steps, truths: set<string>): State {
    Rebuild(Create(steps, truths, 0)).(status := PlanRunning)
  }

  lemma {:induction false} BegunRolls(steps: Steps, truths: set<string>)
    requires IsPlain(steps)
    ensures Rolling(Begun(steps, truths)) && Begun(steps, truths).steps == steps
    ensures forall id :: StatusOf(Begun(steps, truths), id) == Pending
    ensures Begun(steps, truths).truths == truths
  {
    hide Core, DependsOn, DependenciesExist, Acyclic, NoConsent, DistinctIds, CanFail, FailsFast;
    var s := Create(steps, truths, 0);
    CreatedIsSafe(steps, truths, 0);
    CoreIs(s);
    RebuildChangesNothing(s);
    SameStatusesShift(s, Begun(steps, truths));
    ShiftFollows(s, Begun(steps, truths));
    assert forall id :: StatusOf(Begun(steps, truths), id) == Pending;
  }

  /** Running a fresh plan pauses exactly when its loop does. */
  lemma {:induction false} RunIsLoop(steps: Steps, truths: set<string>, exec: Executor)
    requires steps != []
    ensures var s := Create(steps, truths, 0); var t := Loop(Begun(steps, truths), exec, false);
      Run(s, exec) == Settle(t)
  {
    hide Loop, Settle;
    var s := Create(steps, truths, 0);
    RunKeepsChain(s, exec, false);
    assert RunUntilBlocked(s, exec, false) == Loop(Begun(steps, truths), exec, false);
    assert Routed(s) == s;
  }

  lemma {:induction false} SettledPause(t: State)
    ensures Settle(t).status == PlanPaused ==> t.status == PlanPaused
  {
    hide AnyOpenOrRunning, AllDone, SomeStatus;
  }

  lemma {:induction false} PauseSettles(t: State, x: Id)
    requires PausesAt(t, x)
    ensures Settle(t) == t && t.status == PlanPaused
  {
    OpenIsSome(t, x);
  }

  /** For every deep pair some run ends in a pause with the second step still pending. */
  lemma {:induction false} DeepPauses(steps: Steps, f: Id, x: Id) returns (exec: Executor)
    requires IsPlain(steps) && Budgets(steps) && Deep(steps, f, x)
    ensures PausesAt(Run(Create(steps, {KeyOf(steps, f)}, 0), exec), x)
  {
    hide IsPlain, Budgets, Deep, Rolling, Loop, Run, PausesAt, KeyOf, OpenSteps, Settle;
    var key := KeyOf(steps, f);
    BegunRolls(steps, {key});
    var s := Begun(steps, {key});
    var m := FindsCall(s, f, x);
    exec := (n: nat) => if n == m then Raised(Permanent, {}) else Returned(true, {key});
    assert Aimed(exec, |s.log|, m, key);
    var t := Loop(s, exec, false);
    DeepIsStep(steps, f, x);
    RunIsLoop(steps, {key}, exec);
    PauseSettles(t, x);
  }

  lemma {:induction false} DeepIsStep(steps: Steps, f: Id, x: Id)
    requires Deep(steps, f, x)
    ensures steps != []
  {
    CanFailIsStep(steps, f);
  }

  /** A plan can pause in a run from the start exactly when a step depends on one that can fail
      without stopping the plan, and only through other steps. */
  lemma {:induction false} CanPauseIff(steps: Steps)
    requires IsPlain(steps) && Budgets(steps)
    ensures CanPause(steps) <==> HasDeep(steps)
  {
    hide IsPlain, Budgets, Deep, Rolling, Loop, Run, PausesAt, KeyOf, Settle, Create;
    if HasDeep(steps) {
      var f, x :| Deep(steps, f, x);
      var exec := DeepPauses(steps, f, x);
      PausedIs(Run(Create(steps, {KeyOf(steps, f)}, 0), exec), x);
    }
    if CanPause(steps) {
      var truths, exec :| Run(Create(steps, truths, 0), exec).status == PlanPaused;
      EmptyRun(steps, truths, exec);
      RunIsLoop(steps, truths, exec);
      BegunRolls(steps, truths);
      SettledPause(Loop(Begun(steps, truths), exec, false));
      LoopPauses(Begun(steps, truths), exec);
    }
  }

  lemma {:induction false} PausedIs(t: State, x: Id)
    requires PausesAt(t, x)
    ensures t.status == PlanPaused
  {
  }

  lemma {:induction false} EmptyRun(steps: Steps, truths: set<string>, exec: Executor)
    ensures steps == [] ==> Run(Create(steps, truths, 0), exec).status == PlanDone
  {
    hide RunUntilBlocked, Settle;
  }

  // ----- a chain of three

  const HEAD := Step("a", "x", [], "", 0, None, false, false)
  const MIDDLE := Step("b", "y", ["a"], "", 0, None, false, true)
  const TAIL := Step("c", "z", ["b"], "", 0, None, false, true)
  const CHAIN: Steps := [HEAD, MIDDLE, TAIL]

  lemma {:induction false} ChainDependencies(x: Id, d: Id)
    ensures DependsOn(CHAIN, x, d) <==> (x == "b" && d == "a") || (x == "c" && d == "b")
    ensures Ids(CHAIN) == {"a", "b", "c"} && DistinctIds(CHAIN)
  {
    if DependsOn(CHAIN, x, d) {
      var i :| 0 <= i < |CHAIN| && CHAIN[i].id == x && d in CHAIN[i].dependsOn;
    }
    assert "a" in CHAIN[1].dependsOn && "b" in CHAIN[2].dependsOn;
    assert CHAIN[0].id == "a" && CHAIN[1].id == "b" && CHAIN[2].id == "c";
  }

  lemma {:induction false} ChainIsPlain()
    ensures IsPlain(CHAIN) && Budgets(CHAIN) && Deep(CHAIN, "a", "c")
  {
    hide DependsOn, Ids;
    var order := ["a", "b", "c"];
    ChainDependencies("", "");
    forall x, d
      ensures DependsOn(CHAIN, x, d) <==> (x == "b" && d == "a") || (x == "c" && d == "b")
    {
      ChainDependencies(x, d);
    }
    assert order[..1] == ["a"] && order[..2] == ["a", "b"];
    OrderedIsAcyclic(CHAIN, order);
    FindIs(CHAIN, HEAD);
    DirectlyReaches(CHAIN, "a", "b");
    ReachesFurther(CHAIN, "a", "b", "c");
  }

  /** Two deep behind a failure that does not stop the plan, a run from the start pauses: the
      last of three steps stays pending. */
  lemma {:induction false} ChainPauses() returns (exec: Executor)
    ensures var t := Run(Create(CHAIN, {""}, 0), exec);
      t.status == PlanPaused && t.verdict.None? && StatusOf(t, "c") == Pending
  {
    hide Run, Create, IsPlain, Deep, Budgets;
    ChainIsPlain();
    exec := DeepPauses(CHAIN, "a", "c");
    ChainDependencies("", "");
    FindIs(CHAIN, HEAD);
  }
}
