/** When a call leaves nothing open and the plan has not ended: steps are stranded, blocked with no
    failure left that could be retried. Which plans can come to that, `PlanRetries` says. */
module PlanStuck {
  import opened PlanDag
  import opened PlanWalk
  import opened PlanState
  import opened PlanSafety
  import opened PlanRuns
  import opened PlanFrontier
  import opened PlanProgress

  /** Blocked steps, and no failure left that could be retried. */
  ghost predicate Stranded(s: State) {
    SomeStatus(s, Blocked) && !SomeStatus(s, Failed) && !SomeStatus(s, Cancelled)
  }

  // ----- the exact condition

  /** What a call keeps even when a step was retried before. */
  ghost predicate Resting(s: State) {
    Core(s) && NoConsent(s.steps) && NoneRunning(s) && Covered(s)
  }

  lemma {:induction false} StepResting(s: State, step: Step, exec: Executor)
    requires Resting(s) && step in ReadySteps(s)
    ensures var t := StepTurn(s, step, exec, true).state; Resting(t) && t.verdict == s.verdict
  {
    hide StepTurn, ReadyAmong, DependsOn, Core, OpenSteps, LogGrows, NoConsent, Ids;
    StepTurnFrame(s, step, exec, true);
    ReadyNeedsNoConsent(s, step);
    StepFollows(s, step, exec, true);
    IsStepId(s.steps, step);
  }

  lemma {:induction false} NothingReadyResting(s: State)
    requires Resting(s)
    ensures Resting(NothingReady(s)) && NothingReady(s).verdict == s.verdict
  {
    hide PropagateFrom, DependsOn, Core, NoConsent, Ids, AllDependenciesFailed, AllFinal;
    var failed := s.(status := PlanFailed);
    NothingReadyFollows(s);
    FollowsIs(s, NothingReady(s));
    PropagateKeepsPause(failed, IdsOf(s.steps), s.stepStatus, false);
    PropagateKeepsChain(failed, IdsOf(s.steps), s.stepStatus, false);
    PropagationCovers(failed, IdsOf(s.steps), s.stepStatus, false);
    forall id
      ensures StatusOf(NothingReady(s), id) != Running
    {
      assert StatusOf(s, id) != Running;
      PropagationsBlockOnly(failed, IdsOf(s.steps), s.stepStatus, false, id);
    }
  }

  lemma {:induction false} LoopResting(s: State, exec: Executor)
    requires Resting(s) && InLoop(s)
    ensures var t := Loop(s, exec, true); Resting(t) && t.verdict == s.verdict && EndsWell(t)
    decreases OpenSteps(s)
  {
    hide Resting, Loop, OpenSteps, EndsWell, NothingReady, StepTurn, ReadyAmong, StopIsFailed, NotAsking;
    LoopUnfold(s, exec, true);
    RestingIs(s);
    TurnEndsWell(s, exec);
    TurnStops(s, exec, true);
    if ReadySteps(s) == [] {
      NothingReadyResting(s);
    } else {
      StepResting(s, ReadySteps(s)[0], exec);
      if TakeTurn(s, exec, true).Continue? {
        LoopResting(TakeTurn(s, exec, true).state, exec);
      }
    }
  }

  lemma {:induction false} RestingIs(s: State)
    requires Resting(s)
    ensures Core(s) && Exact(s) && NoConsent(s.steps) && NoneRunning(s) && Covered(s) && DistinctIds(s.steps)
  {
  }

  lemma {:induction false} SameResting(s: State, t: State)
    requires Resting(s)
    requires t == s.(status := t.status, verdict := t.verdict, pausedReason := t.pausedReason, pausedStep := t.pausedStep)
    ensures Resting(t)
  {
    hide Core, NoConsent;
    SameStatusesShift(s, t);
    ShiftFollows(s, t);
    SameStatusesLeak(s, t);
  }

  lemma {:induction false} RunResting(s: State, exec: Executor)
    requires Resting(s) && !IsTerminal(s.status)
    ensures var t := RunUntilBlocked(s, exec, true); Resting(t) && t.verdict == s.verdict && EndsWell(t)
  {
    hide Resting, Loop, EndsWell;
    RestingIs(s);
    RebuildChangesNothing(s);
    var begin := s.(status := PlanRunning, pausedReason := None, pausedStep := None);
    SameResting(s, begin);
    LoopResting(begin, exec);
  }

  lemma {:induction false} UnblockingsReopenOnly(s: State, ids: seq<Id>, now: map<Id, StepStatus>, before: map<Id, StepStatus>, id: Id)
    ensures var t := UnblockFrom(s, ids, now, before);
      StatusOf(t, id) == StatusOf(s, id) || (StatusOf(s, id) == Blocked && StatusOf(t, id) == Pending)
  {
    hide UnblockEach;
    if ids == [] {
    } else {
      var rest := UnblockFrom(s, ids[..|ids| - 1], now, before);
      UnblockingsReopenOnly(s, ids[..|ids| - 1], now, before, id);
      UnblockedEach(rest, Downstream(rest.steps, ids[|ids| - 1]), id);
    }
  }

  lemma {:induction false} UnblockEachCovers(s: State, ids: seq<Id>)
    requires Covered(s)
    ensures Covered(UnblockEach(s, ids))
  {
    hide Ids, HasFailedDependency, DependenciesOf;
    if ids == [] {
    } else {
      UnblockEachCovers(s, ids[..|ids| - 1]);
      UnblockEachKeepsSteps(s, ids[..|ids| - 1]);
    }
  }

  lemma {:induction false} UnblockFromCovers(s: State, ids: seq<Id>, now: map<Id, StepStatus>, before: map<Id, StepStatus>)
    requires Covered(s)
    ensures Covered(UnblockFrom(s, ids, now, before))
  {
    hide UnblockEach, Covered;
    if ids == [] {
    } else {
      var rest := UnblockFrom(s, ids[..|ids| - 1], now, before);
      UnblockFromCovers(s, ids[..|ids| - 1], now, before);
      UnblockEachCovers(rest, Downstream(rest.steps, ids[|ids| - 1]));
    }
  }

  /** How the statuses after a call differ from those after its run. */
  ghost predicate Marked(first: State, u: State) {
    && u.steps == first.steps && u.status == first.status && u.verdict == first.verdict && u.pausedReason == first.pausedReason
    && Covered(u)
    && forall id :: StatusOf(u, id) == StatusOf(first, id)
         || (IsOpen(StatusOf(first, id)) && StatusOf(u, id) == Blocked)
         || ((IsOpen(StatusOf(first, id)) || StatusOf(first, id) == Blocked) && StatusOf(u, id) == Pending)
  }

  lemma {:induction false} CallMarks(first: State, previous: map<Id, StepStatus>)
    requires Covered(first)
    ensures var marked := PropagateFrom(first, IdsOf(first.steps), first.stepStatus, true);
      Marked(first, UnblockFrom(marked, IdsOf(marked.steps), marked.stepStatus, previous))
  {
    hide PropagateFrom, UnblockFrom, Covered;
    var marked := PropagateFrom(first, IdsOf(first.steps), first.stepStatus, true);
    var u := UnblockFrom(marked, IdsOf(marked.steps), marked.stepStatus, previous);
    PropagateKeepsPause(first, IdsOf(first.steps), first.stepStatus, true);
    PropagateKeepsChain(first, IdsOf(first.steps), first.stepStatus, true);
    PropagationCovers(first, IdsOf(first.steps), first.stepStatus, true);
    UnblockFromKeepsPause(marked, IdsOf(marked.steps), marked.stepStatus, previous);
    UnblockFromShifts(marked, IdsOf(marked.steps), marked.stepStatus, previous);
    UnblockFromCovers(marked, IdsOf(marked.steps), marked.stepStatus, previous);
    forall id
      ensures StatusOf(u, id) == StatusOf(first, id)
         || (IsOpen(StatusOf(first, id)) && StatusOf(u, id) == Blocked)
         || ((IsOpen(StatusOf(first, id)) || StatusOf(first, id) == Blocked) && StatusOf(u, id) == Pending)
    {
      PropagationsBlockOnly(first, IdsOf(first.steps), first.stepStatus, true, id);
      UnblockingsReopenOnly(marked, IdsOf(marked.steps), marked.stepStatus, previous, id);
    }
  }

  lemma {:induction false} ClosedMarks(first: State, u: State, id: Id)
    requires Marked(first, u) && OpenSteps(u) == {} && id in Ids(u.steps)
    ensures StatusOf(u, id) == StatusOf(first, id) || (IsOpen(StatusOf(first, id)) && StatusOf(u, id) == Blocked)
  {
    hide OpenSteps, Ids;
    InOpenSteps(u, id);
    assert StatusOf(u, id) == StatusOf(first, id)
         || (IsOpen(StatusOf(first, id)) && StatusOf(u, id) == Blocked)
         || ((IsOpen(StatusOf(first, id)) || StatusOf(first, id) == Blocked) && StatusOf(u, id) == Pending);
  }

  lemma {:induction false} NotBlocked(u: State, id: Id)
    requires !SomeStatus(u, Blocked)
    ensures StatusOf(u, id) != Blocked
  {
  }

  lemma {:induction false} ClosedIsFinal(first: State, u: State)
    requires EndsWell(first) && Marked(first, u) && NoneRunning(u) && OpenSteps(u) == {}
    requires !SomeStatus(u, Blocked) && !SomeStatus(u, Failed)
    ensures u.status == PlanDone
  {
    hide OpenSteps, Ids, SomeStatus;
    forall k | 0 <= k < |first.steps|
      ensures IsFinal(StatusOf(first, first.steps[k].id))
    {
      var id := first.steps[k].id;
      IsStepId(u.steps, first.steps[k]);
      ClosedMarks(first, u, id);
      InOpenSteps(u, id);
      NotBlocked(u, id);
      assert StatusOf(u, id) != Running;
    }
    forall id
      ensures StatusOf(first, id) != Failed
    {
      assert StatusOf(first, id) == Failed ==> StatusOf(u, id) == Failed;
      if StatusOf(u, id) == Failed {
        StatusIsSome(u, id);
      }
    }
  }

  lemma {:induction false} StrandedIsOpen(first: State, u: State)
    requires EndsWell(first) && Marked(first, u) && OpenSteps(u) == {} && Stranded(u)
    ensures u.status != PlanDone && u.status != PlanCancelled
  {
    hide OpenSteps;
    var id :| id in u.stepStatus && u.stepStatus[id] == Blocked;
    ClosedMarks(first, u, id);
    var k :| 0 <= k < |first.steps| && first.steps[k].id == id;
    assert !IsFinal(StatusOf(first, first.steps[k].id));
  }

  /** With nothing left open after a call the plan has ended, unless steps are stranded. */
  lemma {:induction false} ClosedEndsIff(first: State, u: State)
    requires EndsWell(first) && first.verdict.None? && Marked(first, u) && NoneRunning(u) && OpenSteps(u) == {}
    ensures Ended(Finalize(u)) <==> !Stranded(u)
  {
    hide OpenSteps, EndsWell, Marked, Covered, NoneRunning, AnyOpenOrRunning;
    MarkedIs(first, u);
    NoneOpenOrRunning(u);
    if FinalVerdict(u).None? {
      if Stranded(u) {
        StrandedIsOpen(first, u);
      } else {
        ClosedIsFinal(first, u);
      }
    }
  }

  lemma {:induction false} MarkedIs(first: State, u: State)
    requires Marked(first, u) && EndsWell(first)
    ensures u.verdict == first.verdict && Covered(u) && NotAskingAtAll(u)
  {
  }

  lemma {:induction false} MarkedRunning(first: State, u: State)
    requires Marked(first, u) && NoneRunning(first)
    ensures NoneRunning(u)
  {
    hide Covered;
    forall id
      ensures StatusOf(u, id) != Running
    {
      assert StatusOf(first, id) != Running;
    }
  }

  lemma {:induction false} FinalizeOpens(u: State)
    ensures OpenSteps(Finalize(u)) == OpenSteps(u) && (Stranded(Finalize(u)) <==> Stranded(u))
    ensures NotAskingAtAll(u) ==> ConsentPause(Finalize(u)) == Finalize(u)
  {
    hide FinalVerdict, OpenSteps;
    FewerOpenIn(u, Finalize(u));
    FewerOpenIn(Finalize(u), u);
  }

  lemma {:induction false} ScheduledEndsIff(s: State, exec: Executor)
    requires Resting(s) && s.chain == 0 && !IsTerminal(s.status) && s.verdict.None?
    requires OpenSteps(ExecuteScheduled(s, exec)) == {}
    ensures Ended(ExecuteScheduled(s, exec)) <==> !Stranded(ExecuteScheduled(s, exec))
  {
    hide Resting, OpenSteps, RunUntilBlocked, FallbackLoop, PropagateFrom, UnblockFrom, Finalize, Stranded, Marked, EndsWell,
      ConsentPause;
    var first := RunUntilBlocked(s, exec, true);
    RunResting(s, exec);
    RestingIs(first);
    RunKeepsChain(s, exec, true);
    NoFallback(first, exec);
    var marked := PropagateFrom(first, IdsOf(first.steps), first.stepStatus, true);
    var u := UnblockFrom(marked, IdsOf(marked.steps), marked.stepStatus, s.stepStatus);
    CallMarks(first, s.stepStatus);
    MarkedIs(first, u);
    MarkedRunning(first, u);
    FinalizeOpens(u);
    ClosedEndsIff(first, u);
  }

  /** Without consent steps and fallback chain, after any retries: a call that leaves nothing
      open ends the plan exactly when it leaves no step stranded. */
  lemma {:induction false} CallEndsIff(s: State, exec: Executor)
    requires Resting(s) && s.chain == 0 && !Ended(s) && s.pausedReason != Some(HARD_GATE_BLOCKED)
    requires OpenSteps(ExecuteNext(s, exec, false)) == {}
    ensures Ended(ExecuteNext(s, exec, false)) <==> !Stranded(ExecuteNext(s, exec, false))
  {
    hide Resting, OpenSteps, ExecuteScheduled, Stranded, FinalVerdict;
    if s.status == PlanFailed && FinalVerdict(s).Some? {
      VerdictNotStranded(s);
      FinalizeOpens(s);
    } else {
      SameResting(s, Reopened(s));
      ReopenedRuns(s);
      ScheduledEndsIff(Reopened(s), exec);
    }
  }

  lemma {:induction false} VerdictNotStranded(s: State)
    requires FinalVerdict(s).Some?
    ensures !Stranded(s)
  {
  }

  // ----- stranded for good

  /** A plan that waits although nothing can come any more. */
  ghost predicate Hopeless(s: State) {
    && Core(s) && Acyclic(s.steps) && Covered(s) && NoneRunning(s) && OpenSteps(s) == {} && Stranded(s)
    && s.status == PlanPaused && s.pausedReason == Some(WAITING_DEPENDENCIES) && s.pausedStep.None?
    && s.verdict.None? && s.chain == 0
  }

  lemma {:induction false} NoneFailedStatus(s: State, id: Id)
    requires !SomeStatus(s, Failed) && !SomeStatus(s, Cancelled)
    ensures StatusOf(s, id) != Failed && StatusOf(s, id) != Cancelled
  {
  }

  lemma {:induction false} LeastBlockedWaits(s: State)
    requires DistinctIds(s.steps) && Acyclic(s.steps) && Covered(s) && Stranded(s)
    ensures !AllFinal(s) && !AllDependenciesFailed(s)
  {
    hide DependsOn, Acyclic, DistinctIds, SomeStatus;
    var b := StrandedStep(s);
    var blocked := set id | id in s.stepStatus && s.stepStatus[id] == Blocked;
    var least := LeastOf(s.steps, blocked, b);
    var k :| 0 <= k < |s.steps| && s.steps[k].id == least;
    forall i | 0 <= i < |s.steps[k].dependsOn|
      ensures !IsFailedDependency(StatusOf(s, s.steps[k].dependsOn[i]))
    {
      var d := s.steps[k].dependsOn[i];
      IsDependency(s.steps, k, d);
      NoneFailedStatus(s, d);
    }
    assert !HasFailedDependency(s, s.steps[k].dependsOn);
    assert StatusOf(s, s.steps[k].id) == Blocked;
  }

  lemma {:induction false} StrandedStep(s: State) returns (b: Id)
    requires Stranded(s)
    ensures b in s.stepStatus && s.stepStatus[b] == Blocked
  {
    b :| b in s.stepStatus && s.stepStatus[b] == Blocked;
  }

  lemma {:induction false} NoneReadyWhenClosed(s: State)
    requires OpenSteps(s) == {}
    ensures ReadySteps(s) == []
  {
    hide OpenSteps, ReadyAmong;
    if ReadySteps(s) != [] {
      var step := ReadySteps(s)[0];
      assert step in ReadySteps(s);
      ReadyIsOpen(s, step);
    }
  }

  lemma {:induction false} ReadyIsOpen(s: State, step: Step)
    requires step in s.steps && IsReady(s, step)
    ensures OpenSteps(s) != {}
  {
    assert step.id in OpenSteps(s);
  }

  lemma {:induction false} HopelessRun(s: State, exec: Executor, one: bool)
    requires Hopeless(s)
    ensures RunUntilBlocked(s, exec, one) == s
  {
    hide Loop, Core, OpenSteps, ReadyAmong, Stranded, AllFinal, AllDependenciesFailed, Acyclic;
    CoreIs(s);
    RebuildChangesNothing(s);
    var begin := s.(status := PlanRunning, pausedReason := None, pausedStep := None);
    FewerOpenIn(s, begin);
    NoneReadyWhenClosed(begin);
    LeastBlockedWaits(s);
    SameFinal(s, begin);
    LoopUnfold(begin, exec, one);
  }

  lemma {:induction false} CoreIs(s: State)
    requires Core(s)
    ensures DistinctIds(s.steps) && Exact(s)
  {
  }

  lemma {:induction false} SameFinal(s: State, t: State)
    requires t.steps == s.steps && t.stepStatus == s.stepStatus
    ensures AllFinal(t) <==> AllFinal(s)
    ensures AllDependenciesFailed(t) <==> AllDependenciesFailed(s)
  {
  }

  lemma {:induction false} NothingToPropagate(s: State, ids: seq<Id>)
    requires !SomeStatus(s, Failed) && !SomeStatus(s, Cancelled)
    ensures PropagateFrom(s, ids, s.stepStatus, true) == s
  {
    hide SomeStatus, BlockEach;
    if ids == [] {
    } else {
      NothingToPropagate(s, ids[..|ids| - 1]);
      NoneFailedStatus(s, ids[|ids| - 1]);
      assert StatusIn(s.stepStatus, ids[|ids| - 1]) == StatusOf(s, ids[|ids| - 1]);
    }
  }

  lemma {:induction false} NothingNew(s: State, ids: seq<Id>)
    ensures UnblockFrom(s, ids, s.stepStatus, s.stepStatus) == s
  {
    hide UnblockEach;
    if ids == [] {
    } else {
      NothingNew(s, ids[..|ids| - 1]);
    }
  }

  /** No execution and no resumption changes such a plan, and none of its steps can be retried:
      short of being cancelled it waits for ever. */
  lemma {:induction false} HopelessForever(s: State, ops: seq<Operation>)
    requires Hopeless(s)
    requires forall k :: 0 <= k < |ops| ==> !ops[k].CancelPlan? && !ops[k].PausePlan?
    ensures ApplyAll(s, ops) == s
  {
    hide Hopeless, Apply;
    if ops == [] {
    } else {
      HopelessForever(s, ops[..|ops| - 1]);
      HopelessOperation(s, ops[|ops| - 1]);
    }
  }

  lemma {:induction false} HopelessOperation(s: State, op: Operation)
    requires Hopeless(s) && !op.CancelPlan? && !op.PausePlan?
    ensures Apply(s, op) == s
  {
    hide ExecuteNext, Run, Core, OpenSteps, Acyclic, Covered;
    match op {
      case ExecuteNextStep(exec, gateRefuses) => HopelessCall(s, exec, gateRefuses);
      case RetryStep(id) => NoneFailedStatus(s, id);
      case ResumePlan(_, exec) => HopelessResumed(s, exec);
      case PausePlan(_) =>
      case CancelPlan =>
      case DecideConsent(_) =>
      case SaveAndLoad => SnapshotChangesNothing(s);
    }
  }

  lemma {:induction false} HopelessResumed(s: State, exec: Executor)
    requires Hopeless(s)
    ensures Run(s, exec) == s
  {
    hide RunUntilBlocked, OpenSteps, Core, Acyclic, SomeStatus, AllDone;
    HopelessRun(s, exec, false);
    NoneOpenOrRunning(s);
    NotAllDone(s);
    var b := StrandedStep(s);
    assert b in Ids(s.steps);
  }

  lemma {:induction false} HopelessCall(s: State, exec: Executor, gateRefuses: bool)
    requires Hopeless(s)
    ensures ExecuteNext(s, exec, gateRefuses) == s
  {
    hide RunUntilBlocked, FallbackLoop, ReadyAmong, PropagateFrom, UnblockFrom, OpenSteps, Core, Acyclic, SomeStatus, AllDone;
    HopelessRun(s, exec, true);
    NoneReadyWhenClosed(s);
    NoFallback(s, exec);
    NothingToPropagate(s, IdsOf(s.steps));
    NothingNew(s, IdsOf(s.steps));
    NoneOpenOrRunning(s);
    NotAllDone(s);
  }

  lemma {:induction false} NotAllDone(s: State)
    requires SomeStatus(s, Blocked)
    ensures !AllDone(s)
  {
  }
}
