/** One call of `execute_next` taken apart, and what every call and every retry keeps. */
module PlanCalls {
  import opened PlanDag
  import opened PlanWalk
  import opened PlanState
  import opened PlanSafety
  import opened PlanRuns
  import opened PlanFrontier
  import opened PlanProgress
  import opened PlanStuck

  // ----- how a step can end

  /** A step without a degrade value can fail. */
  ghost predicate CanFail(steps: Steps, id: Id) {
    Find(steps, id).Some? && Find(steps, id).value.degradeTruthy.None?
  }

  /** A step with a condition can be skipped. */
  ghost predicate CanBeSkipped(steps: Steps, id: Id) {
    Find(steps, id).Some? && Find(steps, id).value.conditionKey != ""
  }

  /** A step that ends as done or as failed. */
  ghost predicate IsFirm(steps: Steps, id: Id) {
    CanFail(steps, id) && !CanBeSkipped(steps, id)
  }

  lemma {:induction false} FindIs(steps: Steps, step: Step)
    requires DistinctIds(steps) && step in steps
    ensures Find(steps, step.id) == Some(step)
  {
    var i :| 0 <= i < |steps| && steps[i] == step;
    assert step.id in Ids(steps);
    var found := Find(steps, step.id).value;
    var j :| 0 <= j < |steps| && steps[j] == found;
  }

  /** Where one execution may lead. */
  lemma {:induction false} StepOutcome(s: State, step: Step, exec: Executor)
    requires !step.requireConsent
    ensures var turn := StepTurn(s, step, exec, true); var st := StatusOf(turn.state, step.id);
      if ConditionHolds(step, s.truths) then
        turn.Stop? && (st == Done || (st == Failed && step.degradeTruthy.None?) || (st == Degraded && step.degradeTruthy.Some?))
      else turn.Continue? && st == Skipped && step.conditionKey != ""
  {
    hide Attempt, MarkCompleted;
    var a := Attempt(s, step, exec, 0, true);
    SatisfyFrame(s, step.id, Skipped);
    match a.result {
      case Some(truthy) =>
        SatisfyFrame(a.state.(truths := SetTruth(a.state.truths, step.resultKey, truthy)), step.id, Done);
      case None =>
        if step.degradeTruthy.Some? {
          SatisfyFrame(a.state.(truths := SetTruth(a.state.truths, step.resultKey, step.degradeTruthy.value)), step.id, Degraded);
        }
    }
  }

  // ----- along the dependencies

  lemma {:induction false} ReachesOn(steps: Steps, a: Id, m: Id, b: Id)
    requires Reaches(steps, a, m) && Reaches(steps, m, b)
    ensures Reaches(steps, a, b)
  {
    hide DependsOn;
    var p :| |p| > 1 && IsPath(steps, p) && p[0] == m && p[|p| - 1] == a;
    var q :| |q| > 1 && IsPath(steps, q) && q[0] == b && q[|q| - 1] == m;
    var path := q + p[1..];
    forall k | 0 < k < |path|
      ensures DependsOn(steps, path[k - 1], path[k])
    {
      if k < |q| {
        assert DependsOn(steps, q[k - 1], q[k]);
      } else {
        var i := k - |q| + 1;
        assert DependsOn(steps, p[i - 1], p[i]);
        assert path[k] == p[i] && path[k - 1] == p[i - 1];
      }
    }
    assert path[|path| - 1] == a;
  }

  lemma {:induction false} CycleOf(steps: Steps, a: Id) returns (path: seq<Id>)
    requires Reaches(steps, a, a)
    ensures IsCycle(steps, path)
  {
    path :| |path| > 1 && IsPath(steps, path) && path[0] == a && path[|path| - 1] == a;
  }

  lemma {:induction false} ReachesNotItself(steps: Steps, a: Id)
    requires Acyclic(steps)
    ensures !Reaches(steps, a, a)
  {
    hide IsCycle, Reaches;
    if Reaches(steps, a, a) {
      var path := CycleOf(steps, a);
    }
  }

  /** What a satisfied step depends on, however indirectly, is satisfied. */
  lemma {:induction false} SatisfiedBefore(s: State, a: Id, m: Id)
    requires Core(s) && Reaches(s.steps, a, m) && IsSatisfied(StatusOf(s, m))
    ensures IsSatisfied(StatusOf(s, a))
  {
    hide DependsOn, Exact, LogSafe, DistinctIds, Earned;
    var path :| |path| > 1 && IsPath(s.steps, path) && path[0] == m && path[|path| - 1] == a;
    EarnedAlong(s, path);
  }

  // ----- one run of one step

  /** How a status may move in a run that executes `x` at most. */
  ghost predicate Moves(steps: Steps, x: Option<Id>, id: Id, a: StepStatus, b: StepStatus) {
    || b == a
    || (IsOpen(a)
        && (|| b == Blocked
            || (b == Skipped && CanBeSkipped(steps, id))
            || (x == Some(id) && (b == Done || (b == Failed && CanFail(steps, id)) || (b == Degraded && !CanFail(steps, id))))))
  }

  ghost predicate Ran(s: State, t: State, x: Option<Id>) {
    t.steps == s.steps && forall id :: Moves(s.steps, x, id, StatusOf(s, id), StatusOf(t, id))
  }

  lemma {:induction false} RanOn(s: State, t: State, u: State, x: Option<Id>)
    requires Ran(s, t, None) && Ran(t, u, x)
    ensures Ran(s, u, x)
  {
    hide CanFail, CanBeSkipped;
    forall id
      ensures Moves(s.steps, x, id, StatusOf(s, id), StatusOf(u, id))
    {
      assert Moves(s.steps, None, id, StatusOf(s, id), StatusOf(t, id));
      assert Moves(s.steps, x, id, StatusOf(t, id), StatusOf(u, id));
    }
  }

  lemma {:induction false} StepRan(s: State, step: Step, exec: Executor)
    requires DistinctIds(s.steps) && NoConsent(s.steps) && step in ReadySteps(s)
    ensures var turn := StepTurn(s, step, exec, true);
      Ran(s, turn.state, if turn.Continue? then None else Some(step.id))
  {
    hide StepTurn, ReadyAmong, LogGrows, NoConsent, DistinctIds;
    StepTurnFrame(s, step, exec, true);
    ReadyNeedsNoConsent(s, step);
    StepOutcome(s, step, exec);
    FindIs(s.steps, step);
  }

  lemma {:induction false} NothingReadyRan(s: State)
    ensures Ran(s, NothingReady(s), None)
  {
    hide PropagateFrom, AllDependenciesFailed, AllFinal, CanFail, CanBeSkipped;
    var failed := s.(status := PlanFailed);
    PropagateKeepsChain(failed, IdsOf(s.steps), s.stepStatus, false);
    forall id
      ensures Moves(s.steps, None, id, StatusOf(s, id), StatusOf(NothingReady(s), id))
    {
      PropagationsBlockOnly(failed, IdsOf(s.steps), s.stepStatus, false, id);
    }
  }

  /** A run executes one step at most, after skipping any number of steps. */
  lemma {:induction false} LoopRan(s: State, exec: Executor) returns (x: Option<Id>)
    requires Resting(s) && InLoop(s)
    ensures Ran(s, Loop(s, exec, true), x)
    ensures ReadySteps(s) == [] ==> x == None
    decreases OpenSteps(s)
  {
    hide Resting, Loop, OpenSteps, NothingReady, StepTurn, ReadyAmong, StopIsFailed, NotAsking, Ran;
    LoopUnfold(s, exec, true);
    RestingIs(s);
    TurnStops(s, exec, true);
    if ReadySteps(s) == [] {
      NothingReadyRan(s);
      x := None;
    } else {
      var step := ReadySteps(s)[0];
      StepResting(s, step, exec);
      StepRan(s, step, exec);
      var turn := StepTurn(s, step, exec, true);
      if turn.Continue? {
        x := LoopRan(turn.state, exec);
        RanOn(s, turn.state, Loop(turn.state, exec, true), x);
      } else {
        x := Some(step.id);
      }
    }
  }

  lemma {:induction false} RunRan(s: State, exec: Executor) returns (x: Option<Id>)
    requires Resting(s) && !IsTerminal(s.status)
    ensures Ran(s, RunUntilBlocked(s, exec, true), x)
    ensures ReadySteps(s) == [] ==> x == None
  {
    hide Resting, Loop, ReadyAmong;
    RestingIs(s);
    RebuildChangesNothing(s);
    var begin := s.(status := PlanRunning, pausedReason := None, pausedStep := None);
    SameResting(s, begin);
    SameReady(s, begin, s.steps);
    x := LoopRan(begin, exec);
  }

  // ----- the consequences of a call

  ghost predicate AllDistinct(ids: seq<Id>) {
    forall m, n :: 0 <= m < n < |ids| ==> ids[m] != ids[n]
  }

  lemma {:induction false} IdsOfDistinct(steps: Steps)
    requires DistinctIds(steps)
    ensures AllDistinct(IdsOf(steps))
  {
    IdsOfAt(steps);
  }

  /** With one step newly done, unblocking is one pass from that step. */
  lemma {:induction false} UnblockFromOne(s: State, ids: seq<Id>, now: map<Id, StepStatus>, before: map<Id, StepStatus>, x: Id)
    requires AllDistinct(ids)
    requires forall id :: StatusIn(now, id) == Done && StatusIn(before, id) != Done ==> id == x
    ensures UnblockFrom(s, ids, now, before) ==
      if x in ids && StatusIn(now, x) == Done && StatusIn(before, x) != Done then PropagateUnblock(s, x) else s
  {
    hide UnblockEach;
    if ids == [] {
    } else {
      var last := ids[|ids| - 1];
      UnblockFromOne(s, ids[..|ids| - 1], now, before, x);
      assert x in ids <==> x == last || x in ids[..|ids| - 1];
      assert last !in ids[..|ids| - 1];
    }
  }

  /** A step that this call finished as done. */
  ghost predicate NewlyDone(s: State, t: State, id: Id) {
    StatusOf(t, id) == Done && StatusOf(s, id) != Done
  }

  lemma {:induction false} OnlyOneDone(s: State, t: State, x: Option<Id>, id: Id)
    requires Ran(s, t, x) && NewlyDone(s, t, id)
    ensures x == Some(id) && IsOpen(StatusOf(s, id))
  {
    hide CanFail, CanBeSkipped;
    assert Moves(s.steps, x, id, StatusOf(s, id), StatusOf(t, id));
  }

  /** The failures of a run, passed on. */
  ghost function Spread(first: State): State {
    PropagateFrom(first, IdsOf(first.steps), first.stepStatus, true)
  }

  /** The call runs: it neither refuses nor only caches a verdict. */
  ghost predicate Runs(s: State) {
    !Ended(s) && s.pausedReason != Some(HARD_GATE_BLOCKED) && !(s.status == PlanFailed && FinalVerdict(s).Some?)
  }

  ghost function FirstRun(s: State, exec: Executor): State {
    RunUntilBlocked(Reopened(s), exec, true)
  }

  /** The statuses after a call that executed `x` at most. */
  ghost predicate Called(s: State, first: State, t: State, x: Option<Id>) {
    && Ran(s, first, x)
    && t.steps == s.steps && t.truths == first.truths
    && t.stepStatus == (if x.Some? && NewlyDone(s, first, x.value) then PropagateUnblock(Spread(first), x.value) else Spread(first)).stepStatus
  }

  lemma {:induction false} BlockEachKeepsTruths(s: State, ids: seq<Id>)
    ensures BlockEach(s, ids).truths == s.truths
  {
    BlockedEach(s, ids, "");
  }

  lemma {:induction false} PropagateKeepsTruths(s: State, ids: seq<Id>, before: map<Id, StepStatus>, onlyFailed: bool)
    ensures PropagateFrom(s, ids, before, onlyFailed).truths == s.truths
  {
    hide BlockEach;
    if ids == [] {
    } else {
      var rest := PropagateFrom(s, ids[..|ids| - 1], before, onlyFailed);
      PropagateKeepsTruths(s, ids[..|ids| - 1], before, onlyFailed);
      BlockEachKeepsTruths(rest, Downstream(rest.steps, ids[|ids| - 1]));
    }
  }

  lemma {:induction false} UnblockEachKeepsTruths(s: State, ids: seq<Id>)
    ensures UnblockEach(s, ids).truths == s.truths && UnblockEach(s, ids).chain == s.chain
  {
    hide Without, HasFailedDependency, DependenciesOf;
    if ids == [] {
    } else {
      UnblockEachKeepsTruths(s, ids[..|ids| - 1]);
    }
  }

  lemma {:induction false} UnblockFromKeepsChain(s: State, ids: seq<Id>, now: map<Id, StepStatus>, before: map<Id, StepStatus>)
    ensures UnblockFrom(s, ids, now, before).chain == s.chain
  {
    hide UnblockEach;
    if ids == [] {
    } else {
      var rest := UnblockFrom(s, ids[..|ids| - 1], now, before);
      UnblockFromKeepsChain(s, ids[..|ids| - 1], now, before);
      UnblockEachKeepsTruths(rest, Downstream(rest.steps, ids[|ids| - 1]));
    }
  }

  lemma {:induction false} DoneAfterSpread(s: State, first: State, id: Id)
    requires first.steps == s.steps
    ensures NewlyDone(s, Spread(first), id) <==> NewlyDone(s, first, id)
  {
    hide PropagateFrom;
    PropagationsBlockOnly(first, IdsOf(first.steps), first.stepStatus, true, id);
  }

  lemma {:induction false} ConsequencesAre(s: State, first: State, x: Option<Id>)
    requires DistinctIds(s.steps) && Ran(s, first, x) && Covered(first)
    ensures var marked := Spread(first);
      UnblockFrom(marked, IdsOf(marked.steps), marked.stepStatus, s.stepStatus) ==
      if x.Some? && NewlyDone(s, first, x.value) then PropagateUnblock(marked, x.value) else marked
  {
    hide PropagateFrom, UnblockEach, UnblockFrom, Moves, DistinctIds, Ids;
    var marked := Spread(first);
    PropagateKeepsChain(first, IdsOf(first.steps), first.stepStatus, true);
    IdsOfDistinct(s.steps);
    forall id | StatusIn(marked.stepStatus, id) == Done && StatusIn(s.stepStatus, id) != Done
      ensures x == Some(id) && NewlyDone(s, first, id) && id in IdsOf(marked.steps)
    {
      assert NewlyDone(s, marked, id);
      DoneAfterSpread(s, first, id);
      OnlyOneDone(s, first, x, id);
      InIdsOf(s.steps, id);
    }
    var y := if x.Some? then x.value else "";
    UnblockFromOne(marked, IdsOf(marked.steps), marked.stepStatus, s.stepStatus, y);
    DoneAfterSpread(s, first, y);
  }

  lemma {:induction false} CallTaken(s: State, exec: Executor) returns (x: Option<Id>)
    requires Resting(s) && s.chain == 0 && Runs(s)
    ensures Called(s, FirstRun(s, exec), ExecuteNext(s, exec, false), x)
    ensures ReadySteps(s) == [] ==> x == None
  {
    hide Resting, RunUntilBlocked, FallbackLoop, PropagateFrom, UnblockFrom, Ran, FinalVerdict, ReadyAmong, Covered;
    var r, first := Reopened(s), FirstRun(s, exec);
    SameResting(s, r);
    ReopenedRuns(s);
    SameReady(s, r, s.steps);
    x := RunRan(r, exec);
    RanSame(s, r, first, x);
    RunResting(r, exec);
    RestingIs(first);
    RestingIs(s);
    RunKeepsChain(r, exec, true);
    NoFallback(first, exec);
    ConsequencesAre(s, first, x);
    PropagateKeepsChain(first, IdsOf(first.steps), first.stepStatus, true);
    PropagateKeepsTruths(first, IdsOf(first.steps), first.stepStatus, true);
    var marked := Spread(first);
    if x.Some? {
      UnblockEachKeepsTruths(marked, Downstream(marked.steps, x.value));
      UnblockEachKeepsSteps(marked, Downstream(marked.steps, x.value));
    }
  }

  lemma {:induction false} RanSame(s: State, r: State, t: State, x: Option<Id>)
    requires Ran(r, t, x) && r.steps == s.steps && r.stepStatus == s.stepStatus
    ensures Ran(s, t, x)
  {
    hide Moves;
    assert forall id :: StatusOf(r, id) == StatusOf(s, id);
  }

  // ----- what every call and every retry keeps

  ghost predicate FailedCanFail(s: State) {
    forall id :: StatusOf(s, id) == Failed ==> CanFail(s.steps, id)
  }

  /** A valid plan without consent steps and fallback chain, on its way. */
  ghost predicate Steady(s: State) {
    && Settled(s) && NoneRunning(s) && Covered(s) && FailedCanFail(s)
    && Acyclic(s.steps) && s.chain == 0 && s.pausedReason != Some(HARD_GATE_BLOCKED)
    && (Ended(s) ==> OpenSteps(s) == {})
  }

  lemma {:induction false} SteadyIs(s: State)
    requires Steady(s)
    ensures Resting(s) && Core(s) && DistinctIds(s.steps) && NoConsent(s.steps) && DependenciesExist(s.steps) && NoLeak(s)
  {
    hide Core, NotAsking, NoneRunning, Acyclic, FailedCanFail, OpenSteps, Leak, DistinctIds, DependsOn;
    CoreIs(s);
  }

  lemma {:induction false} SteadyFails(s: State)
    requires Steady(s)
    ensures FailedCanFail(s) && Acyclic(s.steps) && s.chain == 0 && NoneRunning(s) && Covered(s)
    ensures s.pausedReason != Some(HARD_GATE_BLOCKED) && (Ended(s) ==> OpenSteps(s) == {})
  {
  }

  ghost function AfterCall(s: State, exec: Executor): State {
    var marked := Spread(FirstRun(s, exec));
    UnblockFrom(marked, IdsOf(marked.steps), marked.stepStatus, s.stepStatus)
  }

  lemma {:induction false} CallIs(s: State, exec: Executor)
    requires Resting(s) && s.chain == 0 && Runs(s)
    ensures var first, u := FirstRun(s, exec), AfterCall(s, exec);
      && Resting(first) && EndsWell(first) && first.verdict.None?
      && Marked(first, u) && NoneRunning(u) && Covered(u) && NotAskingAtAll(u) && u.chain == 0
      && ExecuteNext(s, exec, false) == Finalize(u)
  {
    hide Resting, RunUntilBlocked, FallbackLoop, PropagateFrom, UnblockFrom, Marked, EndsWell, FinalVerdict, ReadyAmong, Covered,
      Finalize, ConsentPause;
    var r, first := Reopened(s), FirstRun(s, exec);
    SameResting(s, r);
    ReopenedRuns(s);
    RunResting(r, exec);
    RestingIs(first);
    RunKeepsChain(r, exec, true);
    NoFallback(first, exec);
    CallMarks(first, s.stepStatus);
    var marked := Spread(first);
    PropagateKeepsChain(first, IdsOf(first.steps), first.stepStatus, true);
    UnblockFromKeepsChain(marked, IdsOf(marked.steps), marked.stepStatus, s.stepStatus);
    MarkedIs(first, AfterCall(s, exec));
    MarkedRunning(first, AfterCall(s, exec));
    FinalizeOpens(AfterCall(s, exec));
  }

  /** A plan that a run has brought to its end has nothing open. */
  lemma {:induction false} DoneIsClosed(first: State, u: State)
    requires EndsWell(first) && Marked(first, u) && first.status == PlanDone
    ensures OpenSteps(u) == {}
  {
    hide OpenSteps, Covered;
    forall id
      ensures id !in OpenSteps(u)
    {
      InOpenSteps(u, id);
      if id in Ids(u.steps) {
        FinalAt(first, id);
      }
    }
  }

  lemma {:induction false} FinalAt(s: State, id: Id)
    requires AllFinal(s) && id in Ids(s.steps)
    ensures IsFinal(StatusOf(s, id))
  {
    var k :| 0 <= k < |s.steps| && s.steps[k].id == id;
    assert IsFinal(StatusOf(s, s.steps[k].id));
  }

  lemma {:induction false} MarkedFailures(first: State, u: State, id: Id)
    requires Marked(first, u) && StatusOf(u, id) == Failed
    ensures StatusOf(first, id) == Failed
  {
  }

  lemma {:induction false} NextSteady(s: State, exec: Executor)
    requires Steady(s)
    ensures Steady(ExecuteNext(s, exec, false)) && ExecuteNext(s, exec, false).steps == s.steps
  {
    hide Settled, Resting, EndsWell, Marked, NoneRunning, Covered, Acyclic, OpenSteps, FirstRun, AfterCall, FinalVerdict,
      ExecuteScheduled, CanFail, Ran;
    NextSettled(s, exec);
    SteadyIs(s);
    if Ended(s) {
    } else if !Runs(s) {
      VerdictMeansClosed(s);
      SameClosed(s, Finalize(s));
    } else {
      var first, u := FirstRun(s, exec), AfterCall(s, exec);
      CallIs(s, exec);
      MarkedIs(first, u);
      var x := CallTaken(s, exec);
      SameClosed(u, Finalize(u));
      forall id | StatusOf(u, id) == Failed
        ensures CanFail(s.steps, id)
      {
        MarkedFailures(first, u, id);
        NewFailure(s, first, x, id);
      }
      EndedClosed(first, u);
    }
  }

  lemma {:induction false} NewFailure(s: State, first: State, x: Option<Id>, id: Id)
    requires Ran(s, first, x) && StatusOf(first, id) == Failed
    ensures StatusOf(s, id) == Failed || (x == Some(id) && CanFail(s.steps, id) && IsOpen(StatusOf(s, id)))
  {
    hide CanFail, CanBeSkipped;
    assert Moves(s.steps, x, id, StatusOf(s, id), StatusOf(first, id));
  }

  lemma {:induction false} SameClosed(s: State, t: State)
    requires t.steps == s.steps && t.stepStatus == s.stepStatus
    ensures OpenSteps(t) == OpenSteps(s)
    ensures Covered(t) <==> Covered(s)
    ensures NoneRunning(t) <==> NoneRunning(s)
    ensures Stranded(t) <==> Stranded(s)
    ensures forall id :: StatusOf(t, id) == StatusOf(s, id)
  {
    assert forall id :: StatusOf(t, id) == StatusOf(s, id);
  }

  lemma {:induction false} EndedClosed(first: State, u: State)
    requires EndsWell(first) && first.verdict.None? && Marked(first, u) && Covered(u)
    ensures Ended(Finalize(u)) ==> OpenSteps(u) == {}
  {
    hide OpenSteps, Covered, AnyOpenOrRunning, AllDone, SomeStatus, AllFinal;
    if FinalVerdict(u).Some? {
      VerdictMeansClosed(u);
    } else if first.status == PlanDone {
      DoneIsClosed(first, u);
    }
  }

  /** Everything a caller may do step by step, except pausing under the name of the gate. */
  predicate IsDriven(op: Operation) {
    IsStepwise(op) && (op.PausePlan? ==> op.reason != HARD_GATE_BLOCKED)
  }

  predicate AllDriven(ops: seq<Operation>) {
    forall k :: 0 <= k < |ops| ==> IsDriven(ops[k])
  }

  lemma {:induction false} RetrySteady(s: State, id: Id)
    requires Steady(s) && CanRetry(s, id)
    ensures Steady(Retry(s, id))
  {
    hide Settled, Acyclic, OpenSteps, CanFail, Ids;
    RetrySettled(s, id);
    var t := Retry(s, id);
    forall x
      ensures StatusOf(t, x) == if x == id then Pending else StatusOf(s, x)
    {
    }
    assert t.stepStatus.Keys == s.stepStatus.Keys;
  }

  lemma {:induction false} CancelEachCovers(s: State, ids: seq<Id>)
    requires Covered(s) && forall id :: id in ids ==> id in Ids(s.steps)
    ensures var t := CancelEach(s, ids); Covered(t) && t.steps == s.steps && t.chain == s.chain
  {
    hide Ids;
    if ids == [] {
    } else {
      CancelEachCovers(s, ids[..|ids| - 1]);
    }
  }

  lemma {:induction false} CancelSteady(s: State)
    requires Steady(s)
    ensures Steady(Cancel(s))
  {
    hide Settled, Acyclic, OpenSteps, CanFail, CancelEach, Ids;
    CancelSettled(s);
    var u, t := s.(status := PlanCancelled), Cancel(s);
    forall id
      ensures id in IdsOf(s.steps) <==> id in Ids(s.steps)
    {
      InIdsOf(s.steps, id);
    }
    CancelEachCovers(u, IdsOf(s.steps));
    CancelEachKeepsPause(u, IdsOf(s.steps));
    forall id
      ensures StatusOf(t, id) == if id in Ids(s.steps) && !IsFinal(StatusOf(s, id)) then Cancelled else StatusOf(s, id)
    {
      CancelledEach(u, IdsOf(s.steps), id);
    }
    forall id
      ensures id !in OpenSteps(t)
    {
      InOpenSteps(t, id);
    }
  }

  lemma {:induction false} PauseSteady(s: State, reason: string)
    requires Steady(s) && reason != HARD_GATE_BLOCKED
    ensures Steady(Pause(s, reason))
  {
    hide Settled, Acyclic, OpenSteps, CanFail, Ids;
    PauseSettled(s, reason);
    SameClosed(s, Pause(s, reason));
  }

  lemma {:induction false} OperationSteady(s: State, op: Operation)
    requires Steady(s) && IsDriven(op)
    ensures Steady(Apply(s, op))
  {
    hide Steady, ExecuteNext, Retry, Cancel, CanRetry, NotAsking;
    SteadyIs(s);
    match op {
      case ExecuteNextStep(exec, _) => NextSteady(s, exec);
      case RetryStep(id) => if CanRetry(s, id) { RetrySteady(s, id); }
      case ResumePlan(_, _) =>
      case PausePlan(reason) => PauseSteady(s, reason);
      case CancelPlan => CancelSteady(s);
      case DecideConsent(_) => assert !CanDecide(s) by { SteadyAsksNothing(s); }
      case SaveAndLoad => SnapshotChangesNothing(s);
    }
  }

  lemma {:induction false} SteadyAsksNothing(s: State)
    requires Steady(s)
    ensures !CanDecide(s)
  {
    hide Core, NoLeak;
    AsksNothing(s);
  }

  lemma {:induction false} OperationsSteady(s: State, ops: seq<Operation>)
    requires Steady(s) && AllDriven(ops)
    ensures Steady(ApplyAll(s, ops))
  {
    hide Steady, Apply, IsDriven;
    if ops == [] {
    } else {
      OperationsSteady(s, ops[..|ops| - 1]);
      OperationSteady(ApplyAll(s, ops[..|ops| - 1]), ops[|ops| - 1]);
    }
  }

  /** What every created plan of this file must be. */
  ghost predicate IsPlain(steps: Steps) {
    DistinctIds(steps) && DependenciesExist(steps) && Acyclic(steps) && NoConsent(steps)
  }

  lemma {:induction false} CreatedIsSteady(steps: Steps, truths: set<string>)
    requires IsPlain(steps)
    ensures Steady(Create(steps, truths, 0))
  {
    hide Settled, DependsOn, Acyclic, NoConsent, DependenciesExist, DistinctIds;
    var s := Create(steps, truths, 0);
    CreatedIsLive(steps, truths);
    assert forall id :: StatusOf(s, id) == Pending;
  }

  // ----- single statuses over a call

  lemma {:induction false} MovedFirm(s: State, t: State, x: Option<Id>, l: Id)
    requires Ran(s, t, x) && IsFirm(s.steps, l) && IsSatisfied(StatusOf(t, l)) && !IsSatisfied(StatusOf(s, l))
    ensures x == Some(l) && NewlyDone(s, t, l)
  {
    assert Moves(s.steps, x, l, StatusOf(s, l), StatusOf(t, l));
  }

  lemma {:induction false} MovedKeeps(s: State, t: State, x: Option<Id>, l: Id)
    requires Ran(s, t, x)
    ensures StatusOf(s, l) == Cancelled || IsSatisfied(StatusOf(s, l)) ==> StatusOf(t, l) == StatusOf(s, l)
  {
    hide CanFail, CanBeSkipped;
    assert Moves(s.steps, x, l, StatusOf(s, l), StatusOf(t, l));
  }

  lemma {:induction false} NotCancelled(s: State, first: State, x: Option<Id>, id: Id)
    requires Ran(s, first, x) && StatusOf(s, id) != Cancelled
    ensures StatusOf(first, id) != Cancelled
  {
    hide CanFail, CanBeSkipped;
    assert Moves(s.steps, x, id, StatusOf(s, id), StatusOf(first, id));
  }

  /** The first ready step of a run is skipped or executed. */
  lemma {:induction false} LoopTakes(s: State, exec: Executor)
    requires Resting(s) && InLoop(s) && ReadySteps(s) != []
    ensures var st := StatusOf(Loop(s, exec, true), ReadySteps(s)[0].id); IsSatisfied(st) || st == Failed
  {
    hide Resting, Loop, OpenSteps, NothingReady, StepTurn, ReadyAmong, StopIsFailed, NotAsking, Ran, NoConsent;
    var step := ReadySteps(s)[0];
    LoopUnfold(s, exec, true);
    RestingIs(s);
    TurnStops(s, exec, true);
    ReadyNeedsNoConsent(s, step);
    StepOutcome(s, step, exec);
    StepResting(s, step, exec);
    var turn := StepTurn(s, step, exec, true);
    if turn.Continue? {
      var x := LoopRan(turn.state, exec);
      MovedKeeps(turn.state, Loop(turn.state, exec, true), x, step.id);
    }
  }

  lemma {:induction false} FirstTakes(s: State, exec: Executor)
    requires Resting(s) && !Ended(s) && ReadySteps(s) != []
    ensures var st := StatusOf(FirstRun(s, exec), ReadySteps(s)[0].id); IsSatisfied(st) || st == Failed
  {
    hide Resting, Loop, ReadyAmong;
    var r := Reopened(s);
    SameResting(s, r);
    RestingIs(r);
    ReopenedRuns(s);
    RebuildChangesNothing(r);
    var begin := r.(status := PlanRunning, pausedReason := None, pausedStep := None);
    SameResting(r, begin);
    SameReady(s, begin, s.steps);
    LoopTakes(begin, exec);
  }

  /** How a status after a call differs from the one after its run. */
  lemma {:induction false} CalledMoves(s: State, first: State, t: State, x: Option<Id>, id: Id)
    requires Called(s, first, t, x)
    ensures var a, b := StatusOf(first, id), StatusOf(t, id);
      b == a || ((IsOpen(a) || a == Blocked) && (b == Blocked || b == Pending))
  {
    hide Ran, PropagateFrom, UnblockEach;
    var marked := Spread(first);
    PropagationsBlockOnly(first, IdsOf(first.steps), first.stepStatus, true, id);
    if x.Some? {
      UnblockedEach(marked, Downstream(marked.steps, x.value), id);
    }
    assert StatusOf(t, id) == StatusIn(t.stepStatus, id);
  }

  lemma {:induction false} CalledRan(s: State, first: State, t: State, x: Option<Id>)
    requires Called(s, first, t, x)
    ensures Ran(s, first, x) && first.steps == s.steps && t.steps == s.steps
  {
  }

  lemma {:induction false} OpenRuns(s: State)
    requires Steady(s) && OpenSteps(s) != {}
    ensures Runs(s)
  {
    hide Settled, NoneRunning, Acyclic, OpenSteps, FailedCanFail, FinalVerdict, Covered;
    if FinalVerdict(s).Some? {
      VerdictMeansClosed(s);
    }
  }

  lemma {:induction false} CoveredFirst(s: State, exec: Executor)
    requires Steady(s) && Runs(s)
    ensures Covered(FirstRun(s, exec))
  {
    hide Steady, Resting, FirstRun, AfterCall, Marked, EndsWell, Finalize, Core, Acyclic, FailedCanFail, Covered, FinalVerdict, OpenSteps;
    SteadyIs(s);
    SteadyFails(s);
    CallIs(s, exec);
    RestingIs(FirstRun(s, exec));
  }
}
