/** Dependency safety over whole runs, under every mix of operations. */
module PlanSafety {
  import opened PlanDag
  import opened PlanWalk
  import opened PlanState

  /** A step has these statuses without ever having been scheduled. */
  predicate IsIdle(st: StepStatus) {
    st == Pending || st == Ready || st == Blocked || st == Cancelled
  }

  /** The cached set is exactly the steps that satisfy their dependents, all of them processed. */
  ghost predicate Exact(s: State) {
    && (forall id :: id in s.satisfied <==> IsSatisfied(StatusOf(s, id)))
    && (forall id :: id in s.satisfied ==> id in s.processed)
  }

  /** The same, but for one step whose status has just changed. */
  ghost predicate ExactExcept(s: State, id: Id) {
    && (forall x :: x != id ==> (x in s.satisfied <==> IsSatisfied(StatusOf(s, x))))
    && (forall x :: x in s.satisfied ==> x in s.processed)
    && (id in s.satisfied ==> IsSatisfied(StatusOf(s, id)))
  }

  /** Only a step whose dependencies are satisfied was ever scheduled. */
  ghost predicate Earned(s: State) {
    forall a, d :: DependsOn(s.steps, a, d) && !IsIdle(StatusOf(s, a)) ==> IsSatisfied(StatusOf(s, d))
  }

  /** The call found all dependencies satisfied, and they still are. */
  ghost predicate CallSafe(steps: Steps, call: Invocation, statuses: map<Id, StepStatus>) {
    forall d :: DependsOn(steps, call.id, d) ==>
      IsSatisfied(StatusIn(call.statuses, d)) && StatusIn(statuses, d) == StatusIn(call.statuses, d)
  }

  ghost predicate LogSafe(s: State) {
    forall k :: 0 <= k < |s.log| ==> CallSafe(s.steps, s.log[k], s.stepStatus)
  }

  ghost predicate Core(s: State) {
    DistinctIds(s.steps) && Exact(s) && Earned(s) && LogSafe(s)
  }

  /** The statuses that satisfy dependents are never left. */
  ghost predicate Keeps(s: State, t: State) {
    forall id :: IsSatisfied(StatusOf(s, id)) ==> StatusOf(t, id) == StatusOf(s, id)
  }

  ghost predicate Follows(s: State, t: State) {
    t.steps == s.steps && s.log <= t.log && Keeps(s, t) && Core(t)
  }

  lemma {:induction false} FollowsOn(s: State, t: State, u: State)
    requires Follows(s, t) && Follows(t, u)
    ensures Follows(s, u)
  {
    forall id | IsSatisfied(StatusOf(s, id))
      ensures StatusOf(u, id) == StatusOf(s, id)
    {
      assert StatusOf(t, id) == StatusOf(s, id);
    }
  }

  // ----- changes that schedule nothing

  /** Unsatisfied steps moved between idle statuses, or back to one. */
  ghost predicate Shift(s: State, t: State) {
    && t.steps == s.steps && t.log == s.log && t.satisfied == s.satisfied
    && (forall id :: StatusOf(t, id) == StatusOf(s, id) || (!IsSatisfied(StatusOf(s, id)) && IsIdle(StatusOf(t, id))))
    && (forall id :: id in s.processed && id !in t.processed ==> !IsSatisfied(StatusOf(s, id)))
  }

  lemma {:induction false} CallStaysSafe(steps: Steps, call: Invocation, m: map<Id, StepStatus>, n: map<Id, StepStatus>)
    requires CallSafe(steps, call, m)
    requires forall id :: IsSatisfied(StatusIn(m, id)) ==> StatusIn(n, id) == StatusIn(m, id)
    ensures CallSafe(steps, call, n)
  {
    hide DependsOn;
  }

  lemma {:induction false} KeepsIn(s: State, t: State)
    requires Keeps(s, t)
    ensures forall id :: IsSatisfied(StatusIn(s.stepStatus, id)) ==> StatusIn(t.stepStatus, id) == StatusIn(s.stepStatus, id)
  {
    forall id | IsSatisfied(StatusIn(s.stepStatus, id))
      ensures StatusIn(t.stepStatus, id) == StatusIn(s.stepStatus, id)
    {
      assert IsSatisfied(StatusOf(s, id));
    }
  }

  lemma {:induction false} LogStaysSafe(s: State, t: State)
    requires LogSafe(s) && t.steps == s.steps && t.log == s.log && Keeps(s, t)
    ensures LogSafe(t)
  {
    hide CallSafe;
    KeepsIn(s, t);
    forall k | 0 <= k < |t.log|
      ensures CallSafe(t.steps, t.log[k], t.stepStatus)
    {
      CallStaysSafe(s.steps, s.log[k], s.stepStatus, t.stepStatus);
    }
  }

  lemma {:induction false} ShiftFollows(s: State, t: State)
    requires Core(s) && Shift(s, t)
    ensures Follows(s, t)
  {
    hide DependsOn, DistinctIds, LogSafe;
    assert Keeps(s, t);
    LogStaysSafe(s, t);
  }

  lemma {:induction false} ShiftOn(s: State, t: State, u: State)
    requires Shift(s, t) && Shift(t, u)
    ensures Shift(s, u)
  {
  }

  lemma {:induction false} ShiftSame(s: State)
    ensures Shift(s, s)
  {
  }

  lemma {:induction false} BlockShifts(s: State, id: Id)
    ensures Shift(s, Block(s, id))
  {
  }

  lemma {:induction false} BlockEachShifts(s: State, ids: seq<Id>)
    ensures Shift(s, BlockEach(s, ids))
  {
    hide Shift, Block;
    if ids == [] {
      ShiftSame(s);
    } else {
      var rest := BlockEach(s, ids[..|ids| - 1]);
      BlockEachShifts(s, ids[..|ids| - 1]);
      BlockShifts(rest, ids[|ids| - 1]);
      ShiftOn(s, rest, Block(rest, ids[|ids| - 1]));
    }
  }

  lemma {:induction false} WithoutIs(ids: seq<Id>, id: Id, x: Id)
    ensures x in Without(ids, id) <==> x in ids && x != id
  {
    if ids == [] {
    } else {
      WithoutIs(ids[1..], id, x);
      assert x in ids <==> x == ids[0] || x in ids[1..];
    }
  }

  lemma {:induction false} UnblockShifts(s: State, id: Id)
    ensures Shift(s, Unblock(s, id))
  {
    hide HasFailedDependency, DependenciesOf, Without;
    forall x
      ensures x in Without(s.processed, id) <==> x in s.processed && x != id
    {
      WithoutIs(s.processed, id, x);
    }
  }

  lemma {:induction false} UnblockEachShifts(s: State, ids: seq<Id>)
    ensures Shift(s, UnblockEach(s, ids))
  {
    hide Shift, Unblock;
    if ids == [] {
      ShiftSame(s);
    } else {
      var rest := UnblockEach(s, ids[..|ids| - 1]);
      UnblockEachShifts(s, ids[..|ids| - 1]);
      UnblockShifts(rest, ids[|ids| - 1]);
      ShiftOn(s, rest, Unblock(rest, ids[|ids| - 1]));
    }
  }

  lemma {:induction false} PropagateShifts(s: State, ids: seq<Id>, before: map<Id, StepStatus>, onlyFailed: bool)
    ensures Shift(s, PropagateFrom(s, ids, before, onlyFailed))
  {
    hide Shift, BlockEach;
    if ids == [] {
      ShiftSame(s);
    } else {
      var id := ids[|ids| - 1];
      var rest := PropagateFrom(s, ids[..|ids| - 1], before, onlyFailed);
      PropagateShifts(s, ids[..|ids| - 1], before, onlyFailed);
      BlockEachShifts(rest, Downstream(rest.steps, id));
      ShiftOn(s, rest, PropagateFailure(rest, id));
    }
  }

  lemma {:induction false} UnblockFromShifts(s: State, ids: seq<Id>, now: map<Id, StepStatus>, before: map<Id, StepStatus>)
    ensures Shift(s, UnblockFrom(s, ids, now, before))
  {
    hide Shift, UnblockEach;
    if ids == [] {
      ShiftSame(s);
    } else {
      var id := ids[|ids| - 1];
      var rest := UnblockFrom(s, ids[..|ids| - 1], now, before);
      UnblockFromShifts(s, ids[..|ids| - 1], now, before);
      UnblockEachShifts(rest, Downstream(rest.steps, id));
      ShiftOn(s, rest, PropagateUnblock(rest, id));
    }
  }

  lemma {:induction false} CancelEachShifts(s: State, ids: seq<Id>)
    ensures Shift(s, CancelEach(s, ids))
  {
    hide Shift;
    if ids == [] {
      ShiftSame(s);
    } else {
      var id := ids[|ids| - 1];
      var rest := CancelEach(s, ids[..|ids| - 1]);
      CancelEachShifts(s, ids[..|ids| - 1]);
      CancelOneShifts(rest, id);
      ShiftOn(s, rest, CancelEach(s, ids));
    }
  }

  lemma {:induction false} CancelOneShifts(s: State, id: Id)
    ensures Shift(s, if IsFinal(StatusOf(s, id)) then s else MarkProcessed(SetStatus(s, id, Cancelled), id))
  {
  }

  /** Moving one unsatisfied step, whatever happens to the fields that carry no status. */
  lemma {:induction false} MoveShifts(s: State, t: State, id: Id, st: StepStatus)
    requires t == s.(stepStatus := s.stepStatus[id := st], processed := t.processed, status := t.status,
                     verdict := t.verdict, pausedReason := t.pausedReason, pausedStep := t.pausedStep,
                     truths := t.truths, chainIndex := t.chainIndex, routed := t.routed)
    requires !IsSatisfied(StatusOf(s, id)) && IsIdle(st)
    requires forall x :: x in s.processed && x != id ==> x in t.processed
    ensures Shift(s, t)
  {
  }

  // ----- scheduling

  lemma {:induction false} ReadyDependencies(s: State, step: Step, d: Id)
    requires DistinctIds(s.steps) && Exact(s) && step in ReadySteps(s) && DependsOn(s.steps, step.id, d)
    ensures IsSatisfied(StatusOf(s, d)) && IsOpen(StatusOf(s, step.id))
  {
    assert step in s.steps && IsReady(s, step);
    var i :| 0 <= i < |s.steps| && s.steps[i] == step;
    var j :| 0 <= j < |s.steps| && s.steps[j].id == step.id && d in s.steps[j].dependsOn;
    assert i == j;
  }

  lemma {:induction false} StepFollows(s: State, step: Step, exec: Executor, one: bool)
    requires Core(s) && step in ReadySteps(s)
    ensures Follows(s, StepTurn(s, step, exec, one).state)
  {
    hide StepTurn, ReadyAmong, DependsOn, DistinctIds;
    var t := StepTurn(s, step, exec, one).state;
    StepTurnFrame(s, step, exec, one);
    assert step in s.steps && IsReady(s, step);
    assert Keeps(s, t) && Exact(t);
    forall d | DependsOn(s.steps, step.id, d)
      ensures IsSatisfied(StatusOf(s, d)) && d != step.id
    {
      ReadyDependencies(s, step, d);
    }
    forall a, d | DependsOn(t.steps, a, d) && !IsIdle(StatusOf(t, a))
      ensures IsSatisfied(StatusOf(t, d))
    {
      assert a != step.id ==> StatusOf(t, a) == StatusOf(s, a);
      assert IsSatisfied(StatusOf(s, d));
    }
    StepLogSafe(s, t, step);
  }

  lemma {:induction false} StepLogSafe(s: State, t: State, step: Step)
    requires LogSafe(s) && LogGrows(s, t, step.id) && t.steps == s.steps && Keeps(s, t)
    requires forall d :: DependsOn(s.steps, step.id, d) ==> IsSatisfied(StatusOf(s, d)) && d != step.id
    ensures LogSafe(t)
  {
    hide DependsOn;
    KeepsIn(s, t);
    forall k | 0 <= k < |t.log|
      ensures CallSafe(t.steps, t.log[k], t.stepStatus)
    {
      if k < |s.log| {
        assert t.log[k] == s.log[k];
        CallStaysSafe(s.steps, s.log[k], s.stepStatus, t.stepStatus);
      } else {
        assert t.log[k] == Invocation(step.id, s.stepStatus[step.id := Running]);
      }
    }
  }

  /** The step that a run stopped at is not a satisfied one. */
  ghost predicate StopIsUnsatisfied(s: State) {
    (s.status == PlanFailed || s.pausedReason == Some(WAITING_CONSENT)) && s.pausedStep.Some? ==>
      !IsSatisfied(StatusOf(s, s.pausedStep.value))
  }

  /** Nothing is stopped at while the loop runs. */
  ghost predicate InLoop(s: State) {
    s.status == PlanRunning && s.pausedReason.None? && s.pausedStep.None?
  }

  lemma {:induction false} NothingReadyFollows(s: State)
    requires Core(s)
    ensures Follows(s, NothingReady(s))
    ensures InLoop(s) ==> NothingReady(s).pausedStep.None?
  {
    hide AllFinal, AllDependenciesFailed, DependsOn, DistinctIds, PropagateFrom;
    ShiftSame(s);
    ShiftFollows(s, s);
    var failed := s.(status := PlanFailed);
    PropagateShifts(failed, IdsOf(s.steps), s.stepStatus, false);
    ShiftFollows(failed, PropagateFrom(failed, IdsOf(s.steps), s.stepStatus, false));
    PropagateKeepsPause(failed, IdsOf(s.steps), s.stepStatus, false);
  }

  ghost predicate SamePause(s: State, t: State) {
    s.status == t.status && s.verdict == t.verdict && s.pausedReason == t.pausedReason && s.pausedStep == t.pausedStep
  }

  lemma {:induction false} BlockEachKeepsPause(s: State, ids: seq<Id>)
    ensures SamePause(s, BlockEach(s, ids))
  {
    if ids == [] {
    } else {
      BlockEachKeepsPause(s, ids[..|ids| - 1]);
    }
  }

  lemma {:induction false} PropagateKeepsPause(s: State, ids: seq<Id>, before: map<Id, StepStatus>, onlyFailed: bool)
    ensures SamePause(s, PropagateFrom(s, ids, before, onlyFailed))
  {
    hide BlockEach;
    if ids == [] {
    } else {
      var rest := PropagateFrom(s, ids[..|ids| - 1], before, onlyFailed);
      PropagateKeepsPause(s, ids[..|ids| - 1], before, onlyFailed);
      BlockEachKeepsPause(rest, Downstream(rest.steps, ids[|ids| - 1]));
    }
  }

  lemma {:induction false} UnblockEachKeepsPause(s: State, ids: seq<Id>)
    ensures SamePause(s, UnblockEach(s, ids))
  {
    if ids == [] {
    } else {
      UnblockEachKeepsPause(s, ids[..|ids| - 1]);
    }
  }

  lemma {:induction false} UnblockFromKeepsPause(s: State, ids: seq<Id>, now: map<Id, StepStatus>, before: map<Id, StepStatus>)
    ensures SamePause(s, UnblockFrom(s, ids, now, before))
  {
    hide UnblockEach;
    if ids == [] {
    } else {
      var rest := UnblockFrom(s, ids[..|ids| - 1], now, before);
      UnblockFromKeepsPause(s, ids[..|ids| - 1], now, before);
      UnblockEachKeepsPause(rest, Downstream(rest.steps, ids[|ids| - 1]));
    }
  }

  lemma {:induction false} CancelEachKeepsPause(s: State, ids: seq<Id>)
    ensures SamePause(s, CancelEach(s, ids))
  {
    if ids == [] {
    } else {
      CancelEachKeepsPause(s, ids[..|ids| - 1]);
    }
  }

  lemma {:induction false} TurnFollows(s: State, exec: Executor, one: bool)
    requires Core(s) && InLoop(s)
    ensures Follows(s, TakeTurn(s, exec, one).state)
    ensures TakeTurn(s, exec, one).Continue? ==> InLoop(TakeTurn(s, exec, one).state)
    ensures StopIsUnsatisfied(TakeTurn(s, exec, one).state)
  {
    hide StepTurn, NothingReady, ReadyAmong, Core, Follows;
    if ReadySteps(s) == [] {
      NothingReadyFollows(s);
    } else {
      var step := ReadySteps(s)[0];
      StepFollows(s, step, exec, one);
      StepTurnEnds(s, step, exec, one);
    }
  }

  lemma {:induction false} LoopFollows(s: State, exec: Executor, one: bool)
    requires Core(s) && InLoop(s)
    ensures Follows(s, Loop(s, exec, one)) && StopIsUnsatisfied(Loop(s, exec, one))
    decreases OpenSteps(s)
  {
    hide TakeTurn, Loop, OpenSteps, Core, StopIsUnsatisfied;
    LoopUnfold(s, exec, one);
    TurnFollows(s, exec, one);
    var turn := TakeTurn(s, exec, one);
    if turn.Continue? {
      LoopFollows(turn.state, exec, one);
      FollowsOn(s, turn.state, Loop(turn.state, exec, one));
    }
  }

  /** Looking the satisfied steps up again changes nothing. */
  lemma {:induction false} RebuildChangesNothing(s: State)
    requires Exact(s)
    ensures Rebuild(s) == s
  {
    assert s.satisfied == SatisfiedSet(s.processed, s.stepStatus) by {
      forall id
        ensures id in s.satisfied <==> id in SatisfiedSet(s.processed, s.stepStatus)
      {
        assert StatusOf(s, id) == StatusIn(s.stepStatus, id);
      }
    }
  }

  lemma {:induction false} RunFollows(s: State, exec: Executor, one: bool)
    requires Core(s) && !IsTerminal(s.status)
    ensures Follows(s, RunUntilBlocked(s, exec, one)) && StopIsUnsatisfied(RunUntilBlocked(s, exec, one))
  {
    hide Loop, DependsOn, DistinctIds, StopIsUnsatisfied;
    RebuildChangesNothing(s);
    var begin := s.(status := PlanRunning, pausedReason := None, pausedStep := None);
    ShiftSame(s);
    assert Shift(s, begin);
    ShiftFollows(s, begin);
    LoopFollows(begin, exec, one);
    FollowsOn(s, begin, Loop(begin, exec, one));
  }

  lemma {:induction false} PauseKeepsCore(s: State, reason: string)
    ensures Core(s) ==> Core(Pause(s, reason))
  {
    hide Core;
    if Core(s) {
      ShiftSame(s);
      assert Shift(s, Pause(s, reason));
      ShiftFollows(s, Pause(s, reason));
    }
  }
}
