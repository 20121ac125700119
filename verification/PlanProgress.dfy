/** Progress: a valid plan without consent steps and without a fallback chain ends. */
module PlanProgress {
  import opened PlanDag
  import opened PlanWalk
  import opened PlanState
  import opened PlanSafety
  import opened PlanRuns
  import opened PlanFrontier

  // ----- least elements of an acyclic plan

  /** Following dependencies inside a set must stop, or there would be a cycle. */
  lemma {:induction false} DescendWithin(steps: Steps, within: set<Id>, path: seq<Id>, rest: set<Id>) returns (least: Id)
    requires Acyclic(steps) && path != [] && IsPath(steps, path)
    requires forall id :: id in path ==> id in within
    requires rest == set id | id in within && id !in path
    ensures least in within && forall d :: DependsOn(steps, least, d) ==> d !in within
    decreases rest
  {
    hide DependsOn, IsPath, Acyclic;
    var last := path[|path| - 1];
    if d :| DependsOn(steps, last, d) && d in within {
      if d in path {
        PathClosesCycle(steps, path, d);
        NoCycle(steps, d);
      }
      PathGrows(steps, path, d);
      assert d in rest;
      least := DescendWithin(steps, within, path + [d], rest - {d});
    } else {
      least := last;
    }
  }

  lemma {:induction false} NoCycle(steps: Steps, id: Id)
    requires Acyclic(steps)
    ensures !OnCycle(steps, id)
  {
  }

  lemma {:induction false} LeastOf(steps: Steps, within: set<Id>, id: Id) returns (least: Id)
    requires Acyclic(steps) && id in within
    ensures least in within && forall d :: DependsOn(steps, least, d) ==> d !in within
  {
    var path := [id];
    least := DescendWithin(steps, within, path, set x | x in within && x !in path);
  }

  // ----- blocked steps have their reason

  ghost predicate Behind(s: State, b: Id) {
    exists d :: DependsOn(s.steps, b, d) && IsFailedDependency(StatusOf(s, d))
  }

  ghost predicate Grounded(s: State) {
    forall b :: StatusOf(s, b) == Blocked ==> Behind(s, b)
  }

  ghost predicate NoneRunning(s: State) {
    forall id :: StatusOf(s, id) != Running
  }

  /** A scheduled step has everything it depends on, however indirectly, satisfied. */
  lemma {:induction false} EarnedAlong(s: State, path: seq<Id>)
    requires Earned(s) && IsPath(s.steps, path) && |path| > 1 && !IsIdle(StatusOf(s, path[0]))
    ensures IsSatisfied(StatusOf(s, path[|path| - 1]))
    decreases |path|
  {
    hide DependsOn;
    var n := |path| - 1;
    if n == 1 {
    } else {
      EarnedAlong(s, path[..n]);
    }
    assert DependsOn(s.steps, path[n - 1], path[n]);
  }

  /** A step that newly blocks stands directly behind a failed or blocked one. */
  lemma {:induction false} NewlyBehind(s: State, failed: Id, b: Id)
    requires Core(s) && IsFailedDependency(StatusOf(s, failed)) && Reaches(s.steps, failed, b)
    ensures Behind(PropagateFailure(s, failed), b)
  {
    hide DependsOn, PropagateFailure, Exact, LogSafe, DistinctIds, Earned;
    var path :| |path| > 1 && IsPath(s.steps, path) && path[0] == b && path[|path| - 1] == failed;
    var p := path[1];
    assert DependsOn(s.steps, b, p);
    FrontierIsExact(s, failed, p);
    if |path| > 2 {
      var tail := path[1..];
      assert forall k :: 0 < k < |tail| ==> tail[k - 1] == path[k] && tail[k] == path[k + 1];
      TailIsPath(s.steps, path);
      assert Reaches(s.steps, failed, p);
      if !IsIdle(StatusOf(s, p)) {
        EarnedAlong(s, tail);
      }
    }
    assert IsFailedDependency(StatusOf(PropagateFailure(s, failed), p));
  }

  lemma {:induction false} TailIsPath(steps: Steps, path: seq<Id>)
    requires IsPath(steps, path) && path != []
    ensures IsPath(steps, path[1..])
  {
    hide DependsOn;
    var tail := path[1..];
    forall k | 0 < k < |tail|
      ensures DependsOn(steps, tail[k - 1], tail[k])
    {
      assert DependsOn(steps, path[k], path[k + 1]);
    }
  }

  lemma {:induction false} PropagationGrounded(s: State, failed: Id)
    requires Core(s) && Grounded(s) && NoneRunning(s) && IsFailedDependency(StatusOf(s, failed))
    ensures Grounded(PropagateFailure(s, failed)) && NoneRunning(PropagateFailure(s, failed))
    ensures forall id :: IsFailedDependency(StatusOf(s, id)) ==> IsFailedDependency(StatusOf(PropagateFailure(s, failed), id))
    ensures forall id :: IsOpen(StatusOf(PropagateFailure(s, failed), id)) ==> IsOpen(StatusOf(s, id))
  {
    hide DependsOn, PropagateFailure, Core, Reaches;
    var t := PropagateFailure(s, failed);
    forall id
      ensures StatusOf(t, id) == if Reaches(s.steps, failed, id) && IsOpen(StatusOf(s, id)) then Blocked else StatusOf(s, id)
      ensures t.steps == s.steps
    {
      FrontierIsExact(s, failed, id);
    }
    forall b | StatusOf(t, b) == Blocked
      ensures Behind(t, b)
    {
      if StatusOf(s, b) == Blocked {
        assert Behind(s, b);
      } else {
        NewlyBehind(s, failed, b);
      }
    }
  }

  lemma {:induction false} PropagationsGrounded(s: State, ids: seq<Id>, before: map<Id, StepStatus>, onlyFailed: bool)
    requires Core(s) && Grounded(s) && NoneRunning(s)
    requires forall id :: IsFailedDependency(StatusIn(before, id)) ==> IsFailedDependency(StatusOf(s, id))
    ensures var t := PropagateFrom(s, ids, before, onlyFailed);
      && Core(t) && Grounded(t) && NoneRunning(t)
      && (forall id :: IsFailedDependency(StatusIn(before, id)) ==> IsFailedDependency(StatusOf(t, id)))
      && (forall id :: IsOpen(StatusOf(t, id)) ==> IsOpen(StatusOf(s, id)))
  {
    hide Core, Grounded, NoneRunning, PropagateFailure, Follows;
    if ids == [] {
    } else {
      var id, rest := ids[|ids| - 1], PropagateFrom(s, ids[..|ids| - 1], before, onlyFailed);
      PropagationsGrounded(s, ids[..|ids| - 1], before, onlyFailed);
      if IsSource(before, onlyFailed, id) {
        PropagationGrounded(rest, id);
        PropagationCore(rest, id);
      }
    }
  }

  lemma {:induction false} PropagationCore(s: State, failed: Id)
    requires Core(s)
    ensures Core(PropagateFailure(s, failed))
  {
    hide Core, BlockEach;
    BlockEachShifts(s, Downstream(s.steps, failed));
    ShiftFollows(s, PropagateFailure(s, failed));
  }

  /** With every blocked step behind a failure, unblocking reopens nothing. */
  lemma {:induction false} NothingToUnblock(s: State, id: Id)
    requires DistinctIds(s.steps) && Grounded(s)
    ensures Unblock(s, id) == s
  {
    hide DependsOn, DistinctIds, DependenciesOf, HasFailedDependency;
    if StatusOf(s, id) == Blocked {
      assert Behind(s, id);
      var d :| DependsOn(s.steps, id, d) && IsFailedDependency(StatusOf(s, d));
      DependenciesAre(s, id, d);
      NoneFailed(s, DependenciesOf(s, id), d);
    }
  }

  lemma {:induction false} NothingUnblocked(s: State, ids: seq<Id>, now: map<Id, StepStatus>, before: map<Id, StepStatus>)
    requires DistinctIds(s.steps) && Grounded(s)
    ensures UnblockFrom(s, ids, now, before) == s
  {
    hide Grounded, DistinctIds, UnblockEach;
    if ids == [] {
    } else {
      NothingUnblocked(s, ids[..|ids| - 1], now, before);
      NoneUnblocked(s, Downstream(s.steps, ids[|ids| - 1]));
    }
  }

  lemma {:induction false} NoneUnblocked(s: State, ids: seq<Id>)
    requires DistinctIds(s.steps) && Grounded(s)
    ensures UnblockEach(s, ids) == s
  {
    hide Grounded, DistinctIds, Unblock;
    if ids == [] {
    } else {
      NoneUnblocked(s, ids[..|ids| - 1]);
      NothingToUnblock(s, ids[|ids| - 1]);
    }
  }

  // ----- a run gets on

  lemma {:induction false} InOpenSteps(s: State, id: Id)
    ensures id in OpenSteps(s) <==> id in Ids(s.steps) && IsOpen(StatusOf(s, id))
  {
  }

  lemma {:induction false} FewerOpenIn(s: State, t: State)
    requires t.steps == s.steps && forall id :: IsOpen(StatusOf(t, id)) ==> IsOpen(StatusOf(s, id))
    ensures OpenSteps(t) <= OpenSteps(s)
  {
    hide OpenSteps;
    forall id | id in OpenSteps(t)
      ensures id in OpenSteps(s)
    {
      InOpenSteps(t, id);
      InOpenSteps(s, id);
    }
  }

  /** While something is open and nothing waits for a failure, a step is ready. */
  lemma {:induction false} SomethingIsReady(s: State)
    requires Core(s) && DependenciesExist(s.steps) && Acyclic(s.steps) && NoLeak(s) && NoneRunning(s)
    requires OpenSteps(s) != {}
    ensures ReadySteps(s) != []
  {
    hide DependsOn, DistinctIds, Acyclic, Earned, LogSafe, ReadyAmong, OpenSteps;
    var id :| id in OpenSteps(s);
    var least := LeastOf(s.steps, OpenSteps(s), id);
    InOpenSteps(s, least);
    var i :| 0 <= i < |s.steps| && s.steps[i].id == least;
    var step := s.steps[i];
    forall k | 0 <= k < |step.dependsOn|
      ensures step.dependsOn[k] in s.satisfied
    {
      var d := step.dependsOn[k];
      IsDependency(s.steps, i, d);
      InOpenSteps(s, d);
      assert !Leak(s, least, d);
    }
    assert step in ReadySteps(s);
  }

  lemma {:induction false} IsDependency(steps: Steps, i: nat, d: Id)
    requires i < |steps| && d in steps[i].dependsOn
    ensures DependsOn(steps, steps[i].id, d)
  {
  }

  /** What a run keeps on its way. */
  ghost predicate Going(s: State) {
    Core(s) && NoConsent(s.steps) && Grounded(s) && NoneRunning(s) && Covered(s)
  }

  /** Exactly the steps have a status. */
  ghost predicate Covered(s: State) {
    s.stepStatus.Keys == Ids(s.steps)
  }

  lemma {:induction false} IsStepId(steps: Steps, step: Step)
    requires step in steps
    ensures step.id in Ids(steps)
  {
  }

  lemma {:induction false} StepGoing(s: State, step: Step, exec: Executor)
    requires Going(s) && step in ReadySteps(s)
    ensures var t := StepTurn(s, step, exec, true).state;
      Going(t) && OpenSteps(t) < OpenSteps(s) && t.verdict == s.verdict
  {
    hide StepTurn, ReadyAmong, DependsOn, Core, OpenSteps, LogGrows, NoConsent, Ids;
    var t := StepTurn(s, step, exec, true).state;
    StepTurnFrame(s, step, exec, true);
    ReadyNeedsNoConsent(s, step);
    StepNotBlocked(s, step, exec, true);
    StepFollows(s, step, exec, true);
    FewerOpen(s, t, step);
    IsStepId(s.steps, step);
    forall b | StatusOf(t, b) == Blocked
      ensures Behind(t, b)
    {
      assert Behind(s, b);
      var d :| DependsOn(s.steps, b, d) && IsFailedDependency(StatusOf(s, d));
      assert StatusOf(t, d) == StatusOf(s, d);
    }
  }

  lemma {:induction false} NothingReadyGoing(s: State)
    requires Going(s)
    ensures var t := NothingReady(s);
      Going(t) && OpenSteps(t) <= OpenSteps(s) && t.verdict == s.verdict
    ensures NothingReady(s).status == PlanDone <==> AllFinal(s)
    ensures AllFinal(s) ==> NothingReady(s).stepStatus == s.stepStatus
  {
    hide PropagateFrom, DependsOn, Core, OpenSteps, NoConsent, Ids, AllDependenciesFailed, AllFinal;
    var failed := s.(status := PlanFailed);
    var t := NothingReady(s);
    ShiftSame(s);
    if !AllFinal(s) && AllDependenciesFailed(s) {
      SameGrounded(s, failed);
      PropagationsGrounded(failed, IdsOf(s.steps), s.stepStatus, false);
      PropagateKeepsPause(failed, IdsOf(s.steps), s.stepStatus, false);
      PropagateKeepsChain(failed, IdsOf(s.steps), s.stepStatus, false);
      PropagationCovers(failed, IdsOf(s.steps), s.stepStatus, false);
    } else {
      SameGrounded(s, t);
    }
    FewerOpenIn(s, t);
  }

  lemma {:induction false} SameGrounded(s: State, t: State)
    requires Core(s) && Grounded(s) && NoneRunning(s)
    requires t == s.(status := t.status, verdict := t.verdict, pausedReason := t.pausedReason, pausedStep := t.pausedStep)
    ensures Core(t) && Grounded(t) && NoneRunning(t) && forall id :: StatusOf(t, id) == StatusOf(s, id)
  {
    hide Core, DependsOn;
    SameStatusesShift(s, t);
    ShiftFollows(s, t);
    forall b | StatusOf(t, b) == Blocked
      ensures Behind(t, b)
    {
      assert Behind(s, b);
    }
  }

  lemma {:induction false} BlockEachCovers(s: State, ids: seq<Id>)
    requires Covered(s) && forall id :: id in ids ==> id in Ids(s.steps)
    ensures Covered(BlockEach(s, ids))
  {
    hide Ids;
    if ids == [] {
    } else {
      BlockEachCovers(s, ids[..|ids| - 1]);
      BlockEachKeepsChain(s, ids[..|ids| - 1]);
    }
  }

  lemma {:induction false} PropagationCovers(s: State, ids: seq<Id>, before: map<Id, StepStatus>, onlyFailed: bool)
    requires Covered(s)
    ensures Covered(PropagateFrom(s, ids, before, onlyFailed))
  {
    hide BlockEach, Covered, Downstream;
    if ids == [] {
    } else {
      var id, rest := ids[|ids| - 1], PropagateFrom(s, ids[..|ids| - 1], before, onlyFailed);
      PropagationCovers(s, ids[..|ids| - 1], before, onlyFailed);
      forall x | x in Downstream(rest.steps, id)
        ensures x in Ids(rest.steps)
      {
        DownstreamIsReachable(rest.steps, id, x);
      }
      BlockEachCovers(rest, Downstream(rest.steps, id));
    }
  }

  ghost predicate NotAskingAtAll(s: State) {
    s.pausedReason != Some(WAITING_CONSENT) && s.pausedReason != Some(HARD_GATE_BLOCKED)
  }

  /** How a run of one step ends. */
  ghost predicate EndsWell(t: State) {
    && (t.status == PlanDone ==> AllFinal(t))
    && (AllFinal(t) ==> t.status == PlanDone || exists id :: StatusOf(t, id) == Failed)
    && t.status != PlanCancelled
    && NotAskingAtAll(t)
  }

  lemma {:induction false} TurnEndsWell(s: State, exec: Executor)
    requires InLoop(s) && NoConsent(s.steps)
    ensures TakeTurn(s, exec, true).Stop? ==> EndsWell(TakeTurn(s, exec, true).state)
  {
    hide StepTurn, ReadyAmong, NothingReady, AllFinal, NoConsent;
    if ReadySteps(s) == [] {
      NothingReadyEndsWell(s);
    } else {
      var step := ReadySteps(s)[0];
      ReadyNeedsNoConsent(s, step);
      StepTurnEnds(s, step, exec, true);
      StepNotBlocked(s, step, exec, true);
      if StepTurn(s, step, exec, true).Stop? {
        ExecutedEndsWell(s, step, exec);
      }
    }
  }

  lemma {:induction false} NothingReadyEndsWell(s: State)
    requires InLoop(s)
    ensures EndsWell(NothingReady(s))
  {
    hide PropagateFrom, AllDependenciesFailed;
    var failed := s.(status := PlanFailed);
    PropagateKeepsPause(failed, IdsOf(s.steps), s.stepStatus, false);
    PropagateKeepsChain(failed, IdsOf(s.steps), s.stepStatus, false);
    if !AllFinal(s) && AllDependenciesFailed(s) {
      PropagationStaysOpenOrBlocked(s, failed);
    }
  }

  lemma {:induction false} PropagationStaysOpenOrBlocked(s: State, failed: State)
    requires !AllFinal(s) && failed == s.(status := PlanFailed)
    ensures !AllFinal(PropagateFrom(failed, IdsOf(s.steps), s.stepStatus, false))
  {
    hide PropagateFrom;
    var k :| 0 <= k < |s.steps| && !IsFinal(StatusOf(s, s.steps[k].id));
    PropagationsNotFinal(failed, IdsOf(s.steps), s.stepStatus, false, s.steps[k].id);
    PropagateKeepsChain(failed, IdsOf(s.steps), s.stepStatus, false);
  }

  lemma {:induction false} PropagationsNotFinal(s: State, ids: seq<Id>, before: map<Id, StepStatus>, onlyFailed: bool, id: Id)
    requires !IsFinal(StatusOf(s, id))
    ensures !IsFinal(StatusOf(PropagateFrom(s, ids, before, onlyFailed), id))
  {
    hide BlockEach;
    if ids == [] {
    } else {
      var rest := PropagateFrom(s, ids[..|ids| - 1], before, onlyFailed);
      PropagationsNotFinal(s, ids[..|ids| - 1], before, onlyFailed, id);
      BlockedEach(rest, Downstream(rest.steps, ids[|ids| - 1]), id);
    }
  }

  /** After the one execution the plan is done as soon as all is final, unless it just failed. */
  lemma {:induction false} ExecutedEndsWell(s: State, step: Step, exec: Executor)
    requires !step.requireConsent && StepTurn(s, step, exec, true).Stop?
    ensures var t := StepTurn(s, step, exec, true).state;
      AllFinal(t) ==> t.status == PlanDone || StatusOf(t, step.id) == Failed
  {
    hide Attempt, Conclude, Satisfy;
    ConcludeEnds(Attempt(s, step, exec, 0, true), step);
  }

  lemma {:induction false} LoopGoing(s: State, exec: Executor)
    requires Going(s) && InLoop(s)
    ensures var t := Loop(s, exec, true);
      Going(t) && OpenSteps(t) <= OpenSteps(s) && t.verdict == s.verdict && EndsWell(t)
      && (ReadySteps(s) != [] ==> OpenSteps(t) < OpenSteps(s))
    decreases OpenSteps(s)
  {
    hide Going, Loop, OpenSteps, EndsWell, NothingReady, StepTurn, ReadyAmong, StopIsFailed, NotAsking;
    LoopUnfold(s, exec, true);
    GoingIs(s);
    TurnEndsWell(s, exec);
    TurnStops(s, exec, true);
    if ReadySteps(s) == [] {
      NothingReadyGoing(s);
    } else {
      StepGoing(s, ReadySteps(s)[0], exec);
      if TakeTurn(s, exec, true).Continue? {
        LoopGoing(TakeTurn(s, exec, true).state, exec);
      }
    }
  }

  lemma {:induction false} GoingIs(s: State)
    requires Going(s)
    ensures Core(s) && NoConsent(s.steps) && Grounded(s) && NoneRunning(s) && Covered(s)
    ensures DistinctIds(s.steps) && Exact(s)
  {
  }

  // ----- one call

  predicate Ended(s: State) {
    s.verdict.Some? || s.status == PlanDone || s.status == PlanCancelled
  }

  /** A valid plan driven step by step only. */
  ghost predicate Live(s: State) {
    && Settled(s) && Going(s) && Acyclic(s.steps)
    && s.chain == 0 && s.pausedReason != Some(HARD_GATE_BLOCKED)
    && (Ended(s) ==> OpenSteps(s) == {})
  }

  lemma {:induction false} BeginGoing(s: State)
    requires Going(s)
    ensures var begin := s.(status := PlanRunning, pausedReason := None, pausedStep := None);
      Going(begin) && InLoop(begin) && OpenSteps(begin) == OpenSteps(s) && ReadySteps(begin) == ReadySteps(s)
      && Rebuild(s) == s
  {
    hide Core, Grounded, NoneRunning, DependsOn, NoConsent, ReadyAmong;
    var begin := s.(status := PlanRunning, pausedReason := None, pausedStep := None);
    SameGrounded(s, begin);
    GoingIs(s);
    RebuildChangesNothing(s);
    FewerOpenIn(s, begin);
    FewerOpenIn(begin, s);
    SameReady(s, begin, s.steps);
  }

  lemma {:induction false} SameReady(s: State, t: State, steps: Steps)
    requires t.stepStatus == s.stepStatus && t.satisfied == s.satisfied
    ensures ReadyAmong(s, steps) == ReadyAmong(t, steps)
  {
    if steps == [] {
    } else {
      SameReady(s, t, steps[1..]);
    }
  }

  lemma {:induction false} RunGoing(s: State, exec: Executor)
    requires Going(s) && !IsTerminal(s.status)
    ensures var t := RunUntilBlocked(s, exec, true);
      Going(t) && OpenSteps(t) <= OpenSteps(s) && t.verdict == s.verdict && EndsWell(t)
      && (ReadySteps(s) != [] ==> OpenSteps(t) < OpenSteps(s))
  {
    hide Going, Loop, OpenSteps, EndsWell, ReadyAmong;
    BeginGoing(s);
    LoopGoing(s.(status := PlanRunning, pausedReason := None, pausedStep := None), exec);
  }

  lemma {:induction false} NoFallback(s: State, exec: Executor)
    requires s.chain == 0
    ensures FallbackLoop(s, exec) == s
  {
  }

  /** Nothing open and every blocked step behind a failure: some step failed, was cancelled, or
      none is blocked. */
  lemma {:induction false} BlockedHasRoot(s: State, b: Id)
    requires Grounded(s) && Acyclic(s.steps) && StatusOf(s, b) == Blocked
    ensures SomeStatus(s, Failed) || SomeStatus(s, Cancelled)
  {
    hide DependsOn, Acyclic;
    var blocked := set id | id in s.stepStatus && s.stepStatus[id] == Blocked;
    var least := LeastOf(s.steps, blocked, b);
    assert Behind(s, least);
    var d :| DependsOn(s.steps, least, d) && IsFailedDependency(StatusOf(s, d));
    StatusIsSome(s, d);
    assert StatusOf(s, d) == Failed || StatusOf(s, d) == Cancelled;
  }

  lemma {:induction false} StatusIsSome(s: State, id: Id)
    requires StatusOf(s, id) != Pending
    ensures SomeStatus(s, StatusOf(s, id))
  {
    assert id in s.stepStatus;
  }

  lemma {:induction false} NoneOpenOrRunning(s: State)
    requires NoneRunning(s) && OpenSteps(s) == {} && Covered(s)
    ensures !AnyOpenOrRunning(s)
  {
    hide OpenSteps, Ids;
    forall id | id in s.stepStatus
      ensures !IsOpen(s.stepStatus[id]) && s.stepStatus[id] != Running
    {
      InOpenSteps(s, id);
      assert StatusOf(s, id) != Running;
    }
  }

  /** With nothing open the plan gets a verdict, unless everything is final and none failed. */
  lemma {:induction false} VerdictReached(s: State)
    requires Going(s) && Acyclic(s.steps) && NotAskingAtAll(s) && OpenSteps(s) == {}
    requires FinalVerdict(s).None? && s.verdict.None?
    ensures AllFinal(s) && forall id :: StatusOf(s, id) != Failed
  {
    hide Core, OpenSteps, DependsOn, Acyclic, NoConsent, AllDone, AnyOpenOrRunning;
    NoneOpenOrRunning(s);
    forall id
      ensures StatusOf(s, id) != Blocked && StatusOf(s, id) != Failed
    {
      if StatusOf(s, id) == Blocked || StatusOf(s, id) == Failed {
        StatusIsSome(s, id);
      }
      if StatusOf(s, id) == Blocked {
        BlockedHasRoot(s, id);
      }
    }
    forall k | 0 <= k < |s.steps|
      ensures IsFinal(StatusOf(s, s.steps[k].id))
    {
      InOpenSteps(s, s.steps[k].id);
      assert StatusOf(s, s.steps[k].id) != Running;
    }
  }


  lemma {:induction false} VerdictMeansClosed(s: State)
    requires FinalVerdict(s).Some? && Covered(s)
    ensures OpenSteps(s) == {}
  {
    hide OpenSteps, Ids, AnyOpenOrRunning;
    forall id
      ensures id !in OpenSteps(s)
    {
      InOpenSteps(s, id);
      OpenIsSome(s, id);
    }
  }

  lemma {:induction false} OpenIsSome(s: State, id: Id)
    ensures id in s.stepStatus && IsOpen(StatusOf(s, id)) ==> AnyOpenOrRunning(s)
  {
    assert id in s.stepStatus ==> SomeStatus(s, s.stepStatus[id]);
  }

  lemma {:induction false} FinalMeansClosed(s: State)
    requires AllFinal(s)
    ensures OpenSteps(s) == {}
  {
  }

  lemma {:induction false} PropagatedFinal(s: State, t: State)
    requires t.steps == s.steps && AllFinal(t)
    requires forall id :: StatusOf(t, id) == StatusOf(s, id) || StatusOf(t, id) == Blocked
    ensures AllFinal(s)
  {
    forall k | 0 <= k < |s.steps|
      ensures IsFinal(StatusOf(s, s.steps[k].id))
    {
      assert IsFinal(StatusOf(t, t.steps[k].id));
    }
  }

  lemma {:induction false} PropagationsBlockOnly(s: State, ids: seq<Id>, before: map<Id, StepStatus>, onlyFailed: bool, id: Id)
    ensures var t := PropagateFrom(s, ids, before, onlyFailed);
      StatusOf(t, id) == StatusOf(s, id) || (IsOpen(StatusOf(s, id)) && StatusOf(t, id) == Blocked)
  {
    hide BlockEach;
    if ids == [] {
    } else {
      var rest := PropagateFrom(s, ids[..|ids| - 1], before, onlyFailed);
      PropagationsBlockOnly(s, ids[..|ids| - 1], before, onlyFailed, id);
      BlockedEach(rest, Downstream(rest.steps, ids[|ids| - 1]), id);
    }
  }

  /** Marking what a step has led to keeps everything that progress needs. */
  lemma {:induction false} MarkedGoing(first: State)
    requires Going(first) && EndsWell(first) && Acyclic(first.steps) && first.verdict.None?
    ensures var marked := PropagateFrom(first, IdsOf(first.steps), first.stepStatus, true); var t := Finalize(marked);
      && Going(t) && OpenSteps(t) <= OpenSteps(first)
      && (OpenSteps(t) == {} <==> Ended(t))
      && t.pausedReason == first.pausedReason
  {
    hide Core, Grounded, NoneRunning, NoConsent, OpenSteps, PropagateFrom, AllFinal, FinalVerdict, Acyclic, Covered;
    var marked := PropagateFrom(first, IdsOf(first.steps), first.stepStatus, true);
    PropagationsGrounded(first, IdsOf(first.steps), first.stepStatus, true);
    PropagateKeepsPause(first, IdsOf(first.steps), first.stepStatus, true);
    PropagateKeepsChain(first, IdsOf(first.steps), first.stepStatus, true);
    PropagationCovers(first, IdsOf(first.steps), first.stepStatus, true);
    FewerOpenIn(first, marked);
    SameGrounded(marked, Finalize(marked));
    FewerOpenIn(marked, Finalize(marked));
    FewerOpenIn(Finalize(marked), marked);
    CoveredSame(marked, Finalize(marked));
    if FinalVerdict(marked).Some? {
      VerdictMeansClosed(marked);
    } else {
      if marked.status == PlanDone {
        FinalMeansClosed(first);
      }
      if OpenSteps(marked) == {} {
        ClosedIsDone(first);
      }
    }
  }

  lemma {:induction false} CoveredSame(s: State, t: State)
    requires t.steps == s.steps && t.stepStatus == s.stepStatus
    ensures Covered(s) <==> Covered(t)
  {
  }

  lemma {:induction false} ClosedIsDone(first: State)
    requires Going(first) && EndsWell(first) && Acyclic(first.steps) && first.verdict.None?
    requires var marked := PropagateFrom(first, IdsOf(first.steps), first.stepStatus, true);
      OpenSteps(marked) == {} && FinalVerdict(marked).None?
    ensures first.status == PlanDone
  {
    hide Core, Grounded, NoneRunning, NoConsent, OpenSteps, PropagateFrom, AllFinal, FinalVerdict, Acyclic, Covered;
    var marked := PropagateFrom(first, IdsOf(first.steps), first.stepStatus, true);
    PropagationsGrounded(first, IdsOf(first.steps), first.stepStatus, true);
    PropagateKeepsPause(first, IdsOf(first.steps), first.stepStatus, true);
    PropagateKeepsChain(first, IdsOf(first.steps), first.stepStatus, true);
    PropagationCovers(first, IdsOf(first.steps), first.stepStatus, true);
    VerdictReached(marked);
    forall id
      ensures StatusOf(marked, id) == StatusOf(first, id) || (IsOpen(StatusOf(first, id)) && StatusOf(marked, id) == Blocked)
    {
      PropagationsBlockOnly(first, IdsOf(first.steps), first.stepStatus, true, id);
    }
    PropagatedFinal(first, marked);
  }

  lemma {:induction false} NextLive(s: State, exec: Executor)
    requires Live(s)
    ensures var t := ExecuteNext(s, exec, false);
      && Live(t) && (Ended(t) <==> OpenSteps(t) == {})
      && (OpenSteps(s) != {} ==> OpenSteps(t) < OpenSteps(s))
      && t.steps == s.steps
  {
    hide Settled, Going, OpenSteps, ExecuteScheduled, FinalVerdict, Acyclic;
    NextSettled(s, exec);
    GoingIs(s);
    if Ended(s) {
    } else if s.status == PlanFailed && FinalVerdict(s).Some? {
      VerdictMeansClosed(s);
      FinalizedGoing(s);
    } else {
      var r := Reopened(s);
      ReopenedGoing(s);
      NextSettled(s, exec);
      SettledIs(s);
      ScheduledLive(r, exec);
    }
  }

  lemma {:induction false} FinalizedGoing(s: State)
    requires Going(s)
    ensures Going(Finalize(s)) && OpenSteps(Finalize(s)) == OpenSteps(s)
  {
    hide Core, Grounded, NoneRunning, NoConsent, OpenSteps, FinalVerdict;
    SameGrounded(s, Finalize(s));
    FewerOpenIn(s, Finalize(s));
    FewerOpenIn(Finalize(s), s);
  }

  lemma {:induction false} ReopenedGoing(s: State)
    requires Going(s)
    ensures Going(Reopened(s)) && OpenSteps(Reopened(s)) == OpenSteps(s)
    ensures NoLeak(s) ==> NoLeak(Reopened(s))
  {
    hide Core, Grounded, NoneRunning, NoConsent, OpenSteps, Leak;
    SameStatusesLeak(s, Reopened(s));
    SameGrounded(s, Reopened(s));
    FewerOpenIn(s, Reopened(s));
    FewerOpenIn(Reopened(s), s);
  }

  lemma {:induction false} ScheduledLive(s: State, exec: Executor)
    requires Going(s) && NoLeak(s) && DependenciesExist(s.steps) && Acyclic(s.steps)
    requires s.chain == 0 && !IsTerminal(s.status) && s.verdict.None?
    ensures var t := ExecuteScheduled(s, exec);
      && Going(t) && (Ended(t) <==> OpenSteps(t) == {})
      && (OpenSteps(s) != {} ==> OpenSteps(t) < OpenSteps(s))
      && t.steps == s.steps && t.chain == 0 && t.pausedReason != Some(HARD_GATE_BLOCKED)
  {
    hide Going, OpenSteps, NoLeak, Acyclic, DependenciesExist, RunUntilBlocked, FallbackLoop, PropagateFrom, UnblockFrom, Finalize,
      ReadyAmong;
    GoingIs(s);
    if OpenSteps(s) != {} {
      SomethingIsReady(s);
    }
    var first := RunUntilBlocked(s, exec, true);
    RunGoing(s, exec);
    RunKeepsChain(s, exec, true);
    NoFallback(first, exec);
    var marked := PropagateFrom(first, IdsOf(first.steps), first.stepStatus, true);
    MarkedGoing(first);
    GoingIs(first);
    PropagateKeepsChain(first, IdsOf(first.steps), first.stepStatus, true);
    PropagationsGrounded(first, IdsOf(first.steps), first.stepStatus, true);
    CoreIsDistinct(marked);
    NothingUnblocked(marked, IdsOf(marked.steps), marked.stepStatus, s.stepStatus);
    FinalizeKeeps(marked);
  }

  lemma {:induction false} FinalizeKeeps(s: State)
    ensures Finalize(s).steps == s.steps && Finalize(s).chain == s.chain
  {
    hide FinalVerdict;
  }

  // ----- the whole plan

  ghost function Drive(s: State, execs: seq<Executor>): State {
    if execs == [] then s else ExecuteNext(Drive(s, execs[..|execs| - 1]), execs[|execs| - 1], false)
  }

  lemma {:induction false} Smaller(a: set<Id>, b: set<Id>)
    requires a < b
    ensures |a| < |b|
  {
    assert |b| == |a| + |b - a| by {
      assert b == a + (b - a);
    }
    var x :| x in b && x !in a;
    assert x in b - a;
  }

  lemma {:induction false} DriveLive(s: State, execs: seq<Executor>)
    requires Live(s)
    ensures var t := Drive(s, execs);
      && Live(t) && |OpenSteps(t)| <= (if |execs| <= |OpenSteps(s)| then |OpenSteps(s)| - |execs| else 0)
      && (execs != [] ==> (Ended(t) <==> OpenSteps(t) == {})) && t.steps == s.steps
  {
    hide Live, ExecuteNext, OpenSteps;
    if execs == [] {
    } else {
      var mid := Drive(s, execs[..|execs| - 1]);
      DriveLive(s, execs[..|execs| - 1]);
      NextLive(mid, execs[|execs| - 1]);
      var t := Drive(s, execs);
      if OpenSteps(mid) != {} {
        Smaller(OpenSteps(t), OpenSteps(mid));
      } else {
        StaysClosed(mid, execs[|execs| - 1]);
      }
    }
  }

  /** Once nothing is open, nothing opens again. */
  lemma {:induction false} StaysClosed(s: State, exec: Executor)
    requires Live(s) && OpenSteps(s) == {}
    ensures OpenSteps(ExecuteNext(s, exec, false)) == {}
  {
    hide Settled, Going, OpenSteps, ExecuteScheduled, FinalVerdict, Acyclic;
    GoingIs(s);
    if !Ended(s) {
      if s.status == PlanFailed && FinalVerdict(s).Some? {
        FinalizedGoing(s);
      } else {
        ReopenedGoing(s);
        SettledIs(s);
        ClosedScheduled(Reopened(s), exec);
      }
    }
  }

  lemma {:induction false} ClosedScheduled(s: State, exec: Executor)
    requires Going(s) && Acyclic(s.steps) && OpenSteps(s) == {}
    requires s.chain == 0 && !IsTerminal(s.status) && s.verdict.None?
    ensures OpenSteps(ExecuteScheduled(s, exec)) == {}
  {
    hide Going, OpenSteps, Acyclic, RunUntilBlocked, FallbackLoop, PropagateFrom, UnblockFrom, Finalize, ReadyAmong;
    GoingIs(s);
    var first := RunUntilBlocked(s, exec, true);
    RunGoing(s, exec);
    RunKeepsChain(s, exec, true);
    NoFallback(first, exec);
    var marked := PropagateFrom(first, IdsOf(first.steps), first.stepStatus, true);
    MarkedGoing(first);
    GoingIs(first);
    PropagateKeepsChain(first, IdsOf(first.steps), first.stepStatus, true);
    PropagationsGrounded(first, IdsOf(first.steps), first.stepStatus, true);
    CoreIsDistinct(marked);
    NothingUnblocked(marked, IdsOf(marked.steps), marked.stepStatus, s.stepStatus);
    FewerOpenIn(Finalize(marked), ConsentPause(Finalize(marked)));
    FewerOpenIn(ConsentPause(Finalize(marked)), Finalize(marked));
  }

  lemma {:induction false} IdsAreFew(steps: Steps)
    ensures |Ids(steps)| <= |steps|
  {
    if steps == [] {
    } else {
      IdsAreFew(steps[1..]);
      IdsSplit(steps);
    }
  }

  lemma {:induction false} CreatedIsLive(steps: Steps, truths: set<string>)
    requires DistinctIds(steps) && DependenciesExist(steps) && Acyclic(steps) && NoConsent(steps)
    ensures Live(Create(steps, truths, 0)) && OpenSteps(Create(steps, truths, 0)) == Ids(steps)
  {
    hide DependsOn, DependenciesExist, DistinctIds, Acyclic, Core, Settled;
    var s := Create(steps, truths, 0);
    CreatedIsSettled(steps, truths, 0);
    CreatedIsSafe(steps, truths, 0);
    assert forall id :: StatusOf(s, id) == Pending;
  }

  /** A valid plan without consent steps and without a fallback chain, driven step by step:
      whatever the executor does, after as many calls as there are steps (at least one) the plan
      has ended and no step is pending, ready or running. */
  lemma {:induction false} PlanEnds(steps: Steps, truths: set<string>, execs: seq<Executor>)
    requires DistinctIds(steps) && DependenciesExist(steps) && Acyclic(steps) && NoConsent(steps)
    requires |execs| >= |steps| && |execs| >= 1
    ensures var end := Drive(Create(steps, truths, 0), execs);
      && Ended(end)
      && forall id :: id in Ids(steps) ==> !IsOpen(StatusOf(end, id)) && StatusOf(end, id) != Running
  {
    hide Drive, Ids, OpenSteps, Settled, DependsOn, DependenciesExist, DistinctIds, Acyclic, Core, Grounded;
    var s := Create(steps, truths, 0);
    CreatedIsLive(steps, truths);
    IdsAreFew(steps);
    DriveLive(s, execs);
    var end := Drive(s, execs);
    forall id | id in Ids(steps)
      ensures !IsOpen(StatusOf(end, id)) && StatusOf(end, id) != Running
    {
      InOpenSteps(end, id);
    }
  }
}
