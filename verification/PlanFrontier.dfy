/** The failure frontier: what a failed step blocks, and that nothing is left waiting for it. */
module PlanFrontier {
  import opened PlanDag
  import opened PlanWalk
  import opened PlanState
  import opened PlanSafety
  import opened PlanRuns

  // ----- one propagation

  lemma {:induction false} BlockedEach(s: State, ids: seq<Id>, id: Id)
    ensures var t := BlockEach(s, ids); var moved := id in ids && IsOpen(StatusOf(s, id));
      && StatusOf(t, id) == (if moved then Blocked else StatusOf(s, id))
      && (id in t.processed <==> id in s.processed || moved)
      && t == s.(stepStatus := t.stepStatus, processed := t.processed)
  {
    if ids == [] {
    } else {
      var last := ids[|ids| - 1];
      BlockedEach(s, ids[..|ids| - 1], id);
      assert id in ids <==> id == last || id in ids[..|ids| - 1];
    }
  }

  /** Propagation blocks exactly the open steps that depend on the failed one, directly or
      through others, records exactly those, and changes nothing else. */
  lemma {:induction false} FrontierIsExact(s: State, failed: Id, id: Id)
    ensures var t := PropagateFailure(s, failed); var moved := Reaches(s.steps, failed, id) && IsOpen(StatusOf(s, id));
      && StatusOf(t, id) == (if moved then Blocked else StatusOf(s, id))
      && (id in t.processed <==> id in s.processed || moved)
      && t == s.(stepStatus := t.stepStatus, processed := t.processed)
  {
    hide Reaches, Downstream, BlockEach;
    BlockedEach(s, Downstream(s.steps, failed), id);
    DownstreamIsReachable(s.steps, failed, id);
  }

  // ----- waiting behind a failure

  /** `a` still waits although its dependency `d` will not come. */
  ghost predicate Leak(s: State, a: Id, d: Id) {
    DependsOn(s.steps, a, d) && IsOpen(StatusOf(s, a)) && IsFailedDependency(StatusOf(s, d))
  }

  ghost predicate NoLeak(s: State) {
    forall a, d :: !Leak(s, a, d)
  }

  /** Inside a run only a failure that has not been propagated yet leaves something waiting. */
  ghost predicate LeaksAtFailures(s: State) {
    forall a, d :: Leak(s, a, d) ==> StatusOf(s, d) == Failed
  }

  lemma {:induction false} PropagationLeaksLess(s: State, failed: Id, a: Id, d: Id)
    requires Leak(PropagateFailure(s, failed), a, d)
    ensures Leak(s, a, d) && d != failed && StatusOf(PropagateFailure(s, failed), d) == StatusOf(s, d)
  {
    hide Reaches, DependsOn, PropagateFailure;
    FrontierIsExact(s, failed, a);
    FrontierIsExact(s, failed, d);
    if d == failed {
      DirectlyReaches(s.steps, failed, a);
    } else if Reaches(s.steps, failed, d) {
      ReachesFurther(s.steps, failed, d, a);
    }
  }

  ghost predicate IsSource(before: map<Id, StepStatus>, onlyFailed: bool, id: Id) {
    StatusIn(before, id) == Failed || (!onlyFailed && IsFailedDependency(StatusIn(before, id)))
  }

  lemma {:induction false} PropagationsLeakLess(s: State, ids: seq<Id>, before: map<Id, StepStatus>, onlyFailed: bool, a: Id, d: Id)
    requires Leak(PropagateFrom(s, ids, before, onlyFailed), a, d)
    ensures Leak(s, a, d) && StatusOf(PropagateFrom(s, ids, before, onlyFailed), d) == StatusOf(s, d)
    ensures d in ids ==> !IsSource(before, onlyFailed, d)
  {
    hide Leak, PropagateFailure;
    if ids == [] {
    } else {
      var id, rest := ids[|ids| - 1], PropagateFrom(s, ids[..|ids| - 1], before, onlyFailed);
      if IsSource(before, onlyFailed, id) {
        PropagationLeaksLess(rest, id, a, d);
      }
      PropagationsLeakLess(s, ids[..|ids| - 1], before, onlyFailed, a, d);
      assert d in ids <==> d == id || d in ids[..|ids| - 1];
    }
  }

  lemma {:induction false} InIdsOf(steps: Steps, id: Id)
    ensures id in IdsOf(steps) <==> id in Ids(steps)
  {
    if steps == [] {
    } else {
      InIdsOf(steps[1..], id);
      IdsSplit(steps);
    }
  }

  /** Propagating from every failed step leaves nothing waiting. */
  lemma {:induction false} FailuresPropagated(s: State)
    requires DependenciesExist(s.steps) && LeaksAtFailures(s)
    ensures NoLeak(PropagateFrom(s, IdsOf(s.steps), s.stepStatus, true))
  {
    hide Leak, PropagateFrom;
    var t := PropagateFrom(s, IdsOf(s.steps), s.stepStatus, true);
    forall a, d
      ensures !Leak(t, a, d)
    {
      if Leak(t, a, d) {
        PropagationsLeakLess(s, IdsOf(s.steps), s.stepStatus, true, a, d);
        LeakDependency(s, a, d);
        InIdsOf(s.steps, d);
      }
    }
  }

  lemma {:induction false} LeakDependency(s: State, a: Id, d: Id)
    requires DependenciesExist(s.steps) && Leak(s, a, d)
    ensures d in Ids(s.steps)
  {
  }

  // ----- unblocking

  lemma {:induction false} DependenciesAre(s: State, id: Id, d: Id)
    requires DistinctIds(s.steps) && DependsOn(s.steps, id, d)
    ensures d in DependenciesOf(s, id)
  {
    DependentIsStep(s.steps, id, d);
    FoundDependencies(s.steps, id);
  }

  lemma {:induction false} NoneFailed(s: State, dependencies: seq<Id>, d: Id)
    requires d in dependencies
    ensures IsFailedDependency(StatusOf(s, d)) ==> HasFailedDependency(s, dependencies)
  {
    var k :| 0 <= k < |dependencies| && dependencies[k] == d;
    assert IsFailedDependency(StatusOf(s, d)) ==> IsFailedDependency(StatusOf(s, dependencies[k]));
  }

  /** Only a step without a failed dependency is reopened. */
  lemma {:induction false} UnblockLeaksNothing(s: State, id: Id, a: Id, d: Id)
    requires DistinctIds(s.steps) && Leak(Unblock(s, id), a, d)
    ensures Leak(s, a, d)
  {
    hide DependsOn, DependenciesOf, DistinctIds, Without;
    if Unblockable(s, id) && a == id {
      DependenciesAre(s, id, d);
      NoneFailed(s, DependenciesOf(s, id), d);
    }
  }

  lemma {:induction false} UnblockEachLeaksNothing(s: State, ids: seq<Id>, a: Id, d: Id)
    requires DistinctIds(s.steps) && Leak(UnblockEach(s, ids), a, d)
    ensures Leak(s, a, d)
  {
    hide Leak, Unblock, Shift;
    if ids == [] {
    } else {
      var rest := UnblockEach(s, ids[..|ids| - 1]);
      UnblockEachKeepsSteps(s, ids[..|ids| - 1]);
      UnblockLeaksNothing(rest, ids[|ids| - 1], a, d);
      UnblockEachLeaksNothing(s, ids[..|ids| - 1], a, d);
    }
  }

  lemma {:induction false} UnblockEachKeepsSteps(s: State, ids: seq<Id>)
    ensures UnblockEach(s, ids).steps == s.steps
  {
    UnblockEachShifts(s, ids);
  }

  lemma {:induction false} UnblockFromLeaksNothing(s: State, ids: seq<Id>, now: map<Id, StepStatus>, before: map<Id, StepStatus>, a: Id, d: Id)
    requires DistinctIds(s.steps) && Leak(UnblockFrom(s, ids, now, before), a, d)
    ensures Leak(s, a, d)
  {
    hide Leak, UnblockEach;
    if ids == [] {
    } else {
      var id, rest := ids[|ids| - 1], UnblockFrom(s, ids[..|ids| - 1], now, before);
      UnblockFromShifts(s, ids[..|ids| - 1], now, before);
      if Leak(PropagateUnblock(rest, id), a, d) {
        UnblockEachLeaksNothing(rest, Downstream(rest.steps, id), a, d);
      }
      UnblockFromLeaksNothing(s, ids[..|ids| - 1], now, before, a, d);
    }
  }

  /** What a pass reopens has no dependency left that will not come, then and afterwards. */
  lemma {:induction false} ReopenedEach(s: State, ids: seq<Id>, id: Id, d: Id)
    requires DistinctIds(s.steps) && DependsOn(s.steps, id, d)
    requires StatusOf(UnblockEach(s, ids), id) != StatusOf(s, id)
    ensures !IsFailedDependency(StatusOf(UnblockEach(s, ids), d))
  {
    hide DependsOn, DependenciesOf, DistinctIds, Without, HasFailedDependency;
    if ids == [] {
    } else {
      var last, rest := ids[|ids| - 1], UnblockEach(s, ids[..|ids| - 1]);
      UnblockEachKeepsSteps(s, ids[..|ids| - 1]);
      if StatusOf(rest, id) != StatusOf(s, id) {
        ReopenedEach(s, ids[..|ids| - 1], id, d);
      } else {
        DependenciesAre(rest, id, d);
        NoneFailed(rest, DependenciesOf(rest, id), d);
      }
    }
  }

  /** What unblocking reopens was blocked, depends on the finished step, is taken off the
      processed steps, and has no dependency left that will not come. */
  lemma {:induction false} UnblockingIsSound(s: State, done: Id, id: Id)
    requires DistinctIds(s.steps)
    requires StatusOf(PropagateUnblock(s, done), id) != StatusOf(s, id)
    ensures StatusOf(s, id) == Blocked && StatusOf(PropagateUnblock(s, done), id) == Pending
    ensures Reaches(s.steps, done, id)
    ensures forall d :: DependsOn(s.steps, id, d) ==> !IsFailedDependency(StatusOf(PropagateUnblock(s, done), d))
    ensures id !in PropagateUnblock(s, done).processed
  {
    hide DependsOn, Reaches, Downstream, UnblockEach, DistinctIds;
    var ids := Downstream(s.steps, done);
    UnblockedEach(s, ids, id);
    DownstreamIsReachable(s.steps, done, id);
    forall d | DependsOn(s.steps, id, d)
      ensures !IsFailedDependency(StatusOf(PropagateUnblock(s, done), d))
    {
      ReopenedEach(s, ids, id, d);
    }
  }

  lemma {:induction false} UnblockedEach(s: State, ids: seq<Id>, id: Id)
    ensures var t := UnblockEach(s, ids);
      StatusOf(t, id) != StatusOf(s, id) ==>
        id in ids && StatusOf(s, id) == Blocked && StatusOf(t, id) == Pending && id !in t.processed
  {
    hide HasFailedDependency, DependenciesOf, Without;
    if ids == [] {
    } else {
      var last, rest := ids[|ids| - 1], UnblockEach(s, ids[..|ids| - 1]);
      UnblockedEach(s, ids[..|ids| - 1], id);
      WithoutIs(rest.processed, last, id);
    }
  }

  // ----- runs without consent

  ghost predicate NoConsent(steps: Steps) {
    forall k :: 0 <= k < |steps| ==> !steps[k].requireConsent
  }

  lemma {:induction false} ReadyNeedsNoConsent(s: State, step: Step)
    requires NoConsent(s.steps) && step in ReadySteps(s)
    ensures !step.requireConsent && IsOpen(StatusOf(s, step.id)) && step in s.steps
  {
    assert step in s.steps && IsReady(s, step);
  }

  lemma {:induction false} TurnLeaks(s: State, exec: Executor, one: bool)
    requires NoConsent(s.steps) && LeaksAtFailures(s)
    ensures LeaksAtFailures(TakeTurn(s, exec, one).state)
  {
    hide StepTurn, ReadyAmong, PropagateFrom, DependsOn;
    var t := TakeTurn(s, exec, one).state;
    if ReadySteps(s) == [] {
      NothingReadyLeaks(s);
    } else {
      var step := ReadySteps(s)[0];
      StepTurnFrame(s, step, exec, one);
      ReadyNeedsNoConsent(s, step);
      StepNotBlocked(s, step, exec, one);
      forall a, d | Leak(t, a, d)
        ensures StatusOf(t, d) == Failed
      {
        assert d != step.id ==> Leak(s, a, d);
      }
    }
  }

  lemma {:induction false} NothingReadyLeaks(s: State)
    requires LeaksAtFailures(s)
    ensures LeaksAtFailures(NothingReady(s))
  {
    hide PropagateFrom, DependsOn;
    var failed := s.(status := PlanFailed);
    forall a, d | Leak(NothingReady(s), a, d)
      ensures StatusOf(NothingReady(s), d) == Failed
    {
      if !AllFinal(s) && AllDependenciesFailed(s) {
        PropagationsLeakLess(failed, IdsOf(s.steps), s.stepStatus, false, a, d);
      }
      assert Leak(s, a, d);
    }
  }

  lemma {:induction false} StepNotBlocked(s: State, step: Step, exec: Executor, one: bool)
    requires !step.requireConsent
    ensures StatusOf(StepTurn(s, step, exec, one).state, step.id) != Blocked
    ensures StepTurn(s, step, exec, one).state.pausedReason == s.pausedReason
            || StepTurn(s, step, exec, one).state.pausedReason == Some(POST_VERIFICATION_FAILED)
  {
    hide Attempt, Conclude, Satisfy;
    AttemptFrame(s, step, exec, 0, one);
    ConcludeFrame(s, Attempt(s, step, exec, 0, one), step);
    ConcludeEnds(Attempt(s, step, exec, 0, one), step);
    SatisfyFrame(s, step.id, Skipped);
  }

  /** A plan that failed within a run failed at a failed step. */
  ghost predicate StopIsFailed(s: State) {
    s.status == PlanFailed && s.pausedStep.Some? ==> StatusOf(s, s.pausedStep.value) == Failed
  }

  /** No step is being asked about. */
  ghost predicate NotAsking(s: State) {
    !CanDecide(s)
  }

  lemma {:induction false} TurnStops(s: State, exec: Executor, one: bool)
    requires NoConsent(s.steps) && InLoop(s)
    ensures var t := TakeTurn(s, exec, one).state; StopIsFailed(t) && NotAsking(t)
    ensures TakeTurn(s, exec, one).Continue? ==> InLoop(TakeTurn(s, exec, one).state)
  {
    hide StepTurn, NothingReady, ReadyAmong;
    if ReadySteps(s) == [] {
      NothingReadyStops(s);
    } else {
      var step := ReadySteps(s)[0];
      ReadyNeedsNoConsent(s, step);
      StepTurnEnds(s, step, exec, one);
      StepNotBlocked(s, step, exec, one);
    }
  }

  lemma {:induction false} NothingReadyStops(s: State)
    requires InLoop(s)
    ensures NothingReady(s).pausedStep.None? && NotAsking(NothingReady(s))
  {
    hide AllFinal, AllDependenciesFailed, PropagateFrom;
    PropagateKeepsPause(s.(status := PlanFailed), IdsOf(s.steps), s.stepStatus, false);
  }

  lemma {:induction false} TurnKeepsSteps(s: State, exec: Executor, one: bool)
    ensures TakeTurn(s, exec, one).state.steps == s.steps
  {
    TurnKeepsChain(s, exec, one);
  }

  lemma {:induction false} LoopLeaks(s: State, exec: Executor, one: bool)
    requires NoConsent(s.steps) && LeaksAtFailures(s) && InLoop(s)
    ensures var t := Loop(s, exec, one); LeaksAtFailures(t) && StopIsFailed(t) && NotAsking(t) && t.steps == s.steps
    decreases OpenSteps(s)
  {
    hide TakeTurn, Loop, OpenSteps, LeaksAtFailures, StopIsFailed, NotAsking, NoConsent;
    LoopUnfold(s, exec, one);
    TurnLeaks(s, exec, one);
    TurnStops(s, exec, one);
    TurnKeepsSteps(s, exec, one);
    if TakeTurn(s, exec, one).Continue? {
      LoopLeaks(TakeTurn(s, exec, one).state, exec, one);
    }
  }

  /** What holds between the parts of a step without consent. */
  ghost predicate Quiet(s: State) {
    Core(s) && NoConsent(s.steps) && DependenciesExist(s.steps)
  }

  lemma {:induction false} RunLeaks(s: State, exec: Executor, one: bool)
    requires Quiet(s) && LeaksAtFailures(s) && !IsTerminal(s.status)
    ensures var t := RunUntilBlocked(s, exec, one);
      Quiet(t) && LeaksAtFailures(t) && StopIsFailed(t) && NotAsking(t) && StopIsUnsatisfied(t)
  {
    hide Loop, DependsOn, DistinctIds, StopIsFailed, NotAsking, Earned, LogSafe, StopIsUnsatisfied;
    RebuildChangesNothing(s);
    var begin := s.(status := PlanRunning, pausedReason := None, pausedStep := None);
    assert forall a, d :: Leak(begin, a, d) ==> Leak(s, a, d);
    LoopLeaks(begin, exec, one);
    RunFollows(s, exec, one);
  }

  /** A failed step had its dependencies, so trying it again leaves nothing waiting. */
  lemma {:induction false} ReopeningLeaksNothing(s: State, t: State, id: Id)
    requires Core(s) && StatusOf(s, id) == Failed && t.steps == s.steps && t.stepStatus == s.stepStatus[id := Pending]
    ensures forall a, d :: Leak(t, a, d) ==> Leak(s, a, d) && StatusOf(t, d) == StatusOf(s, d)
  {
    hide DependsOn, DistinctIds, Exact, LogSafe;
  }

  lemma {:induction false} AdvanceLeaks(s: State)
    requires Quiet(s) && LeaksAtFailures(s) && StopIsFailed(s) && StopIsUnsatisfied(s)
    requires s.status == PlanFailed && CanAdvance(s)
    ensures var t := Advance(s, FailedStep(s)).(status := PlanRunning); Quiet(t) && LeaksAtFailures(t)
  {
    hide Leak, Core, StopIsUnsatisfied;
    var t := Advance(s, FailedStep(s)).(status := PlanRunning);
    FirstFailedIs(s, s.steps);
    AdvanceFollows(s, PlanRunning);
    if FailedStep(s).Some? && FailedStep(s).value in s.stepStatus {
      ReopeningLeaksNothing(s, t, FailedStep(s).value);
    } else {
      SameStatusesLeak(s, t);
    }
  }

  lemma {:induction false} SameStatusesLeak(s: State, t: State)
    requires t.steps == s.steps && t.stepStatus == s.stepStatus
    ensures forall a, d :: Leak(t, a, d) <==> Leak(s, a, d)
    ensures forall id :: StatusOf(t, id) == StatusOf(s, id)
  {
    hide DependsOn;
  }

  lemma {:induction false} FallbackLeaks(s: State, exec: Executor)
    requires Quiet(s) && LeaksAtFailures(s) && StopIsFailed(s) && NotAsking(s) && StopIsUnsatisfied(s)
    ensures var t := FallbackLoop(s, exec); Quiet(t) && LeaksAtFailures(t) && NotAsking(t)
    decreases s.chain - s.chainIndex
  {
    hide Quiet, LeaksAtFailures, StopIsFailed, NotAsking, StopIsUnsatisfied, RunUntilBlocked, FailedStep;
    if s.status == PlanFailed && FailedStep(s).Some? && CanAdvance(s) {
      var again := Advance(s, FailedStep(s)).(status := PlanRunning);
      AdvanceLeaks(s);
      RunLeaks(again, exec, true);
      RunKeepsChain(again, exec, true);
      FallbackLeaks(RunUntilBlocked(again, exec, true), exec);
    }
  }

  // ----- the frontier over whole runs

  /** Nothing waits behind a failure and nothing is being asked. */
  ghost predicate Settled(s: State) {
    Quiet(s) && NoLeak(s) && NotAsking(s)
  }

  lemma {:induction false} NoLeakIsLess(s: State)
    requires NoLeak(s)
    ensures LeaksAtFailures(s)
  {
  }

  lemma {:induction false} SameStatusesSettled(s: State, t: State)
    requires Settled(s) && t == s.(status := t.status, verdict := t.verdict, pausedReason := t.pausedReason, pausedStep := t.pausedStep)
    requires NotAsking(t)
    ensures Settled(t)
  {
    hide Core, NotAsking, Leak;
    SameStatusesShift(s, t);
    ShiftFollows(s, t);
    SameStatusesLeak(s, t);
  }

  lemma {:induction false} ConsequencesSettled(ran: State, before: map<Id, StepStatus>)
    requires Quiet(ran) && LeaksAtFailures(ran) && NotAsking(ran)
    ensures var blocked := PropagateFrom(ran, IdsOf(ran.steps), ran.stepStatus, true);
      Settled(ConsentPause(Finalize(UnblockFrom(blocked, IdsOf(blocked.steps), blocked.stepStatus, before))))
  {
    hide Core, NotAsking, Leak, PropagateFrom, UnblockFrom, FinalVerdict, Shift;
    var blocked := PropagateFrom(ran, IdsOf(ran.steps), ran.stepStatus, true);
    PropagateShifts(ran, IdsOf(ran.steps), ran.stepStatus, true);
    ShiftFollows(ran, blocked);
    PropagateKeepsPause(ran, IdsOf(ran.steps), ran.stepStatus, true);
    FailuresPropagated(ran);
    var unblocked := UnblockFrom(blocked, IdsOf(blocked.steps), blocked.stepStatus, before);
    UnblockFromShifts(blocked, IdsOf(blocked.steps), blocked.stepStatus, before);
    ShiftFollows(blocked, unblocked);
    UnblockFromKeepsPause(blocked, IdsOf(blocked.steps), blocked.stepStatus, before);
    CoreIsDistinct(blocked);
    forall a, d
      ensures !Leak(unblocked, a, d)
    {
      if Leak(unblocked, a, d) {
        UnblockFromLeaksNothing(blocked, IdsOf(blocked.steps), blocked.stepStatus, before, a, d);
      }
    }
    PauseAsks(ran, unblocked);
    SameStatusesSettled(unblocked, ConsentPause(Finalize(unblocked)));
  }

  lemma {:induction false} CoreIsDistinct(s: State)
    requires Core(s)
    ensures DistinctIds(s.steps)
  {
  }

  lemma {:induction false} PauseAsks(s: State, t: State)
    requires NotAsking(s) && t.pausedReason == s.pausedReason && t.pausedStep == s.pausedStep
    ensures NotAsking(t) && NotAsking(ConsentPause(Finalize(t))) && NotAsking(Finalize(t)) && NotAsking(Reopened(t))
  {
    hide FinalVerdict;
  }

  lemma {:induction false} ScheduledSettled(s: State, exec: Executor)
    requires Settled(s) && !IsTerminal(s.status)
    ensures Settled(ExecuteScheduled(s, exec))
  {
    hide Quiet, LeaksAtFailures, NoLeak, StopIsFailed, NotAsking, RunUntilBlocked, FallbackLoop, PropagateFrom, UnblockFrom,
      Finalize, ConsentPause, StopIsUnsatisfied;
    NoLeakIsLess(s);
    RunLeaks(s, exec, true);
    var first := RunUntilBlocked(s, exec, true);
    FallbackLeaks(first, exec);
    ConsequencesSettled(FallbackLoop(first, exec), s.stepStatus);
  }

  lemma {:induction false} NextSettled(s: State, exec: Executor)
    requires Settled(s)
    ensures Settled(ExecuteNext(s, exec, false))
  {
    hide Settled, NotAsking, ExecuteScheduled, FinalVerdict;
    SettledIs(s);
    PauseAsks(s, s);
    SameStatusesSettled(s, Reopened(s));
    SameStatusesSettled(s, Finalize(s));
    if s.status != PlanDone && s.status != PlanCancelled {
      ReopenedRuns(s);
      ScheduledSettled(Reopened(s), exec);
    }
  }

  lemma {:induction false} SettledIs(s: State)
    requires Settled(s)
    ensures Quiet(s) && NoLeak(s) && NotAsking(s) && Core(s)
  {
  }

  lemma {:induction false} RetrySettled(s: State, id: Id)
    requires Settled(s) && CanRetry(s, id)
    ensures Settled(Retry(s, id))
  {
    hide Core, Leak, Without, Follows;
    forall x
      ensures x in Without(s.processed, id) <==> x in s.processed && x != id
    {
      WithoutIs(s.processed, id, x);
    }
    MoveShifts(s, Retry(s, id), id, Pending);
    ShiftFollows(s, Retry(s, id));
    FollowsIs(s, Retry(s, id));
    ReopeningLeaksNothing(s, Retry(s, id), id);
  }

  lemma {:induction false} FollowsIs(s: State, t: State)
    requires Follows(s, t)
    ensures t.steps == s.steps && Core(t)
  {
  }

  /** Everything a caller may do except running the plan to its end, past a closed gate. */
  predicate IsStepwise(op: Operation) {
    match op
    case ExecuteNextStep(_, gateRefuses) => !gateRefuses
    case ResumePlan(_, _) => false
    case _ => true
  }

  lemma {:induction false} CancelledEach(s: State, ids: seq<Id>, id: Id)
    ensures var t := CancelEach(s, ids);
      StatusOf(t, id) == if id in ids && !IsFinal(StatusOf(s, id)) then Cancelled else StatusOf(s, id)
  {
    if ids == [] {
    } else {
      CancelledEach(s, ids[..|ids| - 1], id);
      CancelledEach(s, ids[..|ids| - 1], ids[|ids| - 1]);
      assert id in ids <==> id == ids[|ids| - 1] || id in ids[..|ids| - 1];
    }
  }

  lemma {:induction false} CancelSettled(s: State)
    requires Settled(s)
    ensures Settled(Cancel(s))
  {
    hide Core, Shift, CancelEach;
    var t := s.(status := PlanCancelled);
    SameStatusesShift(s, t);
    CancelEachShifts(t, IdsOf(s.steps));
    CancelEachKeepsPause(t, IdsOf(s.steps));
    ShiftOn(s, t, Cancel(s));
    ShiftFollows(s, Cancel(s));
    forall a, d
      ensures !Leak(Cancel(s), a, d)
    {
      if Leak(Cancel(s), a, d) {
        CancelledEach(t, IdsOf(s.steps), a);
        DependentIsStep(s.steps, a, d);
        InIdsOf(s.steps, a);
      }
    }
  }

  lemma {:induction false} OperationSettled(s: State, op: Operation)
    requires Settled(s) && IsStepwise(op)
    ensures Settled(Apply(s, op))
  {
    hide Settled, ExecuteNext, Retry, Cancel, CanRetry, NotAsking;
    SettledIs(s);
    match op {
      case ExecuteNextStep(exec, _) => NextSettled(s, exec);
      case RetryStep(id) => if CanRetry(s, id) { RetrySettled(s, id); }
      case ResumePlan(_, _) =>
      case PausePlan(reason) => PauseSettled(s, reason);
      case CancelPlan => CancelSettled(s);
      case DecideConsent(_) => assert !CanDecide(s) by { AsksNothing(s); }
      case SaveAndLoad => SnapshotChangesNothing(s);
    }
  }

  lemma {:induction false} AsksNothing(s: State)
    requires NotAsking(s)
    ensures !CanDecide(s)
  {
  }

  lemma {:induction false} PauseSettled(s: State, reason: string)
    requires Settled(s)
    ensures Settled(Pause(s, reason))
  {
    hide Settled;
    SettledIs(s);
    SameStatusesSettled(s, Pause(s, reason));
  }

  lemma {:induction false} RunsSettled(s: State, ops: seq<Operation>)
    requires Settled(s) && forall k :: 0 <= k < |ops| ==> IsStepwise(ops[k])
    ensures Settled(ApplyAll(s, ops))
  {
    hide Settled, Apply, IsStepwise;
    if ops == [] {
    } else {
      RunsSettled(s, ops[..|ops| - 1]);
      OperationSettled(ApplyAll(s, ops[..|ops| - 1]), ops[|ops| - 1]);
    }
  }

  lemma {:induction false} CreatedIsSettled(steps: Steps, truths: set<string>, chain: nat)
    requires DistinctIds(steps) && DependenciesExist(steps) && NoConsent(steps)
    ensures Settled(Create(steps, truths, chain))
  {
    hide Core, DependsOn, DependenciesExist, DistinctIds;
    CreatedIsSafe(steps, truths, chain);
    assert forall id :: StatusOf(Create(steps, truths, chain), id) == Pending;
  }

  /** Without consent steps, whatever is done step by step to a valid plan: no step waits for a
      dependency that failed, is blocked or was cancelled. */
  lemma {:induction false} NothingWaitsForAFailure(steps: Steps, truths: set<string>, chain: nat, ops: seq<Operation>, a: Id, d: Id)
    requires DistinctIds(steps) && DependenciesExist(steps) && NoConsent(steps)
    requires forall k :: 0 <= k < |ops| ==> IsStepwise(ops[k])
    requires DependsOn(steps, a, d)
    ensures var end := ApplyAll(Create(steps, truths, chain), ops);
      IsOpen(StatusOf(end, a)) ==> !IsFailedDependency(StatusOf(end, d))
  {
    hide ApplyAll, Core, DependsOn, DependenciesExist;
    var s := Create(steps, truths, chain);
    CreatedIsSettled(steps, truths, chain);
    RunsSettled(s, ops);
    CreatedIsSafe(steps, truths, chain);
    RunsSafely(s, ops);
    assert !Leak(ApplyAll(s, ops), a, d);
  }
}
