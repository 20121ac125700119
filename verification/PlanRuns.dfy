/** Every operation on a plan, every sequence of them, and what no such sequence breaks. */
module PlanRuns {
  import opened PlanDag
  import opened PlanWalk
  import opened PlanState
  import opened PlanSafety
  import opened PlanSnapshot

  /** Saving and loading may happen at any point. */
  datatype Operation =
    | ExecuteNextStep(exec: Executor, gateRefuses: bool)
    | RetryStep(id: Id)
    | ResumePlan(granted: Option<bool>, exec: Executor)
    | PausePlan(reason: string)
    | CancelPlan
    | DecideConsent(allowed: bool)
    | SaveAndLoad

  /** An operation that raises leaves the stored plan as it was. */
  ghost function Apply(s: State, op: Operation): State {
    match op
    case ExecuteNextStep(exec, gateRefuses) => ExecuteNext(s, exec, gateRefuses)
    case RetryStep(id) => if CanRetry(s, id) then Retry(s, id) else s
    case ResumePlan(granted, exec) => if IsTerminal(s.status) then s else Resume(s, granted, exec)
    case PausePlan(reason) => Pause(s, reason)
    case CancelPlan => Cancel(s)
    case DecideConsent(allowed) => if CanDecide(s) then Decide(s, allowed) else s
    case SaveAndLoad => match Deserialize(Serialize(s)) case Some(t) => t case None => s
  }

  ghost function ApplyAll(s: State, ops: seq<Operation>): State {
    if ops == [] then s else Apply(ApplyAll(s, ops[..|ops| - 1]), ops[|ops| - 1])
  }

  /** A step that waits for consent is not satisfied. */
  ghost predicate Held(s: State) {
    s.pausedReason == Some(WAITING_CONSENT) && s.pausedStep.Some? ==> !IsSatisfied(StatusOf(s, s.pausedStep.value))
  }

  /** `t` continues `s` safely. */
  ghost predicate Safely(s: State, t: State) {
    Follows(s, t) && Held(t)
  }

  lemma {:induction false} ShiftSafely(s: State, t: State)
    requires Core(s) && Held(s) && Shift(s, t)
    requires t.pausedReason == s.pausedReason && t.pausedStep == s.pausedStep
    ensures Safely(s, t)
  {
    hide Core;
    ShiftFollows(s, t);
  }

  lemma {:induction false} SameStatusesShift(s: State, t: State)
    requires t == s.(status := t.status, verdict := t.verdict, pausedReason := t.pausedReason, pausedStep := t.pausedStep,
                     chainIndex := t.chainIndex, routed := t.routed)
    ensures Shift(s, t)
  {
  }

  // ----- the fallback chain

  lemma {:induction false} FirstFailedIs(s: State, steps: Steps)
    ensures FirstFailed(s, steps).Some? ==> StatusOf(s, FirstFailed(s, steps).value) == Failed
  {
    if steps == [] {
    } else {
      FirstFailedIs(s, steps[1..]);
    }
  }

  lemma {:induction false} AdvanceFollows(s: State, status: PlanStatus)
    requires Core(s) && StopIsUnsatisfied(s) && s.status == PlanFailed && CanAdvance(s)
    ensures Follows(s, Advance(s, FailedStep(s)).(status := status))
  {
    hide Core;
    FirstFailedIs(s, s.steps);
    var id := FailedStep(s);
    var t := Advance(s, id).(status := status);
    if id.Some? && id.value in s.stepStatus {
      MoveShifts(s, t, id.value, Pending);
    } else {
      SameStatusesShift(s, t);
    }
    ShiftFollows(s, t);
  }

  lemma {:induction false} FallbackFollows(s: State, exec: Executor)
    requires Core(s) && StopIsUnsatisfied(s)
    ensures Follows(s, FallbackLoop(s, exec)) && StopIsUnsatisfied(FallbackLoop(s, exec))
    decreases s.chain - s.chainIndex
  {
    hide Core, StopIsUnsatisfied, RunUntilBlocked, FirstFailed;
    if s.status != PlanFailed || FailedStep(s).None? || !CanAdvance(s) {
      ShiftSame(s);
      ShiftFollows(s, s);
    } else {
      var again := Advance(s, FailedStep(s)).(status := PlanRunning);
      AdvanceFollows(s, PlanRunning);
      RunFollows(again, exec, true);
      RunKeepsChain(again, exec, true);
      var ran := RunUntilBlocked(again, exec, true);
      FallbackFollows(ran, exec);
      FollowsOn(s, again, ran);
      FollowsOn(s, ran, FallbackLoop(ran, exec));
    }
  }

  // ----- one operation

  lemma {:induction false} FinalizeSafely(s: State)
    requires Core(s) && Held(s)
    ensures Safely(s, Finalize(s)) && Safely(s, Reopened(s)) && Safely(s, ConsentPause(s))
  {
    hide Core, Held, FinalVerdict;
    SameStatusesShift(s, Finalize(s));
    ShiftSafely(s, Finalize(s));
    SameStatusesShift(s, Reopened(s));
    ShiftSafely(s, Reopened(s));
    SameStatusesShift(s, ConsentPause(s));
    ShiftSafely(s, ConsentPause(s));
  }

  lemma {:induction false} SafelyOn(s: State, t: State, u: State)
    requires Safely(s, t) && Safely(t, u)
    ensures Safely(s, u)
  {
    hide Follows, Held;
    FollowsOn(s, t, u);
  }

  lemma {:induction false} SafelyIs(s: State, t: State)
    requires Safely(s, t)
    ensures Core(t) && Held(t)
  {
  }

  lemma {:induction false} StopHeld(s: State)
    requires StopIsUnsatisfied(s)
    ensures Held(s)
  {
  }

  /** Marking the consequences of a run. */
  lemma {:induction false} ConsequencesSafely(ran: State, before: map<Id, StepStatus>)
    requires Core(ran) && Held(ran)
    ensures var blocked := PropagateFrom(ran, IdsOf(ran.steps), ran.stepStatus, true);
      Safely(ran, ConsentPause(Finalize(UnblockFrom(blocked, IdsOf(blocked.steps), blocked.stepStatus, before))))
  {
    hide Core, Held, PropagateFrom, UnblockFrom, Shift, Finalize, ConsentPause, Safely;
    var blocked := PropagateFrom(ran, IdsOf(ran.steps), ran.stepStatus, true);
    PropagateShifts(ran, IdsOf(ran.steps), ran.stepStatus, true);
    PropagateKeepsPause(ran, IdsOf(ran.steps), ran.stepStatus, true);
    ShiftSafely(ran, blocked);
    SafelyIs(ran, blocked);
    var unblocked := UnblockFrom(blocked, IdsOf(blocked.steps), blocked.stepStatus, before);
    UnblockFromShifts(blocked, IdsOf(blocked.steps), blocked.stepStatus, before);
    UnblockFromKeepsPause(blocked, IdsOf(blocked.steps), blocked.stepStatus, before);
    ShiftSafely(blocked, unblocked);
    SafelyIs(blocked, unblocked);
    FinalizeSafely(unblocked);
    SafelyIs(unblocked, Finalize(unblocked));
    FinalizeSafely(Finalize(unblocked));
    SafelyOn(ran, blocked, unblocked);
    SafelyOn(ran, unblocked, Finalize(unblocked));
    SafelyOn(ran, Finalize(unblocked), ConsentPause(Finalize(unblocked)));
  }

  lemma {:induction false} ScheduledSafely(s: State, exec: Executor)
    requires Core(s) && Held(s) && !IsTerminal(s.status)
    ensures Safely(s, ExecuteScheduled(s, exec))
  {
    hide Core, Held, RunUntilBlocked, FallbackLoop, PropagateFrom, UnblockFrom, Finalize, ConsentPause, StopIsUnsatisfied;
    var first := RunUntilBlocked(s, exec, true);
    var ran := FallbackLoop(first, exec);
    RunFollows(s, exec, true);
    FallbackFollows(first, exec);
    StopHeld(ran);
    ConsequencesSafely(ran, s.stepStatus);
    FollowsOn(s, first, ran);
    FollowsOn(s, ran, ExecuteScheduled(s, exec));
  }

  lemma {:induction false} GateSafely(s: State, id: Id)
    requires Core(s) && Held(s) && !IsSatisfied(StatusOf(s, id))
    ensures Safely(s, GateBlock(s, id))
  {
    hide Core;
    MoveShifts(s, GateBlock(s, id), id, Blocked);
    ShiftFollows(s, GateBlock(s, id));
  }

  lemma {:induction false} NextSafely(s: State, exec: Executor, gateRefuses: bool)
    requires Core(s) && Held(s)
    ensures Safely(s, ExecuteNext(s, exec, gateRefuses))
  {
    hide Core, Held, Shift, Safely, ExecuteScheduled, GateBlock, Finalize, Reopened, ReadyAmong, FinalVerdict;
    ShiftSame(s);
    ShiftSafely(s, s);
    FinalizeSafely(s);
    var r := Reopened(s);
    ReopenedRuns(s);
    SafelyIs(s, r);
    if s.status != PlanDone && s.status != PlanCancelled {
      ScheduledSafely(r, exec);
      SafelyOn(s, r, ExecuteScheduled(r, exec));
      if ReadySteps(r) != [] {
        var step := ReadySteps(r)[0];
        assert step in ReadySteps(r) && IsReady(r, step);
        GateSafely(r, step.id);
        SafelyOn(s, r, GateBlock(r, step.id));
      }
    }
  }

  lemma {:induction false} ReopenedRuns(s: State)
    ensures s.status != PlanDone && s.status != PlanCancelled ==> !IsTerminal(Reopened(s).status)
  {
  }

  lemma {:induction false} RetrySafely(s: State, id: Id)
    requires Core(s) && Held(s) && CanRetry(s, id)
    ensures Safely(s, Retry(s, id))
  {
    hide Core, Without;
    forall x
      ensures x in Without(s.processed, id) <==> x in s.processed && x != id
    {
      WithoutIs(s.processed, id, x);
    }
    MoveShifts(s, Retry(s, id), id, Pending);
    ShiftFollows(s, Retry(s, id));
  }

  /** `_run` on a plan that may run. */
  lemma {:induction false} RunSafely(s: State, exec: Executor)
    requires Core(s) && Held(s) && !IsTerminal(s.status)
    ensures Safely(s, Run(s, exec))
    decreases if s.routed then 0 else 1, s.chain - s.chainIndex
  {
    hide Core, Held, RunUntilBlocked, Settle, FailedStep, StopIsUnsatisfied, Shift;
    if s.steps == [] {
      SameStatusesShift(s, Run(s, exec));
      ShiftSafely(s, Run(s, exec));
    } else {
      var r := Routed(s);
      var ran := RunUntilBlocked(r, exec, false);
      SameStatusesShift(s, r);
      ShiftFollows(s, r);
      RunFollows(r, exec, false);
      RunKeepsChain(r, exec, false);
      FollowsOn(s, r, ran);
      StopHeld(ran);
      if ran.status == PlanFailed && CanAdvance(ran) {
        var again := Advance(ran, FailedStep(ran)).(status := PlanRunning);
        AdvanceFollows(ran, PlanRunning);
        AdvanceHolds(ran);
        FollowsOn(s, ran, again);
        RunSafely(again, exec);
        FollowsOn(s, again, Run(again, exec));
      } else {
        SettleSafely(ran);
        FollowsOn(s, ran, Settle(ran));
      }
    }
  }

  lemma {:induction false} AdvanceHolds(s: State)
    requires Core(s) && StopIsUnsatisfied(s) && s.status == PlanFailed && CanAdvance(s)
    ensures Held(Advance(s, FailedStep(s)).(status := PlanRunning))
  {
    FirstFailedIs(s, s.steps);
  }

  lemma {:induction false} SettleSafely(s: State)
    requires Core(s) && Held(s)
    ensures Safely(s, Settle(s))
  {
    hide Core, Held, FinalVerdict, Finalize, Reopened;
    FinalizeSafely(s);
  }

  lemma {:induction false} RefuseSafely(s: State, id: Id)
    requires Core(s) && Held(s) && !IsSatisfied(StatusOf(s, id))
    ensures Safely(s, Refuse(s, id))
  {
    hide Core;
    MoveShifts(s, Refuse(s, id), id, Cancelled);
    ShiftFollows(s, Refuse(s, id));
  }

  lemma {:induction false} GrantSafely(s: State, id: Id, status: PlanStatus)
    requires Core(s) && Held(s) && !IsSatisfied(StatusOf(s, id))
    ensures Safely(s, SetStatus(s, id, Ready).(pausedReason := None, pausedStep := None, status := status))
  {
    hide Core;
    var t := SetStatus(s, id, Ready).(pausedReason := None, pausedStep := None, status := status);
    MoveShifts(s, t, id, Ready);
    ShiftFollows(s, t);
  }

  lemma {:induction false} ResumeSafely(s: State, granted: Option<bool>, exec: Executor)
    requires Core(s) && Held(s) && !IsTerminal(s.status)
    ensures Safely(s, Resume(s, granted, exec))
  {
    hide Core, Run, Safely, Refuse;
    match (WaitsForConsent(s), granted) {
      case (Some(id), Some(true)) =>
        var t := SetStatus(s, id, Ready).(pausedReason := None, pausedStep := None);
        assert t == t.(status := s.status);
        GrantSafely(s, id, s.status);
        SafelyIs(s, t);
        RunSafely(t, exec);
        SafelyOn(s, t, Run(t, exec));
      case (Some(id), Some(false)) =>
        RefuseSafely(s, id);
      case _ =>
        RunSafely(s, exec);
    }
  }

  lemma {:induction false} PauseSafely(s: State, text: string)
    requires Core(s) && Held(s)
    ensures Safely(s, Pause(s, text))
  {
    hide Core;
    SameStatusesShift(s, Pause(s, text));
    ShiftFollows(s, Pause(s, text));
  }

  lemma {:induction false} CancelSafely(s: State)
    requires Core(s) && Held(s)
    ensures Safely(s, Cancel(s))
  {
    hide Core, Held, Shift, CancelEach;
    var t := s.(status := PlanCancelled);
    SameStatusesShift(s, t);
    CancelEachShifts(t, IdsOf(s.steps));
    CancelEachKeepsPause(t, IdsOf(s.steps));
    ShiftOn(s, t, Cancel(s));
    ShiftSafely(s, Cancel(s));
  }

  lemma {:induction false} DecideSafely(s: State, allowed: bool)
    requires Core(s) && Held(s) && CanDecide(s)
    ensures Safely(s, Decide(s, allowed))
  {
    hide Core;
    GrantSafely(s, s.pausedStep.value, PlanRunning);
    RefuseSafely(s, s.pausedStep.value);
  }

  /** Every operation continues a plan safely. */
  lemma {:induction false} OperationSafely(s: State, op: Operation)
    requires Core(s) && Held(s)
    ensures Safely(s, Apply(s, op))
  {
    hide Core, Held, Safely, ExecuteNext, Retry, Resume, Pause, Cancel, Decide, CanRetry, CanDecide;
    ShiftSame(s);
    ShiftSafely(s, s);
    match op {
      case ExecuteNextStep(exec, gateRefuses) => NextSafely(s, exec, gateRefuses);
      case RetryStep(id) => if CanRetry(s, id) { RetrySafely(s, id); }
      case ResumePlan(granted, exec) => if !IsTerminal(s.status) { ResumeSafely(s, granted, exec); }
      case PausePlan(reason) => PauseSafely(s, reason);
      case CancelPlan => CancelSafely(s);
      case DecideConsent(allowed) => if CanDecide(s) { DecideSafely(s, allowed); }
      case SaveAndLoad => SnapshotChangesNothing(s);
    }
  }

  lemma {:induction false} SnapshotChangesNothing(s: State)
    requires Core(s)
    ensures Deserialize(Serialize(s)) == Some(s)
  {
    hide Serialize, Deserialize, Earned, LogSafe;
    RestoredIsRebuilt(s);
    RebuildChangesNothing(s);
  }

  // ----- whole runs

  lemma {:induction false} RunsSafely(s: State, ops: seq<Operation>)
    requires Core(s) && Held(s)
    ensures Safely(s, ApplyAll(s, ops))
  {
    hide Core, Held, Safely, Apply;
    if ops == [] {
      ShiftSame(s);
      ShiftSafely(s, s);
    } else {
      var before := ApplyAll(s, ops[..|ops| - 1]);
      RunsSafely(s, ops[..|ops| - 1]);
      SafelyIs(s, before);
      OperationSafely(before, ops[|ops| - 1]);
      SafelyOn(s, before, ApplyAll(s, ops));
    }
  }

  lemma {:induction false} CreatedIsSafe(steps: Steps, truths: set<string>, chain: nat)
    requires DistinctIds(steps)
    ensures Core(Create(steps, truths, chain)) && Held(Create(steps, truths, chain))
  {
    hide DependsOn;
    var s := Create(steps, truths, chain);
    assert forall id :: StatusOf(s, id) == Pending;
  }

  /** Whatever is done to a plan and whatever the executor does: it was only ever called for
      steps all of whose dependencies were done, skipped or degraded, and they still are. */
  lemma {:induction false} DependenciesAlwaysSatisfied(steps: Steps, truths: set<string>, chain: nat, ops: seq<Operation>, k: nat, d: Id)
    requires DistinctIds(steps)
    requires k < |ApplyAll(Create(steps, truths, chain), ops).log|
    requires DependsOn(steps, ApplyAll(Create(steps, truths, chain), ops).log[k].id, d)
    ensures var end := ApplyAll(Create(steps, truths, chain), ops);
      IsSatisfied(StatusIn(end.log[k].statuses, d)) && StatusOf(end, d) == StatusIn(end.log[k].statuses, d)
  {
    hide DependsOn, ApplyAll;
    var s := Create(steps, truths, chain);
    CreatedIsSafe(steps, truths, chain);
    RunsSafely(s, ops);
    var end := ApplyAll(s, ops);
    assert CallSafe(end.steps, end.log[k], end.stepStatus);
  }

  lemma {:induction false} ApplyAllJoins(s: State, ops: seq<Operation>, more: seq<Operation>)
    ensures ApplyAll(s, ops + more) == ApplyAll(ApplyAll(s, ops), more)
    decreases |more|
  {
    hide Apply;
    if more == [] {
      assert ops + more == ops;
    } else {
      ApplyAllJoins(s, ops, more[..|more| - 1]);
      assert (ops + more)[..|ops + more| - 1] == ops + more[..|more| - 1];
    }
  }

  /** A status that satisfies dependents is never left again. */
  lemma {:induction false} SatisfiedForever(steps: Steps, truths: set<string>, chain: nat, ops: seq<Operation>, more: seq<Operation>, id: Id)
    requires DistinctIds(steps)
    requires IsSatisfied(StatusOf(ApplyAll(Create(steps, truths, chain), ops), id))
    ensures StatusOf(ApplyAll(Create(steps, truths, chain), ops + more), id) ==
            StatusOf(ApplyAll(Create(steps, truths, chain), ops), id)
  {
    hide ApplyAll, Core, Held;
    var s := Create(steps, truths, chain);
    CreatedIsSafe(steps, truths, chain);
    RunsSafely(s, ops);
    SafelyIs(s, ApplyAll(s, ops));
    RunsSafely(ApplyAll(s, ops), more);
    ApplyAllJoins(s, ops, more);
  }

  /** At any point the cached set is exact, so saving and loading there changes nothing that
      is done afterwards. */
  lemma {:induction false} SavingIsInvisible(steps: Steps, truths: set<string>, chain: nat, ops: seq<Operation>, more: seq<Operation>)
    requires DistinctIds(steps)
    ensures var s := Create(steps, truths, chain);
      && ApplyAll(s, ops).satisfied == SatisfiedSet(ApplyAll(s, ops).processed, ApplyAll(s, ops).stepStatus)
      && ApplyAll(s, ops + [SaveAndLoad] + more) == ApplyAll(s, ops + more)
  {
    hide ApplyAll, Core, Held, Serialize, Deserialize, SatisfiedSet;
    var s := Create(steps, truths, chain);
    var mid := ApplyAll(s, ops);
    CreatedIsSafe(steps, truths, chain);
    RunsSafely(s, ops);
    SafelyIs(s, mid);
    SnapshotChangesNothing(mid);
    RoundTripIff(mid);
    ApplyOne(mid, SaveAndLoad);
    ApplyAllJoins(s, ops, [SaveAndLoad]);
    ApplyAllJoins(s, ops + [SaveAndLoad], more);
    ApplyAllJoins(s, ops, more);
  }

  lemma {:induction false} ApplyOne(s: State, op: Operation)
    ensures ApplyAll(s, [op]) == Apply(s, op)
  {
    hide Apply;
    assert [op][..0] == [];
    assert ApplyAll(s, []) == s;
  }

  // ----- retries

  function Max(a: int, b: int): int {
    if a > b then a else b
  }

  /** How often the executor is called for one step: until it returns or fails for good, and at
      most `retry_max` times, but once when that is zero. A negative `retry_max` calls it never
      and fails. */
  lemma {:induction false} AttemptsAre(s: State, step: Step, exec: Executor, attempts: nat, quality: bool)
    requires attempts == 0 || attempts < step.retryMax
    ensures var a := Attempt(s, step, exec, attempts, quality); var calls := |a.state.log| - |s.log|;
      && (step.retryMax < 0 ==> calls == 0 && a.result.None?)
      && (step.retryMax >= 0 ==> 1 <= calls <= Max(1, step.retryMax - attempts))
      && (forall n :: |s.log| <= n < |a.state.log| - 1 ==> Fails(exec, n))
      && (calls > 0 ==>
            var last := exec(|a.state.log| - 1);
            && (last.Returned? ==> a.result == Some(last.truthy))
            && (last.Raised? ==> a.result.None?)
            && (Fails(exec, |a.state.log| - 1) ==> calls == Max(1, step.retryMax - attempts)))
    decreases step.retryMax - attempts
  {
    hide Invoked;
    if attempts <= step.retryMax {
      var running := Invoked(s, step.id);
      InvokedLog(s, step.id);
      match exec(|s.log|) {
        case Returned(_, _) =>
        case Raised(kind, truths) =>
          var raised := AfterError(running.(truths := truths), step.id, kind, quality);
          if attempts + 1 < step.retryMax && kind == Retryable {
            AttemptsAre(raised, step, exec, attempts + 1, quality);
          }
      }
    }
  }

  /** The nth call fails in a way that allows another try. */
  ghost predicate Fails(exec: Executor, n: nat) {
    exec(n).Raised? && exec(n).kind == Retryable
  }

  lemma {:induction false} InvokedLog(s: State, id: Id)
    ensures |Invoked(s, id).log| == |s.log| + 1
  {
  }

  /** Following the fallback chain raises the index, never past the end of the chain. */
  lemma {:induction false} FallbackBounded(s: State, exec: Executor)
    ensures var t := FallbackLoop(s, exec);
      t.chain == s.chain && s.chainIndex <= t.chainIndex && (t.chainIndex != s.chainIndex ==> t.chainIndex < t.chain)
    decreases s.chain - s.chainIndex
  {
    hide RunUntilBlocked, FailedStep;
    if s.status == PlanFailed && FailedStep(s).Some? && CanAdvance(s) {
      var again := Advance(s, FailedStep(s)).(status := PlanRunning);
      RunKeepsChain(again, exec, true);
      FallbackBounded(RunUntilBlocked(again, exec, true), exec);
    }
  }
}
