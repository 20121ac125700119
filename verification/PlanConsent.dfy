/** Consent: a step that asks for it is never called before it is granted, and a grant serves one
    execution. */
module PlanConsent {
  import opened PlanDag
  import opened PlanWalk
  import opened PlanState
  import opened PlanSafety
  import opened PlanSnapshot
  import opened PlanRuns
  import PlanProgress

  /** The step asks for consent. */
  ghost predicate NeedsConsent(steps: Steps, id: Id) {
    exists i :: 0 <= i < |steps| && steps[i].id == id && steps[i].requireConsent
  }

  /** The operation grants this step, for which the plan is waiting. */
  predicate Grants(s: State, op: Operation, id: Id) {
    match op
    case ResumePlan(granted, _) =>
      granted == Some(true) && s.status == PlanPaused && s.pausedReason == Some("waiting_consent") && s.pausedStep == Some(id)
    case DecideConsent(allowed) => allowed && s.pausedReason == Some("waiting_consent") && s.pausedStep == Some(id)
    case _ => false
  }

  predicate Refuses(s: State, op: Operation, id: Id) {
    match op
    case ResumePlan(granted, _) =>
      granted == Some(false) && s.status == PlanPaused && s.pausedReason == Some("waiting_consent") && s.pausedStep == Some(id)
    case DecideConsent(allowed) => !allowed && s.pausedReason == Some("waiting_consent") && s.pausedStep == Some(id)
    case _ => false
  }

  // ----- what a change does with a grant

  /** Between the two states the executor was called for the step. */
  ghost predicate Calls(s: State, t: State, id: Id) {
    exists k :: |s.log| <= k < |t.log| && t.log[k].id == id
  }

  /** Only a granted step is called, none is granted anew, and a grant that is left was not used. */
  ghost predicate Spends(s: State, t: State, id: Id) {
    && t.steps == s.steps && s.log <= t.log
    && (Calls(s, t, id) ==> StatusOf(s, id) == Ready)
    && (StatusOf(t, id) == Ready ==> StatusOf(s, id) == Ready && !Calls(s, t, id))
  }

  /** Nothing is called and nothing granted. */
  ghost predicate Quiet(s: State, t: State) {
    && t.steps == s.steps && t.log == s.log
    && forall id :: StatusOf(t, id) == Ready ==> StatusOf(s, id) == Ready
  }

  lemma {:induction false} CallsOn(s: State, t: State, u: State, id: Id)
    requires s.log <= t.log && t.log <= u.log
    ensures Calls(s, u, id) <==> Calls(s, t, id) || Calls(t, u, id)
  {
    if Calls(s, u, id) {
      var k :| |s.log| <= k < |u.log| && u.log[k].id == id;
      assert k < |t.log| ==> t.log[k] == u.log[k];
    }
    if Calls(s, t, id) {
      var k :| |s.log| <= k < |t.log| && t.log[k].id == id;
      assert u.log[k] == t.log[k];
    }
    if Calls(t, u, id) {
      var k :| |t.log| <= k < |u.log| && u.log[k].id == id;
      assert |s.log| <= k;
    }
  }

  lemma {:induction false} SpendsOn(s: State, t: State, u: State, id: Id)
    requires Spends(s, t, id) && Spends(t, u, id)
    ensures Spends(s, u, id)
  {
    hide Calls;
    CallsOn(s, t, u, id);
  }

  lemma {:induction false} QuietSpends(s: State, t: State, id: Id)
    requires Quiet(s, t)
    ensures Spends(s, t, id)
  {
  }

  lemma {:induction false} QuietOn(s: State, t: State, u: State)
    requires Quiet(s, t) && Quiet(t, u)
    ensures Quiet(s, u)
  {
  }

  lemma {:induction false} QuietSame(s: State)
    ensures Quiet(s, s)
  {
  }

  // ----- propagation grants nothing

  lemma {:induction false} BlockEachQuiet(s: State, ids: seq<Id>)
    ensures Quiet(s, BlockEach(s, ids))
  {
    if ids == [] {
    } else {
      BlockEachQuiet(s, ids[..|ids| - 1]);
    }
  }

  lemma {:induction false} UnblockEachQuiet(s: State, ids: seq<Id>)
    ensures Quiet(s, UnblockEach(s, ids))
  {
    hide HasFailedDependency, DependenciesOf, Without;
    if ids == [] {
    } else {
      UnblockEachQuiet(s, ids[..|ids| - 1]);
    }
  }

  lemma {:induction false} PropagateQuiet(s: State, ids: seq<Id>, before: map<Id, StepStatus>, onlyFailed: bool)
    ensures Quiet(s, PropagateFrom(s, ids, before, onlyFailed))
  {
    hide BlockEach, Quiet;
    if ids == [] {
      QuietSame(s);
    } else {
      var id := ids[|ids| - 1];
      var rest := PropagateFrom(s, ids[..|ids| - 1], before, onlyFailed);
      PropagateQuiet(s, ids[..|ids| - 1], before, onlyFailed);
      BlockEachQuiet(rest, Downstream(rest.steps, id));
      QuietOn(s, rest, PropagateFailure(rest, id));
    }
  }

  lemma {:induction false} UnblockFromQuiet(s: State, ids: seq<Id>, now: map<Id, StepStatus>, before: map<Id, StepStatus>)
    ensures Quiet(s, UnblockFrom(s, ids, now, before))
  {
    hide UnblockEach, Quiet;
    if ids == [] {
      QuietSame(s);
    } else {
      var id := ids[|ids| - 1];
      var rest := UnblockFrom(s, ids[..|ids| - 1], now, before);
      UnblockFromQuiet(s, ids[..|ids| - 1], now, before);
      UnblockEachQuiet(rest, Downstream(rest.steps, id));
      QuietOn(s, rest, PropagateUnblock(rest, id));
    }
  }

  lemma {:induction false} CancelEachQuiet(s: State, ids: seq<Id>)
    ensures Quiet(s, CancelEach(s, ids))
  {
    if ids == [] {
    } else {
      CancelEachQuiet(s, ids[..|ids| - 1]);
    }
  }

  /** Setting one step to another status than ready. */
  lemma {:induction false} SetQuiet(s: State, t: State, id: Id, st: StepStatus)
    requires t.steps == s.steps && t.log == s.log && t.stepStatus == s.stepStatus[id := st] && st != Ready
    ensures Quiet(s, t)
  {
  }

  lemma {:induction false} SameStatusesQuiet(s: State, t: State)
    requires t.steps == s.steps && t.log == s.log && t.stepStatus == s.stepStatus
    ensures Quiet(s, t)
  {
  }

  // ----- the loop

  lemma {:induction false} ConsentStep(steps: Steps, step: Step)
    requires DistinctIds(steps) && step in steps && NeedsConsent(steps, step.id)
    ensures step.requireConsent
  {
    var i :| 0 <= i < |steps| && steps[i].id == step.id && steps[i].requireConsent;
    var j :| 0 <= j < |steps| && steps[j] == step;
    assert i == j;
  }

  /** When a pass reaches a step that asks for consent and was not granted, the plan pauses on
      that step, which is blocked; no call is made and no other step changes. */
  lemma {:induction false} PassAsks(s: State, exec: Executor, one: bool)
    requires ReadySteps(s) != []
    requires var step := ReadySteps(s)[0]; step.requireConsent && StatusOf(s, step.id) == Pending
    ensures var id := ReadySteps(s)[0].id; var t := Loop(s, exec, one);
      && t.status == PlanPaused && t.pausedReason == Some("waiting_consent") && t.pausedStep == Some(id)
      && t.log == s.log && t.stepStatus == s.stepStatus[id := Blocked]
  {
    hide ReadyAmong, Attempt, Conclude;
    LoopUnfold(s, exec, one);
  }

  /** No step behind those that were done before is unblocked. */
  lemma {:induction false} NothingNewlyDone(s: State, ids: seq<Id>, now: map<Id, StepStatus>, before: map<Id, StepStatus>)
    requires forall id :: StatusIn(now, id) == Done ==> StatusIn(before, id) == Done
    ensures UnblockFrom(s, ids, now, before) == s
  {
    hide UnblockEach;
    if ids == [] {
    } else {
      NothingNewlyDone(s, ids[..|ids| - 1], now, before);
    }
  }

  /** So does a whole call: the plan is left waiting for the consent of that step, and nothing
      was called. */
  lemma {:induction false} CallAsks(s: State, exec: Executor)
    requires Exact(s) && s.verdict.None? && !IsTerminal(s.status)
    requires !(s.status == PlanPaused && s.pausedReason == Some("hard_gate_blocked"))
    requires ReadySteps(s) != []
    requires var step := ReadySteps(s)[0]; step.id != "" && step.requireConsent && StatusOf(s, step.id) == Pending
    ensures var id := ReadySteps(s)[0].id; var t := ExecuteNext(s, exec, false);
      && t.status == PlanPaused && t.pausedReason == Some("waiting_consent") && t.pausedStep == Some(id)
      && t.log == s.log && StatusOf(t, id) == Blocked && t.verdict.None?
  {
    hide Loop, Exact, ReadyAmong, PropagateFrom, UnblockFrom, AnyOpenOrRunning, AllDone, SomeStatus;
    RebuildChangesNothing(s);
    var id := ReadySteps(s)[0].id;
    var begin := s.(status := PlanRunning, pausedReason := None, pausedStep := None);
    PlanProgress.SameReady(s, begin, s.steps);
    PassAsks(begin, exec, true);
    LoopKeepsVerdict(begin, exec, true);
    var ran := Loop(begin, exec, true);
    assert RunUntilBlocked(s, exec, true) == ran && FallbackLoop(ran, exec) == ran;
    var ids := IdsOf(ran.steps);
    var blocked := PropagateFrom(ran, ids, ran.stepStatus, true);
    PropagateKeepsPause(ran, ids, ran.stepStatus, true);
    PropagateQuiet(ran, ids, ran.stepStatus, true);
    forall x
      ensures StatusOf(blocked, x) == StatusOf(ran, x) || StatusOf(blocked, x) == Blocked
    {
      PlanProgress.PropagationsBlockOnly(ran, ids, ran.stepStatus, true, x);
    }
    forall x | StatusIn(blocked.stepStatus, x) == Done
      ensures StatusIn(s.stepStatus, x) == Done
    {
      assert StatusOf(blocked, x) == StatusOf(ran, x);
    }
    NothingNewlyDone(blocked, IdsOf(blocked.steps), blocked.stepStatus, s.stepStatus);
  }

  lemma {:induction false} LoopKeepsVerdict(s: State, exec: Executor, one: bool)
    ensures Loop(s, exec, one).verdict == s.verdict
    decreases OpenSteps(s)
  {
    hide StepTurn, ReadyAmong, Loop, OpenSteps, PropagateFrom, LogGrows;
    LoopUnfold(s, exec, one);
    if ReadySteps(s) == [] {
      PropagateKeepsPause(s.(status := PlanFailed), IdsOf(s.steps), s.stepStatus, false);
    } else {
      StepTurnFrame(s, ReadySteps(s)[0], exec, one);
      if TakeTurn(s, exec, one).Continue? {
        LoopKeepsVerdict(TakeTurn(s, exec, one).state, exec, one);
      }
    }
  }

  lemma {:induction false} TurnSpends(s: State, exec: Executor, one: bool, id: Id)
    requires DistinctIds(s.steps) && NeedsConsent(s.steps, id)
    ensures Spends(s, TakeTurn(s, exec, one).state, id)
  {
    hide StepTurn, ReadyAmong, PropagateFrom, AllFinal, AllDependenciesFailed, DistinctIds, Quiet;
    if ReadySteps(s) == [] {
      SameStatusesQuiet(s, s.(status := PlanDone));
      var failed := s.(status := PlanFailed);
      SameStatusesQuiet(s, failed);
      PropagateQuiet(failed, IdsOf(s.steps), s.stepStatus, false);
      QuietOn(s, failed, PropagateFrom(failed, IdsOf(s.steps), s.stepStatus, false));
      SameStatusesQuiet(s, s.(status := PlanPaused, pausedReason := Some(WAITING_DEPENDENCIES)));
      QuietSpends(s, NothingReady(s), id);
    } else {
      var step := ReadySteps(s)[0];
      assert step in ReadySteps(s) && step in s.steps;
      StepTurnFrame(s, step, exec, one);
      if step.id == id {
        ConsentStep(s.steps, step);
        if StatusOf(s, id) != Ready {
          UngrantedAsks(s, step, exec, one);
        }
      }
    }
  }

  lemma {:induction false} UngrantedAsks(s: State, step: Step, exec: Executor, one: bool)
    requires step.requireConsent && StatusOf(s, step.id) != Ready
    ensures StepTurn(s, step, exec, one).state.log == s.log
  {
  }

  lemma {:induction false} LoopSpends(s: State, exec: Executor, one: bool, id: Id)
    requires DistinctIds(s.steps) && NeedsConsent(s.steps, id)
    ensures Spends(s, Loop(s, exec, one), id)
    decreases OpenSteps(s)
  {
    hide TakeTurn, Loop, OpenSteps, DistinctIds, NeedsConsent, Calls;
    LoopUnfold(s, exec, one);
    TurnSpends(s, exec, one, id);
    var turn := TakeTurn(s, exec, one);
    if turn.Continue? {
      LoopSpends(turn.state, exec, one, id);
      SpendsOn(s, turn.state, Loop(turn.state, exec, one), id);
    }
  }

  lemma {:induction false} UntilBlockedSpends(s: State, exec: Executor, one: bool, id: Id)
    requires DistinctIds(s.steps) && NeedsConsent(s.steps, id)
    ensures Spends(s, RunUntilBlocked(s, exec, one), id)
  {
    hide Loop, DistinctIds, NeedsConsent, Quiet, Spends;
    QuietSame(s);
    QuietSpends(s, s, id);
    if !IsTerminal(s.status) {
      var begin := Rebuild(s).(status := PlanRunning, pausedReason := None, pausedStep := None);
      SameStatusesQuiet(s, begin);
      QuietSpends(s, begin, id);
      LoopSpends(begin, exec, one, id);
      SpendsOn(s, begin, Loop(begin, exec, one), id);
    }
  }

  lemma {:induction false} AdvanceQuiet(s: State, id: Option<Id>)
    requires CanAdvance(s)
    ensures Quiet(s, Advance(s, id).(status := PlanRunning))
  {
  }

  lemma {:induction false} FallbackSpends(s: State, exec: Executor, id: Id)
    requires DistinctIds(s.steps) && NeedsConsent(s.steps, id)
    ensures Spends(s, FallbackLoop(s, exec), id)
    decreases s.chain - s.chainIndex
  {
    hide RunUntilBlocked, FailedStep, DistinctIds, NeedsConsent, Quiet, Calls;
    if s.status != PlanFailed || FailedStep(s).None? || !CanAdvance(s) {
      QuietSame(s);
      QuietSpends(s, s, id);
    } else {
      var again := Advance(s, FailedStep(s)).(status := PlanRunning);
      AdvanceQuiet(s, FailedStep(s));
      QuietSpends(s, again, id);
      UntilBlockedSpends(again, exec, true, id);
      RunKeepsChain(again, exec, true);
      var ran := RunUntilBlocked(again, exec, true);
      FallbackSpends(ran, exec, id);
      SpendsOn(s, again, ran, id);
      SpendsOn(s, ran, FallbackLoop(ran, exec), id);
    }
  }

  // ----- one operation

  lemma {:induction false} ConsequencesQuiet(ran: State, before: map<Id, StepStatus>)
    ensures var blocked := PropagateFrom(ran, IdsOf(ran.steps), ran.stepStatus, true);
      Quiet(ran, ConsentPause(Finalize(UnblockFrom(blocked, IdsOf(blocked.steps), blocked.stepStatus, before))))
  {
    hide PropagateFrom, UnblockFrom, Quiet, FinalVerdict;
    var blocked := PropagateFrom(ran, IdsOf(ran.steps), ran.stepStatus, true);
    var unblocked := UnblockFrom(blocked, IdsOf(blocked.steps), blocked.stepStatus, before);
    PropagateQuiet(ran, IdsOf(ran.steps), ran.stepStatus, true);
    UnblockFromQuiet(blocked, IdsOf(blocked.steps), blocked.stepStatus, before);
    SameStatusesQuiet(unblocked, ConsentPause(Finalize(unblocked)));
    QuietOn(ran, blocked, unblocked);
    QuietOn(ran, unblocked, ConsentPause(Finalize(unblocked)));
  }

  lemma {:induction false} ScheduledSpends(s: State, exec: Executor, id: Id)
    requires DistinctIds(s.steps) && NeedsConsent(s.steps, id)
    ensures Spends(s, ExecuteScheduled(s, exec), id)
  {
    hide RunUntilBlocked, FallbackLoop, PropagateFrom, UnblockFrom, Finalize, ConsentPause, DistinctIds, NeedsConsent, Calls;
    var first := RunUntilBlocked(s, exec, true);
    var ran := FallbackLoop(first, exec);
    UntilBlockedSpends(s, exec, true, id);
    FallbackSpends(first, exec, id);
    ConsequencesQuiet(ran, s.stepStatus);
    QuietSpends(ran, ExecuteScheduled(s, exec), id);
    SpendsOn(s, first, ran, id);
    SpendsOn(s, ran, ExecuteScheduled(s, exec), id);
  }

  lemma {:induction false} NextSpends(s: State, exec: Executor, gateRefuses: bool, id: Id)
    requires DistinctIds(s.steps) && NeedsConsent(s.steps, id)
    ensures Spends(s, ExecuteNext(s, exec, gateRefuses), id)
  {
    hide ExecuteScheduled, ReadyAmong, FinalVerdict, DistinctIds, NeedsConsent, Spends, Quiet;
    var r := Reopened(s);
    SameStatusesQuiet(s, s);
    SameStatusesQuiet(s, Finalize(s));
    SameStatusesQuiet(s, r);
    QuietSpends(s, s, id);
    QuietSpends(s, Finalize(s), id);
    QuietSpends(s, r, id);
    ScheduledSpends(r, exec, id);
    SpendsOn(s, r, ExecuteScheduled(r, exec), id);
    if ReadySteps(r) != [] {
      var gated := GateBlock(r, ReadySteps(r)[0].id);
      SetQuiet(s, gated, ReadySteps(r)[0].id, Blocked);
      QuietSpends(s, gated, id);
    }
  }

  lemma {:induction false} RunSpends(s: State, exec: Executor, id: Id)
    requires DistinctIds(s.steps) && NeedsConsent(s.steps, id)
    ensures Spends(s, Run(s, exec), id)
    decreases if s.routed then 0 else 1, s.chain - s.chainIndex
  {
    hide RunUntilBlocked, FailedStep, FinalVerdict, DistinctIds, NeedsConsent, Quiet, Calls;
    if s.steps == [] {
      SameStatusesQuiet(s, Run(s, exec));
      QuietSpends(s, Run(s, exec), id);
    } else {
      var r := Routed(s);
      var ran := RunUntilBlocked(r, exec, false);
      SameStatusesQuiet(s, r);
      QuietSpends(s, r, id);
      UntilBlockedSpends(r, exec, false, id);
      RunKeepsChain(r, exec, false);
      SpendsOn(s, r, ran, id);
      if ran.status == PlanFailed && CanAdvance(ran) {
        var again := Advance(ran, FailedStep(ran)).(status := PlanRunning);
        AdvanceQuiet(ran, FailedStep(ran));
        QuietSpends(ran, again, id);
        SpendsOn(s, ran, again, id);
        RunSpends(again, exec, id);
        SpendsOn(s, again, Run(again, exec), id);
      } else {
        SameStatusesQuiet(ran, Settle(ran));
        QuietSpends(ran, Settle(ran), id);
        SpendsOn(s, ran, Settle(ran), id);
      }
    }
  }

  /** The state an operation sets out from: the step is granted first. */
  function Granted(s: State, id: Id): State {
    SetStatus(s, id, Ready).(pausedReason := None, pausedStep := None)
  }

  lemma {:induction false} ResumeSpends(s: State, granted: Option<bool>, exec: Executor, id: Id)
    requires DistinctIds(s.steps) && NeedsConsent(s.steps, id) && !IsTerminal(s.status)
    ensures Grants(s, ResumePlan(granted, exec), id) ==> Spends(Granted(s, id), Resume(s, granted, exec), id)
    ensures !Grants(s, ResumePlan(granted, exec), id) ==> Spends(s, Resume(s, granted, exec), id)
  {
    hide Run, DistinctIds, NeedsConsent, Calls, Quiet;
    match (WaitsForConsent(s), granted) {
      case (Some(other), Some(true)) =>
        var t := Granted(s, other);
        RunSpends(t, exec, id);
        if other != id {
          OtherGrant(s, t, other, id);
          SpendsOn(s, t, Run(t, exec), id);
        }
      case (Some(other), Some(false)) =>
        SetQuiet(s, Refuse(s, other), other, Cancelled);
        QuietSpends(s, Refuse(s, other), id);
      case _ =>
        RunSpends(s, exec, id);
    }
  }

  /** Granting one step grants no other. */
  lemma {:induction false} OtherGrant(s: State, t: State, other: Id, id: Id)
    requires t.steps == s.steps && t.log == s.log && t.stepStatus == s.stepStatus[other := Ready] && other != id
    ensures Spends(s, t, id)
  {
  }

  lemma {:induction false} DecideSpends(s: State, allowed: bool, id: Id)
    requires CanDecide(s)
    ensures Grants(s, DecideConsent(allowed), id) ==> Spends(Granted(s, id), Decide(s, allowed), id)
    ensures !Grants(s, DecideConsent(allowed), id) ==> Spends(s, Decide(s, allowed), id)
  {
    hide Quiet;
    var other := s.pausedStep.value;
    if !allowed {
      SetQuiet(s, Refuse(s, other), other, Cancelled);
      QuietSpends(s, Refuse(s, other), id);
    } else if other != id {
      OtherGrant(s, Decide(s, true), other, id);
    }
  }

  lemma {:induction false} RetryQuiet(s: State, id: Id)
    requires CanRetry(s, id)
    ensures Quiet(s, Retry(s, id))
  {
    hide Without;
    SetQuiet(s, Retry(s, id), id, Pending);
  }

  lemma {:induction false} CancelQuiet(s: State)
    ensures Quiet(s, Cancel(s))
  {
    hide CancelEach, Quiet;
    var t := s.(status := PlanCancelled);
    SameStatusesQuiet(s, t);
    CancelEachQuiet(t, IdsOf(s.steps));
    QuietOn(s, t, Cancel(s));
  }

  lemma {:induction false} ReloadQuiet(s: State)
    ensures Quiet(s, Apply(s, SaveAndLoad))
  {
    hide Serialize, Deserialize, Quiet;
    RestoredIsRebuilt(s);
    SameStatusesQuiet(s, Apply(s, SaveAndLoad));
  }

  /** Whatever is done, only a granted step is called; only its grant grants it. */
  lemma {:induction false} OperationSpends(s: State, op: Operation, id: Id)
    requires DistinctIds(s.steps) && NeedsConsent(s.steps, id)
    ensures Grants(s, op, id) ==> Spends(Granted(s, id), Apply(s, op), id)
    ensures !Grants(s, op, id) ==> Spends(s, Apply(s, op), id)
  {
    hide ExecuteNext, Retry, Resume, Cancel, Decide, Serialize, Deserialize, CanRetry, Spends, Quiet, DistinctIds, NeedsConsent;
    SameStatusesQuiet(s, s);
    QuietSpends(s, s, id);
    match op {
      case ExecuteNextStep(exec, gateRefuses) => NextSpends(s, exec, gateRefuses, id);
      case RetryStep(other) =>
        if CanRetry(s, other) {
          RetryQuiet(s, other);
          QuietSpends(s, Retry(s, other), id);
        }
      case ResumePlan(granted, exec) => if !IsTerminal(s.status) { ResumeSpends(s, granted, exec, id); }
      case PausePlan(reason) =>
        SameStatusesQuiet(s, Pause(s, reason));
        QuietSpends(s, Pause(s, reason), id);
      case CancelPlan =>
        CancelQuiet(s);
        QuietSpends(s, Cancel(s), id);
      case DecideConsent(allowed) => if CanDecide(s) { DecideSpends(s, allowed, id); }
      case SaveAndLoad =>
        ReloadQuiet(s);
        QuietSpends(s, Apply(s, SaveAndLoad), id);
    }
  }

  // ----- whole runs

  /** Operation `j` granted the step, and from then on up to operation `i` it stayed granted: it
      was neither called nor retried nor refused, nor blocked. */
  ghost predicate GrantLasts(s: State, ops: seq<Operation>, id: Id, j: nat, i: nat)
    requires i <= |ops|
  {
    && j < i && Grants(ApplyAll(s, ops[..j]), ops[j], id)
    && (forall m :: j < m <= i ==> StatusOf(ApplyAll(s, ops[..m]), id) == Ready)
    && !Calls(ApplyAll(s, ops[..j]), ApplyAll(s, ops[..i]), id)
  }

  /** The call was made by operation `i`, which grants the step itself or comes while an earlier
      grant of exactly this step lasts. */
  ghost predicate IsConsented(s: State, ops: seq<Operation>, id: Id, k: nat, i: nat) {
    && i < |ops| && |ApplyAll(s, ops[..i]).log| <= k < |ApplyAll(s, ops[..i + 1]).log|
    && (Grants(ApplyAll(s, ops[..i]), ops[i], id) || exists j: nat :: GrantLasts(s, ops, id, j, i))
  }

  lemma {:induction false} RunsKeepSteps(s: State, ops: seq<Operation>, id: Id)
    requires DistinctIds(s.steps) && NeedsConsent(s.steps, id)
    ensures ApplyAll(s, ops).steps == s.steps
  {
    hide Apply, DistinctIds, NeedsConsent, Calls;
    if ops == [] {
    } else {
      RunsKeepSteps(s, ops[..|ops| - 1], id);
      OperationSpends(ApplyAll(s, ops[..|ops| - 1]), ops[|ops| - 1], id);
    }
  }

  /** A grant that lasts through the first operations, in the longer run. */
  lemma {:induction false} GrantInLonger(s: State, ops: seq<Operation>, id: Id, j: nat, i: nat, n: nat)
    requires i <= n <= |ops|
    ensures GrantLasts(s, ops[..n], id, j, i) <==> GrantLasts(s, ops, id, j, i)
  {
    hide ApplyAll, Grants, Calls;
    assert forall m :: 0 <= m <= n ==> ops[..n][..m] == ops[..m];
    assert j < i ==> ops[..n][j] == ops[j];
  }

  /** A step that stands ready was granted, and the grant has not been used. */
  lemma {:induction false} ReadyIsGranted(s: State, ops: seq<Operation>, id: Id)
    requires DistinctIds(s.steps) && NeedsConsent(s.steps, id) && StatusOf(s, id) != Ready
    requires StatusOf(ApplyAll(s, ops), id) == Ready
    ensures exists j: nat :: GrantLasts(s, ops, id, j, |ops|)
  {
    hide Apply, Grants, DistinctIds, NeedsConsent, Calls, GrantLasts;
    if ops == [] {
      assert false;
    } else {
      var n := |ops| - 1;
      var before, after := ApplyAll(s, ops[..n]), ApplyAll(s, ops);
      RunsKeepSteps(s, ops[..n], id);
      OperationSpends(before, ops[n], id);
      if Grants(before, ops[n], id) {
        GrantStarts(s, ops, id);
      } else {
        ReadyIsGranted(s, ops[..n], id);
        var j: nat :| GrantLasts(s, ops[..n], id, j, n);
        GrantGoesOn(s, ops, id, j);
      }
    }
  }

  lemma {:induction false} GrantStarts(s: State, ops: seq<Operation>, id: Id)
    requires ops != []
    requires var before, after := ApplyAll(s, ops[..|ops| - 1]), ApplyAll(s, ops);
      && Grants(before, ops[|ops| - 1], id) && StatusOf(after, id) == Ready && Spends(Granted(before, id), after, id)
    ensures GrantLasts(s, ops, id, |ops| - 1, |ops|)
  {
    hide ApplyAll, Grants;
    assert ops[..|ops|] == ops;
  }

  lemma {:induction false} GrantGoesOn(s: State, ops: seq<Operation>, id: Id, j: nat)
    requires ops != [] && DistinctIds(s.steps) && NeedsConsent(s.steps, id)
    requires GrantLasts(s, ops[..|ops| - 1], id, j, |ops| - 1)
    requires var before, after := ApplyAll(s, ops[..|ops| - 1]), ApplyAll(s, ops);
      Spends(before, after, id) && StatusOf(after, id) == Ready
    ensures GrantLasts(s, ops, id, j, |ops|)
  {
    hide ApplyAll, Grants, Calls, DistinctIds, NeedsConsent;
    var n := |ops| - 1;
    GrantInLonger(s, ops, id, j, n, n);
    LogOnlyGrows(s, ops[..n], id, j);
    assert ops[..n][..j] == ops[..j];
    assert ops[..n + 1] == ops && ops[..n][..n] == ops[..n];
    CallsOn(ApplyAll(s, ops[..j]), ApplyAll(s, ops[..n]), ApplyAll(s, ops), id);
  }

  lemma {:induction false} LogOnlyGrows(s: State, ops: seq<Operation>, id: Id, m: nat)
    requires DistinctIds(s.steps) && NeedsConsent(s.steps, id) && m <= |ops|
    ensures ApplyAll(s, ops[..m]).log <= ApplyAll(s, ops).log
    decreases |ops|
  {
    hide Apply, DistinctIds, NeedsConsent, Calls;
    if m == |ops| {
      assert ops[..m] == ops;
    } else {
      var n := |ops| - 1;
      RunsKeepSteps(s, ops[..n], id);
      OperationSpends(ApplyAll(s, ops[..n]), ops[n], id);
      LogOnlyGrows(s, ops[..n], id, m);
      assert ops[..n][..m] == ops[..m];
    }
  }

  lemma {:induction false} ConsentInLonger(s: State, ops: seq<Operation>, id: Id, k: nat, i: nat, n: nat)
    requires n <= |ops| && IsConsented(s, ops[..n], id, k, i)
    ensures IsConsented(s, ops, id, k, i)
  {
    hide ApplyAll, Grants, GrantLasts;
    assert ops[..n][..i] == ops[..i] && ops[..n][..i + 1] == ops[..i + 1] && ops[..n][i] == ops[i];
    forall j
      ensures GrantLasts(s, ops[..n], id, j, i) <==> GrantLasts(s, ops, id, j, i)
    {
      GrantInLonger(s, ops, id, j, i, n);
    }
  }

  lemma {:induction false} CallsOfRuns(s: State, ops: seq<Operation>, id: Id, k: nat)
    requires DistinctIds(s.steps) && NeedsConsent(s.steps, id) && StatusOf(s, id) != Ready && s.log == []
    requires k < |ApplyAll(s, ops).log| && ApplyAll(s, ops).log[k].id == id
    ensures exists i: nat :: IsConsented(s, ops, id, k, i)
  {
    hide Apply, Grants, DistinctIds, NeedsConsent, GrantLasts;
    if ops == [] {
      assert false;
    } else {
      var n := |ops| - 1;
      var before, after := ApplyAll(s, ops[..n]), ApplyAll(s, ops);
      RunsKeepSteps(s, ops[..n], id);
      OperationSpends(before, ops[n], id);
      if k < |before.log| {
        assert before.log[k] == after.log[k];
        CallsOfRuns(s, ops[..n], id, k);
        var i: nat :| IsConsented(s, ops[..n], id, k, i);
        ConsentInLonger(s, ops, id, k, i, n);
      } else {
        assert ops[..n + 1] == ops;
        if !Grants(before, ops[n], id) {
          assert Calls(before, after, id);
          ReadyIsGranted(s, ops[..n], id);
          var j: nat :| GrantLasts(s, ops[..n], id, j, n);
          GrantInLonger(s, ops, id, j, n, n);
        }
        assert IsConsented(s, ops, id, k, n);
      }
    }
  }

  /** Whatever is done to a plan: every call of a step that asks for consent comes in or after an
      operation that granted exactly this step, with the grant still standing. */
  lemma {:induction false} CallsAreConsented(steps: Steps, truths: set<string>, chain: nat, ops: seq<Operation>, k: nat)
    requires DistinctIds(steps) && k < |ApplyAll(Create(steps, truths, chain), ops).log|
    requires NeedsConsent(steps, ApplyAll(Create(steps, truths, chain), ops).log[k].id)
    ensures var s := Create(steps, truths, chain); exists i: nat :: IsConsented(s, ops, ApplyAll(s, ops).log[k].id, k, i)
  {
    hide ApplyAll, DistinctIds, NeedsConsent;
    var s := Create(steps, truths, chain);
    CallsOfRuns(s, ops, ApplyAll(s, ops).log[k].id, k);
  }

  /** A step that stands ready cannot be retried, so no retry lies between a grant and its calls. */
  lemma {:induction false} NoRetryWhileGranted(s: State, ops: seq<Operation>, id: Id, j: nat, i: nat, m: nat)
    requires i <= |ops| && GrantLasts(s, ops, id, j, i) && j < m < i
    ensures ops[m] == RetryStep(id) ==> ApplyAll(s, ops[..m + 1]) == ApplyAll(s, ops[..m])
    ensures !Refuses(ApplyAll(s, ops[..m]), ops[m], id)
  {
    hide Find, Grants, Calls, Refuses, Apply;
    var at := ApplyAll(s, ops[..m]);
    assert ops[..m + 1][..m] == ops[..m];
    assert StatusOf(at, id) == Ready && StatusOf(ApplyAll(s, ops[..m + 1]), id) == Ready;
    RefusedIsCancelled(at, ops[m], id);
    NoRetryOfReady(at, id);
  }

  lemma {:induction false} NoRetryOfReady(s: State, id: Id)
    ensures StatusOf(s, id) == Ready ==> Apply(s, RetryStep(id)) == s
  {
    hide Find, Retry;
  }

  /** A refusal cancels the step and the plan, and calls nothing. */
  lemma {:induction false} RefusedIsCancelled(s: State, op: Operation, id: Id)
    ensures var t := Apply(s, op); Refuses(s, op, id) ==> StatusOf(t, id) == Cancelled && t.status == PlanCancelled && t.log == s.log
  {
    hide Run, ExecuteNext, Retry, Cancel, Serialize, Deserialize;
  }

  /** Without an operation that grants it, a step that asks for consent is never called. */
  lemma {:induction false} NoGrantNoCall(steps: Steps, truths: set<string>, chain: nat, ops: seq<Operation>, id: Id)
    requires DistinctIds(steps) && NeedsConsent(steps, id)
    requires forall m :: 0 <= m < |ops| ==> !Grants(ApplyAll(Create(steps, truths, chain), ops[..m]), ops[m], id)
    ensures forall k :: 0 <= k < |ApplyAll(Create(steps, truths, chain), ops).log| ==>
      ApplyAll(Create(steps, truths, chain), ops).log[k].id != id
  {
    hide ApplyAll, DistinctIds, NeedsConsent, Grants, Calls;
    var s := Create(steps, truths, chain);
    forall k | 0 <= k < |ApplyAll(s, ops).log|
      ensures ApplyAll(s, ops).log[k].id != id
    {
      CalledIsGranted(steps, truths, chain, ops, k);
    }
  }

  lemma {:induction false} CalledIsGranted(steps: Steps, truths: set<string>, chain: nat, ops: seq<Operation>, k: nat)
    requires DistinctIds(steps) && k < |ApplyAll(Create(steps, truths, chain), ops).log|
    ensures var s := Create(steps, truths, chain); var id := ApplyAll(s, ops).log[k].id;
      NeedsConsent(steps, id) ==> exists m :: 0 <= m < |ops| && Grants(ApplyAll(s, ops[..m]), ops[m], id)
  {
    hide ApplyAll, Grants, Calls, DistinctIds, NeedsConsent;
    var s := Create(steps, truths, chain);
    var id := ApplyAll(s, ops).log[k].id;
    if NeedsConsent(steps, id) {
      CallsAreConsented(steps, truths, chain, ops, k);
      var i: nat :| IsConsented(s, ops, id, k, i);
      if !Grants(ApplyAll(s, ops[..i]), ops[i], id) {
        var j: nat :| GrantLasts(s, ops, id, j, i);
        assert Grants(ApplyAll(s, ops[..j]), ops[j], id);
      }
    }
  }

  /** From any point at which the step is not granted on: no call without a new grant. */
  lemma {:induction false} UngrantedStays(s: State, more: seq<Operation>, id: Id)
    requires DistinctIds(s.steps) && NeedsConsent(s.steps, id) && StatusOf(s, id) != Ready
    requires forall m :: 0 <= m < |more| ==> !Grants(ApplyAll(s, more[..m]), more[m], id)
    ensures StatusOf(ApplyAll(s, more), id) != Ready && !Calls(s, ApplyAll(s, more), id)
    ensures s.log <= ApplyAll(s, more).log
  {
    hide Apply, Grants, DistinctIds, NeedsConsent, Calls;
    if more == [] {
      NoCalls(s, id);
    } else {
      var n := |more| - 1;
      var before := ApplyAll(s, more[..n]);
      assert forall m :: 0 <= m < n ==> more[..n][..m] == more[..m] && more[..n][m] == more[m];
      UngrantedStays(s, more[..n], id);
      RunsKeepSteps(s, more[..n], id);
      OperationSpends(before, more[n], id);
      CallsOn(s, before, ApplyAll(s, more), id);
    }
  }

  lemma {:induction false} NoCalls(s: State, id: Id)
    ensures !Calls(s, s, id)
  {
  }

  /** A refusal, by resumption or by decision, lets no call follow but after a new grant. */
  lemma {:induction false} RefusedIsNotCalled(steps: Steps, truths: set<string>, chain: nat, ops: seq<Operation>, op: Operation,
                                              more: seq<Operation>, id: Id)
    requires DistinctIds(steps) && NeedsConsent(steps, id)
    requires Refuses(ApplyAll(Create(steps, truths, chain), ops), op, id)
    requires var at := ApplyAll(Create(steps, truths, chain), ops + [op]);
      forall m :: 0 <= m < |more| ==> !Grants(ApplyAll(at, more[..m]), more[m], id)
    ensures var s := Create(steps, truths, chain);
      && StatusOf(ApplyAll(s, ops + [op]), id) == Cancelled && ApplyAll(s, ops + [op]).status == PlanCancelled
      && !Calls(ApplyAll(s, ops), ApplyAll(s, ops + [op] + more), id)
  {
    hide Apply, Grants, DistinctIds, NeedsConsent, Refuses;
    var s := Create(steps, truths, chain);
    var at := ApplyAll(s, ops + [op]);
    assert (ops + [op])[..|ops|] == ops;
    RefusedIsCancelled(ApplyAll(s, ops), op, id);
    RunsKeepSteps(s, ops + [op], id);
    UngrantedStays(at, more, id);
    ApplyAllJoins(s, ops + [op], more);
  }

  /** Neither a refusal nor cancelling closes the request: the plan still names the step it waited
      for, and an allowing decision that comes later sets a cancelled plan running again. */
  lemma {:induction false} RefusalCanBeRevoked(s: State, op: Operation, id: Id)
    requires Refuses(s, op, id) || (op.CancelPlan? && s.pausedReason == Some("waiting_consent") && s.pausedStep == Some(id))
    ensures var t := Apply(s, op); var u := Apply(t, DecideConsent(true));
      && t.status == PlanCancelled && Grants(t, DecideConsent(true), id)
      && u.status == PlanRunning && StatusOf(u, id) == Ready
  {
    hide Run, CancelEach;
    CancelEachKeepsPause(s.(status := PlanCancelled), IdsOf(s.steps));
  }
}
