/** What one pass, one call and a whole plan come to, told by the outcomes of the executor. */
module PlanOutcomes {
  import opened PlanDag
  import opened PlanWalk
  import opened PlanState
  import opened PlanSafety
  import opened PlanRuns
  import opened PlanFrontier
  import opened PlanProgress
  import PlanConsent

  // ----- one pass

  /** The truths after `key` got a value. */
  function WithValue(truths: set<string>, key: string, truthy: bool): set<string> {
    set x | x in truths + {key} && (x == key ==> truthy) :: x
  }

  /** The truths after the calls from `from` on, of which there may be none. */
  function TruthsAfter(truths: set<string>, exec: Executor, from: nat, calls: nat): set<string> {
    if calls == 0 then truths else exec(from + calls - 1).truths
  }

  lemma {:induction false} AttemptTruths(s: State, step: Step, exec: Executor, attempts: nat, quality: bool)
    ensures var a := Attempt(s, step, exec, attempts, quality).state;
      |s.log| <= |a.log| && a.truths == TruthsAfter(s.truths, exec, |s.log|, |a.log| - |s.log|)
    decreases step.retryMax - attempts
  {
    if attempts > step.retryMax {
    } else {
      var running := Invoked(s, step.id);
      InvokedLog(s, step.id);
      match exec(|s.log|) {
        case Returned(_, _) =>
        case Raised(kind, truths) =>
          AttemptTruths(AfterError(running.(truths := truths), step.id, kind, quality), step, exec, attempts + 1, quality);
      }
    }
  }

  /** What an executed step comes to. */
  lemma {:induction false} ExecutedIs(a: Attempted, step: Step, one: bool)
    ensures var turn := ExecutedTurn(a, step, one); var t := turn.state;
      && t.log == a.state.log
      && match a.result
         case Some(truthy) => StatusOf(t, step.id) == Done && t.truths == WithValue(a.state.truths, step.resultKey, truthy)
         case None =>
           match step.degradeTruthy
           case Some(truthy) => StatusOf(t, step.id) == Degraded && t.truths == WithValue(a.state.truths, step.resultKey, truthy)
           case None =>
             && StatusOf(t, step.id) == Failed && t.truths == a.state.truths
             && (step.failFast ==> turn.Stop? && t.status == PlanFailed && t.pausedStep == Some(step.id))
             && (!step.failFast ==> t.status == a.state.status && turn.Stop? == one)
  {
    hide Satisfy, AllFinal, MarkProcessed;
    ValueIs(a.state.truths, step.resultKey);
    match a.result {
      case Some(truthy) =>
        SatisfyFrame(a.state.(truths := SetTruth(a.state.truths, step.resultKey, truthy)), step.id, Done);
      case None =>
        if step.degradeTruthy.Some? {
          SatisfyFrame(a.state.(truths := SetTruth(a.state.truths, step.resultKey, step.degradeTruthy.value)), step.id, Degraded);
        } else {
          ProcessedFrame(SetStatus(a.state, step.id, Failed), step.id);
        }
    }
  }

  /** What becomes of the first ready step, unless it waits for consent: it is skipped without a
      call when its condition names a variable that is not truthy; otherwise the executor is
      called, and if the last call returned the step is done and its result stored; if not, it
      is degraded where there is a value for that, and failed where there is none. Only a failure
      that is to stop the plan does so. */
  lemma {:induction false} PassIs(s: State, exec: Executor, one: bool)
    requires ReadySteps(s) != []
    requires var step := ReadySteps(s)[0]; step.requireConsent ==> StatusOf(s, step.id) == Ready
    ensures var step := ReadySteps(s)[0]; var turn := TakeTurn(s, exec, one); var t := turn.state;
      var calls := |t.log| - |s.log|;
      && calls >= 0
      && t.stepStatus == s.stepStatus[step.id := StatusOf(t, step.id)]
      && (if step.conditionKey != "" && step.conditionKey !in s.truths then
            turn.Continue? && calls == 0 && StatusOf(t, step.id) == Skipped && t.truths == s.truths
          else
            && (step.retryMax < 0 <==> calls == 0) && calls <= Max(1, step.retryMax)
            && var truths := TruthsAfter(s.truths, exec, |s.log|, calls);
               if calls > 0 && exec(|t.log| - 1).Returned? then
                 StatusOf(t, step.id) == Done && t.truths == WithValue(truths, step.resultKey, exec(|t.log| - 1).truthy)
               else if step.degradeTruthy.Some? then
                 StatusOf(t, step.id) == Degraded && t.truths == WithValue(truths, step.resultKey, step.degradeTruthy.value)
               else
                 && StatusOf(t, step.id) == Failed && t.truths == truths
                 && (step.failFast ==> turn.Stop? && t.status == PlanFailed && t.pausedStep == Some(step.id))
                 && (!step.failFast ==> t.status == s.status && turn.Stop? == one))
  {
    hide Attempt, ReadyAmong, LogGrows, ExecutedTurn, Satisfy;
    var step := ReadySteps(s)[0];
    StepTurnFrame(s, step, exec, one);
    SatisfyFrame(s, step.id, Skipped);
    AttemptsAre(s, step, exec, 0, one);
    AttemptTruths(s, step, exec, 0, one);
    AttemptFrame(s, step, exec, 0, one);
    ExecutedIs(Attempt(s, step, exec, 0, one), step, one);
  }

  lemma {:induction false} ValueIs(truths: set<string>, key: string)
    ensures WithValue(truths, key, true) == SetTruth(truths, key, true)
    ensures WithValue(truths, key, false) == SetTruth(truths, key, false)
  {
  }

  // ----- nothing ready

  /** With no step ready a run is done if every step has ended; failed if every other step directly
      depends on one that failed, is blocked or was cancelled, and then what is open behind
      any of these is blocked; and otherwise it pauses and changes nothing. */
  lemma {:induction false} IdleIs(s: State, exec: Executor, one: bool)
    requires ReadySteps(s) == []
    ensures var t := Loop(s, exec, one);
      var ended := forall x :: x in s.steps ==> StatusOf(s, x.id) in {Done, Failed, Skipped, Degraded, Cancelled};
      var hopeless := forall x :: x in s.steps && StatusOf(s, x.id) in {Pending, Ready, Running, Blocked} ==>
        exists d :: d in x.dependsOn && StatusOf(s, d) in {Failed, Blocked, Cancelled};
      && t.log == s.log
      && (if ended then t == s.(status := PlanDone)
          else if hopeless then
            && t.status == PlanFailed
            && forall id :: StatusOf(t, id) == StatusOf(s, id) || (StatusOf(s, id) in {Pending, Ready} && StatusOf(t, id) == Blocked)
          else t == s.(status := PlanPaused, pausedReason := Some("waiting_dependencies")))
  {
    hide PropagateFrom, ReadyAmong, AllFinal, AllDependenciesFailed, Loop, Shift;
    LoopUnfold(s, exec, one);
    EndedIff(s);
    HopelessIff(s);
    var failed := s.(status := PlanFailed);
    PropagateShifts(failed, IdsOf(s.steps), s.stepStatus, false);
    PropagateKeepsPause(failed, IdsOf(s.steps), s.stepStatus, false);
    ShiftKeepsLog(failed, PropagateFrom(failed, IdsOf(s.steps), s.stepStatus, false));
    forall id
      ensures var t := PropagateFrom(failed, IdsOf(s.steps), s.stepStatus, false);
        StatusOf(t, id) == StatusOf(failed, id) || (IsOpen(StatusOf(failed, id)) && StatusOf(t, id) == Blocked)
    {
      PropagationsBlockOnly(failed, IdsOf(s.steps), s.stepStatus, false, id);
    }
  }

  lemma {:induction false} ShiftKeepsLog(s: State, t: State)
    requires Shift(s, t)
    ensures t.log == s.log
  {
  }

  lemma {:induction false} EndedIff(s: State)
    ensures AllFinal(s) <==> forall x :: x in s.steps ==> StatusOf(s, x.id) in {Done, Failed, Skipped, Degraded, Cancelled}
  {
  }

  lemma {:induction false} HopelessIff(s: State)
    ensures AllDependenciesFailed(s) <==>
      && !AllFinal(s)
      && forall x :: x in s.steps && StatusOf(s, x.id) in {Pending, Ready, Running, Blocked} ==>
           exists d :: d in x.dependsOn && StatusOf(s, d) in {Failed, Blocked, Cancelled}
  {
    hide StatusOf;
    if AllDependenciesFailed(s) {
      forall x | x in s.steps && StatusOf(s, x.id) in {Pending, Ready, Running, Blocked}
        ensures exists d :: d in x.dependsOn && StatusOf(s, d) in {Failed, Blocked, Cancelled}
      {
        var k :| 0 <= k < |s.steps| && s.steps[k] == x;
        assert HasFailedDependency(s, s.steps[k].dependsOn);
      }
    } else if !AllFinal(s) {
      var k :| 0 <= k < |s.steps| && !IsFinal(StatusOf(s, s.steps[k].id)) && !HasFailedDependency(s, s.steps[k].dependsOn);
      assert s.steps[k] in s.steps;
    }
  }

  // ----- failures along the fallback chain

  /** Where the chain goes on, the step that stopped the plan is open again; if none did, the first
      failed one is. Nothing else changes but the place in the chain. */
  lemma {:induction false} FallbackReopens(s: State, exec: Executor, id: Id)
    requires s.status == PlanFailed && s.chainIndex + 1 < s.chain && id in s.stepStatus && id != ""
    requires if s.pausedStep.Some? && s.pausedStep.value != "" then s.pausedStep == Some(id)
             else IsFirst(s, id)
    ensures var again := s.(stepStatus := s.stepStatus[id := Pending], processed := ProcessedWith(s.processed, id),
                            chainIndex := s.chainIndex + 1, routed := true, status := PlanRunning);
      FallbackLoop(s, exec) == FallbackLoop(RunUntilBlocked(again, exec, true), exec)
  {
    hide RunUntilBlocked, FirstFailed;
    if !(s.pausedStep.Some? && s.pausedStep.value != "") {
      FirstIs(s, s.steps, id);
    }
    RunKeepsChain(Advance(s, FailedStep(s)).(status := PlanRunning), exec, true);
  }

  /** The first step of the plan that failed. */
  ghost predicate IsFirst(s: State, id: Id) {
    exists k :: 0 <= k < |s.steps| && s.steps[k].id == id && StatusOf(s, id) == Failed
                && forall i :: 0 <= i < k ==> StatusOf(s, s.steps[i].id) != Failed
  }

  lemma {:induction false} FirstIs(s: State, steps: Steps, id: Id)
    requires exists k :: 0 <= k < |steps| && steps[k].id == id && StatusOf(s, id) == Failed
                         && forall i :: 0 <= i < k ==> StatusOf(s, steps[i].id) != Failed
    ensures FirstFailed(s, steps) == Some(id)
  {
    hide StatusOf;
    var k :| 0 <= k < |steps| && steps[k].id == id && StatusOf(s, id) == Failed
             && forall i :: 0 <= i < k ==> StatusOf(s, steps[i].id) != Failed;
    if k > 0 {
      assert steps[1..][k - 1].id == id;
      assert forall i :: 0 <= i < k - 1 ==> steps[1..][i] == steps[i + 1];
      FirstIs(s, steps[1..], id);
    }
  }

  /** A run to the end leaves a plan failed only with a verdict; a failure that something open may
      still follow leaves it running. */
  lemma {:induction false} RunSettles(s: State, exec: Executor)
    requires s.verdict.None? && s.steps != []
    ensures Run(s, exec).status == PlanFailed ==> Run(s, exec).verdict.Some?
    decreases if s.routed then 0 else 1, s.chain - s.chainIndex
  {
    hide RunUntilBlocked, FailedStep, FinalVerdict;
    var r := Routed(s);
    var ran := RunUntilBlocked(r, exec, false);
    RunKeepsChain(r, exec, false);
    UntilBlockedKeepsVerdict(r, exec);
    if ran.status == PlanFailed && CanAdvance(ran) {
      RunSettles(Advance(ran, FailedStep(ran)).(status := PlanRunning), exec);
    }
  }

  lemma {:induction false} UntilBlockedKeepsVerdict(s: State, exec: Executor)
    ensures RunUntilBlocked(s, exec, false).verdict == s.verdict
  {
    hide Loop;
    PlanConsent.LoopKeepsVerdict(Rebuild(s).(status := PlanRunning, pausedReason := None, pausedStep := None), exec, false);
  }

  // ----- how a plan ends

  ghost predicate NoneCancelled(s: State) {
    forall id :: StatusIn(s.stepStatus, id) != Cancelled
  }

  lemma {:induction false} PropagationCancelsNothing(s: State, ids: seq<Id>, before: map<Id, StepStatus>, onlyFailed: bool)
    requires NoneCancelled(s)
    ensures NoneCancelled(PropagateFrom(s, ids, before, onlyFailed))
  {
    hide PropagateFrom;
    var t := PropagateFrom(s, ids, before, onlyFailed);
    forall id
      ensures StatusIn(t.stepStatus, id) != Cancelled
    {
      PropagationsBlockOnly(s, ids, before, onlyFailed, id);
      assert StatusOf(t, id) != Cancelled;
    }
  }

  lemma {:induction false} SetCancelsNothing(s: State, t: State, id: Id)
    requires NoneCancelled(s) && t.stepStatus == s.stepStatus[id := StatusOf(t, id)] && StatusOf(t, id) != Cancelled
    ensures NoneCancelled(t)
  {
    forall x
      ensures StatusIn(t.stepStatus, x) != Cancelled
    {
      assert StatusIn(s.stepStatus, x) != Cancelled;
    }
  }

  lemma {:induction false} LoopCancelsNothing(s: State, exec: Executor, one: bool)
    requires NoneCancelled(s)
    ensures NoneCancelled(Loop(s, exec, one))
    decreases OpenSteps(s)
  {
    hide StepTurn, ReadyAmong, Loop, OpenSteps, PropagateFrom, LogGrows, AllFinal, AllDependenciesFailed;
    LoopUnfold(s, exec, one);
    if ReadySteps(s) == [] {
      PropagationCancelsNothing(s.(status := PlanFailed), IdsOf(s.steps), s.stepStatus, false);
    } else {
      var step := ReadySteps(s)[0];
      StepTurnFrame(s, step, exec, one);
      SetCancelsNothing(s, StepTurn(s, step, exec, one).state, step.id);
      if TakeTurn(s, exec, one).Continue? {
        LoopCancelsNothing(TakeTurn(s, exec, one).state, exec, one);
      }
    }
  }

  /** The verdict, where there is one, is the one the statuses call for. */
  ghost predicate Judged(s: State) {
    && s.status != PlanCancelled && NotAskingAtAll(s) && NoneCancelled(s)
    && (s.verdict.Some? ==>
          && FinalVerdict(s.(verdict := None, status := PlanRunning)) == s.verdict
          && s.status == (if s.verdict == Some(Completed) then PlanDone else PlanFailed))
    && (s.verdict.None? && s.status == PlanDone ==> FinalVerdict(s).None?)
  }

  lemma {:induction false} FinalizedJudged(s: State)
    requires s.verdict.None? && s.status != PlanCancelled && NotAskingAtAll(s) && NoneCancelled(s)
    ensures Judged(Finalize(s)) && ConsentPause(Finalize(s)) == Finalize(s)
  {
    hide AnyOpenOrRunning, AllDone, SomeStatus;
    SameVerdict(s, s.(status := PlanRunning));
  }

  lemma {:induction false} SameVerdict(s: State, t: State)
    requires t.stepStatus == s.stepStatus && s.verdict.None? && t.verdict.None? && NotAskingAtAll(s) && NotAskingAtAll(t)
    ensures FinalVerdict(t) == FinalVerdict(s)
  {
  }

  lemma {:induction false} ScheduledJudged(s: State, exec: Executor)
    requires Going(s) && NoLeak(s) && DependenciesExist(s.steps) && Acyclic(s.steps)
    requires s.chain == 0 && !IsTerminal(s.status) && s.verdict.None? && NoneCancelled(s)
    ensures Judged(ExecuteScheduled(s, exec))
  {
    hide Going, OpenSteps, NoLeak, Acyclic, DependenciesExist, Loop, FallbackLoop, PropagateFrom, UnblockFrom, Finalize,
      AllFinal, Judged;
    LoopCancelsNothing(Rebuild(s).(status := PlanRunning, pausedReason := None, pausedStep := None), exec, true);
    var first := RunUntilBlocked(s, exec, true);
    RunGoing(s, exec);
    RunKeepsChain(s, exec, true);
    NoFallback(first, exec);
    var marked := PropagateFrom(first, IdsOf(first.steps), first.stepStatus, true);
    PropagateKeepsPause(first, IdsOf(first.steps), first.stepStatus, true);
    PropagationCancelsNothing(first, IdsOf(first.steps), first.stepStatus, true);
    PropagationsGrounded(first, IdsOf(first.steps), first.stepStatus, true) by {
      GoingIs(first);
    }
    CoreIsDistinct(marked) by {
      GoingIs(first);
    }
    PropagateKeepsChain(first, IdsOf(first.steps), first.stepStatus, true);
    NothingUnblocked(marked, IdsOf(marked.steps), marked.stepStatus, s.stepStatus);
    FinalizedJudged(marked);
  }

  lemma {:induction false} NextJudged(s: State, exec: Executor)
    requires Live(s) && Judged(s)
    ensures Judged(ExecuteNext(s, exec, false))
  {
    hide Settled, Going, OpenSteps, ExecuteScheduled, FinalVerdict, Acyclic;
    if Ended(s) {
    } else if s.status == PlanFailed && FinalVerdict(s).Some? {
      FinalizedJudged(s);
    } else {
      GoingIs(s);
      ReopenedGoing(s);
      SettledIs(s);
      ScheduledJudged(Reopened(s), exec);
    }
  }

  lemma {:induction false} DriveJudged(s: State, execs: seq<Executor>)
    requires Live(s) && Judged(s)
    ensures Live(Drive(s, execs)) && Judged(Drive(s, execs))
  {
    hide Live, Judged, ExecuteNext, OpenSteps;
    if execs == [] {
    } else {
      DriveJudged(s, execs[..|execs| - 1]);
      NextLive(Drive(s, execs[..|execs| - 1]), execs[|execs| - 1]);
      NextJudged(Drive(s, execs[..|execs| - 1]), execs[|execs| - 1]);
    }
  }

  /** The steps with a status are the steps of the plan. */
  lemma {:induction false} SomeStep(s: State, st: StepStatus)
    requires Covered(s) && st != Pending
    ensures SomeStatus(s, st) <==> exists x :: x in s.steps && StatusOf(s, x.id) == st
  {
    if SomeStatus(s, st) {
      var id :| id in s.stepStatus && s.stepStatus[id] == st;
      assert id in Ids(s.steps);
      var k :| 0 <= k < |s.steps| && s.steps[k].id == id;
      assert s.steps[k] in s.steps;
    }
    if x :| x in s.steps && StatusOf(s, x.id) == st {
      StatusIsSome(s, x.id);
    }
  }

  lemma {:induction false} EveryStep(s: State)
    requires Covered(s)
    ensures AllDone(s) <==> s.steps != [] && forall x :: x in s.steps ==> StatusOf(s, x.id) == Done
  {
    if AllDone(s) {
      forall x | x in s.steps
        ensures StatusOf(s, x.id) == Done
      {
        IsStepId(s.steps, x);
      }
      var id :| id in s.stepStatus;
      assert id in Ids(s.steps);
    } else if s.steps != [] {
      assert s.steps[0].id in Ids(s.steps);
      var id :| id in s.stepStatus && s.stepStatus[id] != Done;
      assert id in Ids(s.steps);
      var k :| 0 <= k < |s.steps| && s.steps[k].id == id;
      assert s.steps[k] in s.steps;
    }
  }

  /** What the verdict comes to once nothing is open. */
  lemma {:induction false} ClosedVerdict(s: State)
    requires Going(s) && Acyclic(s.steps) && NotAskingAtAll(s) && OpenSteps(s) == {} && s.verdict.None?
    requires NoneCancelled(s)
    ensures var failed := exists x :: x in s.steps && StatusOf(s, x.id) == Failed;
      var blocked := exists x :: x in s.steps && StatusOf(s, x.id) == Blocked;
      FinalVerdict(s) ==
        if s.steps != [] && forall x :: x in s.steps ==> StatusOf(s, x.id) == Done then Some(Completed)
        else if blocked then Some(Stopped) else if failed then Some(Broken) else None
    ensures (exists x :: x in s.steps && StatusOf(s, x.id) == Blocked) ==> (exists x :: x in s.steps && StatusOf(s, x.id) == Failed)
  {
    hide Core, Grounded, NoConsent, OpenSteps, Acyclic, AllDone, SomeStatus, AnyOpenOrRunning, Covered, NoneRunning;
    NoneOpenOrRunning(s);
    SomeStep(s, Failed);
    SomeStep(s, Blocked);
    EveryStep(s);
    if SomeStatus(s, Blocked) {
      var b := BlockedOne(s);
      BlockedHasRoot(s, b);
      CancelledIsNone(s);
    }
  }

  lemma {:induction false} CancelledIsNone(s: State)
    requires NoneCancelled(s)
    ensures !SomeStatus(s, Cancelled)
  {
    forall id | id in s.stepStatus
      ensures s.stepStatus[id] != Cancelled
    {
      assert StatusIn(s.stepStatus, id) != Cancelled;
    }
  }

  lemma {:induction false} BlockedOne(s: State) returns (b: Id)
    requires SomeStatus(s, Blocked)
    ensures StatusOf(s, b) == Blocked
  {
    b :| b in s.stepStatus && s.stepStatus[b] == Blocked;
  }

  /** How a valid plan ends that is driven step by step, whatever the executor does: it is done
      with the verdict completed if every step is done; it fails, stopped if a step is blocked and
      broken if not, exactly if some step failed; otherwise it is done without a verdict. */
  lemma {:induction false} HowPlansEnd(steps: Steps, truths: set<string>, execs: seq<Executor>)
    requires DistinctIds(steps) && DependenciesExist(steps) && Acyclic(steps) && NoConsent(steps)
    requires |execs| >= |steps| && |execs| >= 1
    ensures var end := Drive(Create(steps, truths, 0), execs);
      var failed := exists x :: x in steps && StatusOf(end, x.id) == Failed;
      var blocked := exists x :: x in steps && StatusOf(end, x.id) == Blocked;
      var allDone := steps != [] && forall x :: x in steps ==> StatusOf(end, x.id) == Done;
      && end.status == (if failed then PlanFailed else PlanDone)
      && end.verdict == (if allDone then Some(Completed) else if blocked then Some(Stopped) else if failed then Some(Broken) else None)
      && (blocked ==> failed)
  {
    hide Drive, Going, OpenSteps, Settled, DependenciesExist, DistinctIds, Acyclic, FinalVerdict, NoConsent, Ids, NoneCancelled;
    var s := Create(steps, truths, 0);
    CreatedIsLive(steps, truths);
    IdsAreFew(steps);
    DriveLive(s, execs);
    CreatedIsJudged(steps, truths);
    DriveJudged(s, execs);
    EndIs(Drive(s, execs));
  }

  lemma {:induction false} CreatedIsJudged(steps: Steps, truths: set<string>)
    ensures Judged(Create(steps, truths, 0))
  {
    var s := Create(steps, truths, 0);
    assert forall id :: StatusOf(s, id) == Pending;
  }

  lemma {:induction false} EndIs(end: State)
    requires Live(end) && Judged(end) && Ended(end) && OpenSteps(end) == {}
    ensures var failed := exists x :: x in end.steps && StatusOf(end, x.id) == Failed;
      var blocked := exists x :: x in end.steps && StatusOf(end, x.id) == Blocked;
      var allDone := end.steps != [] && forall x :: x in end.steps ==> StatusOf(end, x.id) == Done;
      && end.status == (if failed then PlanFailed else PlanDone)
      && end.verdict == (if allDone then Some(Completed) else if blocked then Some(Stopped) else if failed then Some(Broken) else None)
      && (blocked ==> failed)
  {
    hide Going, OpenSteps, Settled, Acyclic, FinalVerdict, NoneCancelled;
    var free := end.(verdict := None, status := PlanRunning);
    GoingFree(end);
    assert forall x :: StatusOf(free, x) == StatusOf(end, x);
    ClosedVerdict(free);
    if end.verdict.None? {
      SameVerdict(end, free);
    }
    if x :| x in end.steps && StatusOf(end, x.id) == Failed {
      assert StatusOf(end, x.id) != Done;
    }
  }

  lemma {:induction false} GoingFree(end: State)
    requires Going(end)
    ensures var free := end.(verdict := None, status := PlanRunning);
      Going(free) && OpenSteps(free) == OpenSteps(end) && (NoneCancelled(end) ==> NoneCancelled(free))
  {
    hide Core, Grounded, NoneRunning, NoConsent, OpenSteps;
    var free := end.(verdict := None, status := PlanRunning);
    SameGrounded(end, free);
    FewerOpenIn(end, free);
    FewerOpenIn(free, end);
  }
}
