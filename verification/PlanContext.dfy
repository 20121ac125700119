/** The mutable task context, the engine and the orchestrator, as the program has them.

    Every method is proved to take the context from its value to the one that the function of
    the same name in `PlanState` gives. */
module PlanContext {
  import opened PlanDag
  import opened PlanWalk
  import opened PlanState
  import opened PlanSafety
  import PlanFrontier

  class TaskContext {
    const steps: Steps
    const chain: nat
    var stepStatus: map<Id, StepStatus>
    var processed: seq<Id>
    var satisfied: set<Id>
    var status: PlanStatus
    var verdict: Option<Verdict>
    var pausedReason: Option<string>
    var pausedStep: Option<Id>
    var truths: set<string>
    var chainIndex: nat
    var routed: bool
    /** The calls of the executor so far; they also number its outcomes. */
    var log: seq<Invocation>

    function Value(): State
      reads this
    {
      State(steps, stepStatus, processed, satisfied, status, verdict, pausedReason, pausedStep,
            truths, chain, chainIndex, routed, log)
    }

    /** The context for stored fields; the cached set is looked up anew. */
    constructor (s: State)
      ensures Value() == Rebuild(s)
    {
      steps, chain := s.steps, s.chain;
      stepStatus, processed, status, verdict := s.stepStatus, s.processed, s.status, s.verdict;
      pausedReason, pausedStep, truths := s.pausedReason, s.pausedStep, s.truths;
      chainIndex, routed, log := s.chainIndex, s.routed, s.log;
      satisfied := {};
      new;
      RebuildDependencySatisfiedSet();
    }

    function Status(id: Id): StepStatus
      reads this
    {
      StatusIn(stepStatus, id)
    }

    method MarkProcessed(id: Id)
      modifies this`processed
      ensures Value() == PlanState.MarkProcessed(old(Value()), id)
    {
      if id !in processed {
        processed := processed + [id];
      }
    }

    method MarkDependencySatisfied(id: Id)
      modifies this`processed, this`satisfied
      ensures Value() == MarkSatisfied(old(Value()), id)
    {
      if id !in processed {
        processed := processed + [id];
      }
      satisfied := satisfied + {id};
    }

    method MarkCompleted(id: Id)
      modifies this`processed, this`satisfied
      ensures Value() == PlanState.MarkCompleted(old(Value()), id)
      ensures id in processed && old(processed) <= processed && |processed| <= |old(processed)| + 1
      ensures satisfied == old(satisfied) + if IsSatisfied(Status(id)) then {id} else {}
      ensures ExactExcept(old(Value()), id) ==> Exact(Value())
    {
      if IsSatisfied(Status(id)) {
        MarkDependencySatisfied(id);
      } else {
        MarkProcessed(id);
      }
    }

    method RebuildDependencySatisfiedSet()
      modifies this`satisfied
      ensures Value() == Rebuild(old(Value()))
    {
      satisfied := set id | id in processed && IsSatisfied(StatusIn(stepStatus, id));
    }

    method DependenciesMet(dependencies: seq<Id>) returns (met: bool)
      ensures met <==> forall i :: 0 <= i < |dependencies| ==> dependencies[i] in satisfied
    {
      met := true;
      for j := 0 to |dependencies|
        invariant met <==> forall i :: 0 <= i < j ==> dependencies[i] in satisfied
      {
        met := met && dependencies[j] in satisfied;
      }
    }

    method GetReadySteps() returns (ready: seq<Step>)
      ensures ready == ReadySteps(Value())
    {
      hide ReadyAmong;
      ready := [];
      assert steps[..0] == [];
      NoneReady(Value());
      for k := 0 to |steps|
        invariant ready == ReadyAmong(Value(), steps[..k])
      {
        var step := steps[k];
        ReadyNext(Value(), steps, k);
        if IsOpen(Status(step.id)) {
          var met := DependenciesMet(step.dependsOn);
          if met {
            ready := ready + [step];
          }
        }
      }
      assert steps[..|steps|] == steps;
    }

    method AllStepsFinal() returns (final: bool)
      ensures final == AllFinal(Value())
    {
      final := true;
      for k := 0 to |steps|
        invariant final <==> forall i :: 0 <= i < k ==> IsFinal(StatusOf(Value(), steps[i].id))
      {
        final := final && IsFinal(Status(steps[k].id));
      }
    }

    method DependencyFailed(dependencies: seq<Id>) returns (failed: bool)
      ensures failed == HasFailedDependency(Value(), dependencies)
    {
      failed := false;
      for k := 0 to |dependencies|
        invariant failed <==> exists i :: 0 <= i < k && IsFailedDependency(StatusOf(Value(), dependencies[i]))
      {
        failed := failed || IsFailedDependency(Status(dependencies[k]));
      }
    }

    method AllDependenciesFailed() returns (all: bool)
      ensures all == PlanState.AllDependenciesFailed(Value())
    {
      hide HasFailedDependency;
      var pending := false;
      all := true;
      for k := 0 to |steps|
        invariant pending <==> exists i :: 0 <= i < k && !IsFinal(StatusOf(Value(), steps[i].id))
        invariant all <==> forall i :: 0 <= i < k && !IsFinal(StatusOf(Value(), steps[i].id)) ==>
          HasFailedDependency(Value(), steps[i].dependsOn)
      {
        if !IsFinal(Status(steps[k].id)) {
          pending := true;
          var failed := DependencyFailed(steps[k].dependsOn);
          all := all && failed;
        }
      }
      all := pending && all;
    }
  }

  // ----- propagation

  lemma {:induction false} NoneReady(s: State)
    ensures ReadyAmong(s, []) == []
  {
  }

  lemma {:induction false} ReadyUnfold(s: State, steps: Steps)
    requires steps != []
    ensures ReadyAmong(s, steps) == (if IsReady(s, steps[0]) then [steps[0]] else []) + ReadyAmong(s, steps[1..])
  {
  }

  lemma {:induction false} ReadyJoin(s: State, a: Steps, b: Steps)
    ensures ReadyAmong(s, a + b) == ReadyAmong(s, a) + ReadyAmong(s, b)
  {
    hide IsReady, ReadyAmong;
    if a == [] {
      assert a + b == b;
      NoneReady(s);
    } else {
      ReadyJoin(s, a[1..], b);
      ReadyUnfold(s, a);
      ReadyUnfold(s, a + b);
      assert (a + b)[0] == a[0] && (a + b)[1..] == a[1..] + b;
    }
  }

  lemma {:induction false} ReadyNext(s: State, steps: Steps, k: nat)
    requires k < |steps|
    ensures ReadyAmong(s, steps[..k + 1]) == ReadyAmong(s, steps[..k]) + (if IsReady(s, steps[k]) then [steps[k]] else [])
  {
    hide IsReady;
    assert steps[..k + 1] == steps[..k] + [steps[k]];
    ReadyJoin(s, steps[..k], [steps[k]]);
    assert [steps[k]][1..] == [];
    assert ReadyAmong(s, []) == [];
  }

  function Listed(successors: map<Id, seq<Id>>, id: Id): seq<Id> {
    if id in successors then successors[id] else []
  }

  ghost predicate IsAdjacency(successors: map<Id, seq<Id>>, steps: Steps) {
    forall id :: Listed(successors, id) == Successors(steps, id)
  }

  /** The lists hold the dependents of every step among `steps`, and those that the given
      dependencies of one more step add. */
  ghost predicate AreSuccessors(successors: map<Id, seq<Id>>, steps: Steps, dependencies: seq<Id>, step: Id) {
    forall id :: Listed(successors, id) == Successors(steps, id) + Entries(dependencies, id, step)
  }

  method BuildSuccessors(steps: Steps) returns (successors: map<Id, seq<Id>>)
    ensures IsAdjacency(successors, steps)
  {
    hide AreSuccessors, IsAdjacency;
    successors := map[];
    NoSuccessors();
    assert steps[..0] == [];
    for k := 0 to |steps|
      invariant IsAdjacency(successors, steps[..k])
    {
      var step := steps[k];
      assert step.dependsOn[..0] == [];
      NoMoreEntries(successors, steps[..k], step.id);
      for j := 0 to |step.dependsOn|
        invariant AreSuccessors(successors, steps[..k], step.dependsOn[..j], step.id)
      {
        var dependency := step.dependsOn[j];
        NextEntry(successors, steps[..k], step.dependsOn, j, step.id);
        successors := successors[dependency := Listed(successors, dependency) + [step.id]];
      }
      assert step.dependsOn[..|step.dependsOn|] == step.dependsOn;
      NextSuccessors(successors, steps, k);
    }
    assert steps[..|steps|] == steps;
  }

  lemma {:induction false} NoSuccessors()
    ensures IsAdjacency(map[], [])
  {
  }

  lemma {:induction false} NextEntry(successors: map<Id, seq<Id>>, steps: Steps, dependencies: seq<Id>, j: nat, step: Id)
    requires j < |dependencies| && AreSuccessors(successors, steps, dependencies[..j], step)
    ensures AreSuccessors(successors[dependencies[j] := Listed(successors, dependencies[j]) + [step]], steps, dependencies[..j + 1], step)
  {
    hide Successors, Entries;
    forall id
      ensures Entries(dependencies[..j + 1], id, step) ==
        (Entries(dependencies[..j], id, step) + (if dependencies[j] == id then [step] else []))
    {
      EntriesGrow(dependencies, j, id, step);
    }
  }

  lemma {:induction false} NextSuccessors(successors: map<Id, seq<Id>>, steps: Steps, k: nat)
    requires k < |steps| && AreSuccessors(successors, steps[..k], steps[k].dependsOn, steps[k].id)
    ensures IsAdjacency(successors, steps[..k + 1])
  {
    hide Successors, Entries;
    forall id
      ensures Listed(successors, id) == Successors(steps[..k + 1], id)
    {
      SuccessorsGrow(steps, k, id);
    }
  }

  lemma {:induction false} NoMoreEntries(successors: map<Id, seq<Id>>, steps: Steps, step: Id)
    requires IsAdjacency(successors, steps)
    ensures AreSuccessors(successors, steps, [], step)
  {
    hide Successors;
  }

  lemma {:induction false} NoEntries(id: Id, step: Id)
    ensures Entries([], id, step) == []
  {
  }

  lemma {:induction false} EntriesUnfold(dependencies: seq<Id>, id: Id, step: Id)
    requires dependencies != []
    ensures Entries(dependencies, id, step) ==
      (if dependencies[0] == id then [step] else []) + Entries(dependencies[1..], id, step)
  {
  }

  lemma {:induction false} EntriesJoin(a: seq<Id>, b: seq<Id>, id: Id, step: Id)
    ensures Entries(a + b, id, step) == Entries(a, id, step) + Entries(b, id, step)
  {
    hide Entries;
    NoEntries(id, step);
    if a == [] {
      assert a + b == b;
    } else {
      EntriesJoin(a[1..], b, id, step);
      EntriesUnfold(a, id, step);
      EntriesUnfold(a + b, id, step);
      assert (a + b)[0] == a[0] && (a + b)[1..] == a[1..] + b;
    }
  }

  lemma {:induction false} EntriesGrow(dependencies: seq<Id>, j: nat, id: Id, step: Id)
    requires j < |dependencies|
    ensures Entries(dependencies[..j + 1], id, step) ==
      Entries(dependencies[..j], id, step) + (if dependencies[j] == id then [step] else [])
  {
    assert dependencies[..j + 1] == dependencies[..j] + [dependencies[j]];
    EntriesJoin(dependencies[..j], [dependencies[j]], id, step);
    assert [dependencies[j]][1..] == [];
    assert Entries([], id, step) == [];
  }

  lemma {:induction false} SuccessorsOfNone(id: Id)
    ensures Successors([], id) == []
  {
  }

  lemma {:induction false} SuccessorsUnfold(steps: Steps, id: Id)
    requires steps != []
    ensures Successors(steps, id) == Entries(steps[0].dependsOn, id, steps[0].id) + Successors(steps[1..], id)
  {
  }

  lemma {:induction false} SuccessorsJoin(a: Steps, b: Steps, id: Id)
    ensures Successors(a + b, id) == Successors(a, id) + Successors(b, id)
  {
    hide Entries, Successors;
    if a == [] {
      assert a + b == b;
      SuccessorsOfNone(id);
    } else {
      SuccessorsJoin(a[1..], b, id);
      SuccessorsUnfold(a, id);
      SuccessorsUnfold(a + b, id);
      assert (a + b)[0] == a[0] && (a + b)[1..] == a[1..] + b;
    }
  }

  lemma {:induction false} SuccessorsGrow(steps: Steps, k: nat, id: Id)
    requires k < |steps|
    ensures Successors(steps[..k + 1], id) == Successors(steps[..k], id) + Entries(steps[k].dependsOn, id, steps[k].id)
  {
    hide Entries;
    assert steps[..k + 1] == steps[..k] + [steps[k]];
    SuccessorsJoin(steps[..k], [steps[k]], id);
    assert [steps[k]][1..] == [];
    assert Successors([], id) == [];
  }

  method PropagateFailure(c: TaskContext, failedStep: Id) returns (blocked: seq<Id>)
    modifies c
    ensures c.Value() == PlanState.PropagateFailure(old(c.Value()), failedStep)
    ensures forall id :: id in blocked <==> StatusOf(c.Value(), id) != StatusOf(old(c.Value()), id)
  {
    hide Walk, Successors, BlockEach;
    ghost var before := c.Value();
    var successors := BuildSuccessors(c.steps);
    SuccessorsAreSteps(c.steps, failedStep);
    var queue := Listed(successors, failedStep);
    var visited: set<Id> := {};
    ghost var walked: seq<Id> := [];
    blocked := [];
    BlockNone(before);
    while queue != []
      invariant AllSteps(c.steps, queue)
      invariant Downstream(c.steps, failedStep) == walked + Walk(c.steps, queue, visited)
      invariant c.Value() == BlockEach(before, walked)
      invariant forall id :: id in blocked <==> StatusOf(c.Value(), id) != StatusOf(before, id)
      decreases Ids(c.steps) - visited, |queue|
    {
      var id := queue[0];
      WalkUnfold(c.steps, queue, visited);
      queue := queue[1..];
      if id in visited {
        continue;
      }
      visited := visited + {id};
      queue := queue + Listed(successors, id);
      BlockNext(before, walked, id);
      BlockedOnce(before, walked, id);
      walked := walked + [id];
      if IsOpen(c.Status(id)) {
        c.stepStatus := c.stepStatus[id := Blocked];
        c.MarkProcessed(id);
        blocked := blocked + [id];
      }
    }
    WalkEmpty(c.steps, visited);
    assert walked + [] == walked;
  }

  lemma {:induction false} BlockNone(s: State)
    ensures BlockEach(s, []) == s
  {
  }

  lemma {:induction false} BlockNext(s: State, ids: seq<Id>, id: Id)
    ensures BlockEach(s, ids + [id]) == Block(BlockEach(s, ids), id)
  {
    assert (ids + [id])[..|ids|] == ids;
  }

  /** A step that is still open has not been changed yet. */
  lemma {:induction false} BlockedOnce(s: State, ids: seq<Id>, id: Id)
    ensures IsOpen(StatusOf(BlockEach(s, ids), id)) ==> StatusOf(s, id) == StatusOf(BlockEach(s, ids), id)
  {
    if ids == [] {
    } else {
      BlockedOnce(s, ids[..|ids| - 1], id);
    }
  }

  method PropagateUnblock(c: TaskContext, completedStep: Id) returns (unblocked: seq<Id>)
    modifies c
    ensures c.Value() == PlanState.PropagateUnblock(old(c.Value()), completedStep)
    ensures forall id :: id in unblocked <==> StatusOf(c.Value(), id) != StatusOf(old(c.Value()), id)
  {
    hide Walk, Successors, UnblockEach, HasFailedDependency;
    ghost var before := c.Value();
    var successors := BuildSuccessors(c.steps);
    SuccessorsAreSteps(c.steps, completedStep);
    var queue := Listed(successors, completedStep);
    var visited: set<Id> := {};
    ghost var walked: seq<Id> := [];
    unblocked := [];
    UnblockNone(before);
    while queue != []
      invariant AllSteps(c.steps, queue)
      invariant Downstream(c.steps, completedStep) == walked + Walk(c.steps, queue, visited)
      invariant c.Value() == UnblockEach(before, walked)
      invariant forall id :: id in unblocked <==> StatusOf(c.Value(), id) != StatusOf(before, id)
      decreases Ids(c.steps) - visited, |queue|
    {
      var id := queue[0];
      WalkUnfold(c.steps, queue, visited);
      queue := queue[1..];
      if id in visited {
        continue;
      }
      visited := visited + {id};
      UnblockNext(before, walked, id);
      UnblockedOnce(before, walked, id);
      walked := walked + [id];
      if c.Status(id) == Blocked {
        var dependencies := DependenciesOf(c.Value(), id);
        var failed := c.DependencyFailed(dependencies);
        if !failed {
          c.stepStatus := c.stepStatus[id := Pending];
          c.processed := Without(c.processed, id);
          unblocked := unblocked + [id];
        }
      }
      queue := queue + Listed(successors, id);
    }
    WalkEmpty(c.steps, visited);
    assert walked + [] == walked;
  }

  lemma {:induction false} UnblockNone(s: State)
    ensures UnblockEach(s, []) == s
  {
  }

  lemma {:induction false} UnblockNext(s: State, ids: seq<Id>, id: Id)
    ensures UnblockEach(s, ids + [id]) == Unblock(UnblockEach(s, ids), id)
  {
    assert (ids + [id])[..|ids|] == ids;
  }

  /** A step that is still blocked has not been changed yet. */
  lemma {:induction false} UnblockedOnce(s: State, ids: seq<Id>, id: Id)
    ensures StatusOf(UnblockEach(s, ids), id) == Blocked ==> StatusOf(s, id) == Blocked
  {
    hide HasFailedDependency, DependenciesOf, Without;
    if ids == [] {
    } else {
      UnblockedOnce(s, ids[..|ids| - 1], id);
    }
  }

  // ----- the engine

  lemma {:induction false} AttemptUnfold(s: State, step: Step, exec: Executor, attempts: nat, quality: bool)
    ensures attempts > step.retryMax ==> Attempt(s, step, exec, attempts, quality) == Attempted(s, None)
    ensures attempts <= step.retryMax ==>
      var outcome := exec(|s.log|);
      var after := Invoked(s, step.id).(truths := outcome.truths);
      Attempt(s, step, exec, attempts, quality) ==
        if outcome.Returned? then Attempted(after, Some(outcome.truthy))
        else
          var raised := AfterError(after, step.id, outcome.kind, quality);
          if attempts + 1 >= step.retryMax || outcome.kind != Retryable then Attempted(raised, None)
          else Attempt(raised, step, exec, attempts + 1, quality)
  {
  }

  method ExecuteWithRetry(c: TaskContext, step: Step, exec: Executor, quality: bool) returns (result: Option<bool>)
    modifies c
    ensures Attempted(c.Value(), result) == Attempt(old(c.Value()), step, exec, 0, quality)
  {
    hide Attempt;
    var attempts := 0;
    while attempts <= step.retryMax
      invariant Attempt(c.Value(), step, exec, attempts, quality) == Attempt(old(c.Value()), step, exec, 0, quality)
      decreases step.retryMax - attempts
    {
      AttemptUnfold(c.Value(), step, exec, attempts, quality);
      attempts := attempts + 1;
      c.stepStatus := c.stepStatus[step.id := Running];
      var outcome := exec(|c.log|);
      c.log := c.log + [Invocation(step.id, c.stepStatus)];
      c.truths := outcome.truths;
      match outcome {
        case Returned(truthy, _) =>
          return Some(truthy);
        case Raised(kind, _) =>
          if quality && kind == Unverified {
            c.pausedReason, c.pausedStep := Some(POST_VERIFICATION_FAILED), Some(step.id);
          }
          if attempts >= step.retryMax || kind != Retryable {
            return None;
          }
      }
    }
    AttemptUnfold(c.Value(), step, exec, attempts, quality);
    return None;
  }

  /** The outcome of the attempts becomes the status of the step. */
  method ConcludeStep(c: TaskContext, step: Step, result: Option<bool>) returns (ended: bool)
    modifies c
    ensures (c.Value(), ended) == Conclude(Attempted(old(c.Value()), result), step)
  {
    match result {
      case Some(truthy) =>
        c.stepStatus := c.stepStatus[step.id := Done];
        c.truths := SetTruth(c.truths, step.resultKey, truthy);
        c.MarkCompleted(step.id);
        return false;
      case None =>
        if step.degradeTruthy.Some? {
          c.stepStatus := c.stepStatus[step.id := Degraded];
          c.truths := SetTruth(c.truths, step.resultKey, step.degradeTruthy.value);
          c.MarkCompleted(step.id);
          return false;
        }
        c.stepStatus := c.stepStatus[step.id := Failed];
        c.MarkProcessed(step.id);
        if step.failFast {
          c.status := PlanFailed;
          c.pausedStep := Some(step.id);
          return true;
        }
        return false;
    }
  }

  lemma {:induction false} PropagateNext(s: State, ids: seq<Id>, k: nat, before: map<Id, StepStatus>, onlyFailed: bool)
    requires k < |ids|
    ensures var st := StatusIn(before, ids[k]); var rest := PropagateFrom(s, ids[..k], before, onlyFailed);
      PropagateFrom(s, ids[..k + 1], before, onlyFailed) ==
        if st == Failed || (!onlyFailed && IsFailedDependency(st)) then PlanState.PropagateFailure(rest, ids[k]) else rest
  {
    hide BlockEach;
    assert ids[..k + 1][..k] == ids[..k];
  }

  /** Propagates from every step that had failed, or also from blocked and cancelled ones. */
  method PropagateEvery(c: TaskContext, onlyFailed: bool)
    modifies c
    ensures c.Value() == PropagateFrom(old(c.Value()), IdsOf(c.steps), old(c.stepStatus), onlyFailed)
  {
    hide PlanState.PropagateFailure, PropagateFrom;
    ghost var start := c.Value();
    ghost var ids := IdsOf(c.steps);
    var before := c.stepStatus;
    IdsOfAt(c.steps);
    assert ids[..0] == [];
    PropagateFromNone(start, before, onlyFailed);
    for k := 0 to |c.steps|
      invariant c.Value() == PropagateFrom(start, ids[..k], before, onlyFailed)
    {
      var st := StatusIn(before, c.steps[k].id);
      PropagateNext(start, ids, k, before, onlyFailed);
      if st == Failed || (!onlyFailed && IsFailedDependency(st)) {
        var _ := PropagateFailure(c, c.steps[k].id);
      }
    }
    assert ids[..|ids|] == ids;
  }

  lemma {:induction false} PropagateFromNone(s: State, before: map<Id, StepStatus>, onlyFailed: bool)
    ensures PropagateFrom(s, [], before, onlyFailed) == s
  {
  }

  method HandleNothingReady(c: TaskContext)
    modifies c
    ensures c.Value() == NothingReady(old(c.Value()))
  {
    hide PropagateFrom, AllFinal, PlanState.AllDependenciesFailed;
    var final := c.AllStepsFinal();
    if final {
      c.status := PlanDone;
      return;
    }
    var failed := c.AllDependenciesFailed();
    if failed {
      c.status := PlanFailed;
      PropagateEvery(c, false);
    } else {
      c.status := PlanPaused;
      c.pausedReason := Some(WAITING_DEPENDENCIES);
    }
  }

  method RunUntilBlocked(c: TaskContext, exec: Executor, one: bool)
    modifies c
    ensures c.Value() == PlanState.RunUntilBlocked(old(c.Value()), exec, one)
  {
    hide Loop, Attempt, Conclude, NothingReady, OpenSteps, ReadyAmong, AllFinal, PlanState.MarkCompleted;
    if IsTerminal(c.status) {
      return;
    }
    c.RebuildDependencySatisfiedSet();
    c.status, c.pausedReason, c.pausedStep := PlanRunning, None, None;
    ghost var begin := c.Value();
    while true
      invariant Loop(c.Value(), exec, one) == Loop(begin, exec, one)
      decreases OpenSteps(c.Value())
    {
      var ready := c.GetReadySteps();
      LoopUnfold(c.Value(), exec, one);
      if ready == [] {
        HandleNothingReady(c);
        return;
      }
      var step := ready[0];
      if step.requireConsent && c.Status(step.id) != Ready {
        c.status, c.pausedReason, c.pausedStep := PlanPaused, Some(WAITING_CONSENT), Some(step.id);
        c.stepStatus := c.stepStatus[step.id := Blocked];
        return;
      }
      if !ConditionHolds(step, c.truths) {
        c.stepStatus := c.stepStatus[step.id := Skipped];
        c.MarkCompleted(step.id);
        continue;
      }
      var result := ExecuteWithRetry(c, step, exec, one);
      var ended := ConcludeStep(c, step, result);
      if ended {
        return;
      }
      if one {
        if c.Status(step.id) != Failed {
          var final := c.AllStepsFinal();
          if final {
            c.status := PlanDone;
          }
        }
        return;
      }
    }
  }

  // ----- the fallback chain

  method AdvanceFallback(c: TaskContext, step: Option<Id>) returns (advanced: bool)
    modifies c
    ensures advanced == (c.chain > 0 && old(c.chainIndex) + 1 < c.chain)
    ensures c.Value() == if advanced then Advance(old(c.Value()), step) else old(c.Value())
    ensures advanced ==> c.chainIndex == old(c.chainIndex) + 1 && c.routed && c.log == old(c.log) && c.satisfied == old(c.satisfied)
    ensures advanced ==>
      c.stepStatus == if step.Some? && step.value in old(c.stepStatus) then old(c.stepStatus)[step.value := Pending] else old(c.stepStatus)
  {
    if c.chain == 0 || c.chainIndex + 1 >= c.chain {
      return false;
    }
    c.chainIndex := c.chainIndex + 1;
    c.routed := true;
    if step.Some? && step.value in c.stepStatus {
      c.stepStatus := c.stepStatus[step.value := Pending];
      c.MarkProcessed(step.value);
    }
    return true;
  }

  method FindFailedStep(c: TaskContext) returns (failed: Option<Id>)
    ensures failed == FailedStep(c.Value())
  {
    if c.pausedStep.Some? && c.pausedStep.value != "" {
      return c.pausedStep;
    }
    for k := 0 to |c.steps|
      invariant FirstFailed(c.Value(), c.steps) == FirstFailed(c.Value(), c.steps[k..])
    {
      assert c.steps[k..][0] == c.steps[k] && c.steps[k..][1..] == c.steps[k + 1..];
      if c.Status(c.steps[k].id) == Failed {
        return Some(c.steps[k].id);
      }
    }
    return None;
  }

  /** The loop along the fallback chain in `execute_next`. */
  method FollowFallback(c: TaskContext, exec: Executor)
    modifies c
    ensures c.Value() == FallbackLoop(old(c.Value()), exec)
  {
    hide PlanState.RunUntilBlocked, FailedStep, FallbackLoop, Advance;
    ghost var start := c.Value();
    while c.status == PlanFailed && c.chain > 0
      invariant FallbackLoop(c.Value(), exec) == FallbackLoop(start, exec)
      decreases c.chain - c.chainIndex
    {
      FallbackUnfold(c.Value(), exec);
      var failed := FindFailedStep(c);
      if failed.None? {
        return;
      }
      var advanced := AdvanceFallback(c, failed);
      if !advanced {
        return;
      }
      c.status := PlanRunning;
      RunUntilBlocked(c, exec, true);
    }
    FallbackUnfold(c.Value(), exec);
  }

  lemma {:induction false} FallbackUnfold(s: State, exec: Executor)
    ensures if s.status != PlanFailed || FailedStep(s).None? || !CanAdvance(s) then FallbackLoop(s, exec) == s
      else
        var again := Advance(s, FailedStep(s)).(status := PlanRunning);
        && again.chainIndex == s.chainIndex + 1 && SameChain(again, PlanState.RunUntilBlocked(again, exec, true))
        && FallbackLoop(s, exec) == FallbackLoop(PlanState.RunUntilBlocked(again, exec, true), exec)
  {
    hide PlanState.RunUntilBlocked, FailedStep;
    if s.status == PlanFailed && FailedStep(s).Some? && CanAdvance(s) {
      RunKeepsChain(Advance(s, FailedStep(s)).(status := PlanRunning), exec, true);
    }
  }

  // ----- the orchestrator

  /** A plan is created exactly when its steps are valid, and then nothing has run. */
  method CreatePlan(list: seq<Step>, truths: set<string>, chain: nat) returns (plan: TaskContext?, error: Option<DagError>)
    ensures plan != null <==> error.None?
    ensures plan != null <==> DependenciesExist(AsDictionary(list)) && Acyclic(AsDictionary(list))
    ensures plan != null ==> fresh(plan) && plan.Value() == Create(AsDictionary(list), truths, chain)
    ensures error.Some? ==> IsFault(AsDictionary(list), error.value)
  {
    hide DependenciesExist, Acyclic, IsFault;
    var steps: Steps := [];
    assert list[..0] == [];
    for k := 0 to |list|
      invariant steps == AsDictionary(list[..k])
    {
      assert list[..k + 1][..k] == list[..k];
      steps := Put(steps, list[k]);
    }
    assert list[..|list|] == list;
    DictionaryDistinct(list);
    error := ValidateDag(steps);
    if error.Some? {
      return null, error;
    }
    plan := new TaskContext(Create(steps, truths, chain));
    assert SatisfiedSet([], Create(steps, truths, chain).stepStatus) == {};
  }

  lemma {:induction false} StatusValues(s: State, st: StepStatus)
    ensures st in s.stepStatus.Values <==> SomeStatus(s, st)
  {
  }

  lemma {:induction false} DoneValues(s: State)
    ensures s.stepStatus.Values == {Done} <==> AllDone(s)
  {
    if s.stepStatus.Values == {Done} {
      forall id | id in s.stepStatus
        ensures s.stepStatus[id] == Done
      {
        assert s.stepStatus[id] in s.stepStatus.Values;
      }
      assert Done in s.stepStatus.Values;
    }
    if AllDone(s) {
      var id :| id in s.stepStatus;
      assert s.stepStatus[id] in s.stepStatus.Values;
    }
  }

  method FinalizePlanStatus(c: TaskContext) returns (verdict: Option<Verdict>)
    modifies c
    ensures verdict == FinalVerdict(old(c.Value()))
    ensures c.Value() == Finalize(old(c.Value()))
  {
    hide SomeStatus, AllDone;
    if c.verdict.Some? {
      return None;
    }
    if c.status == PlanPaused && (c.pausedReason == Some(WAITING_CONSENT) || c.pausedReason == Some(HARD_GATE_BLOCKED)) {
      return None;
    }
    var statuses := c.stepStatus.Values;
    forall st
      ensures st in statuses <==> SomeStatus(c.Value(), st)
    {
      StatusValues(c.Value(), st);
    }
    DoneValues(c.Value());
    if Pending in statuses || Ready in statuses || Running in statuses {
      return None;
    }
    if statuses == {Done} {
      verdict := Some(Completed);
    } else if Blocked in statuses {
      if Failed !in statuses && Cancelled !in statuses {
        return None;
      }
      verdict := Some(Stopped);
    } else if Failed in statuses {
      verdict := Some(Broken);
    } else {
      return None;
    }
    c.verdict := verdict;
    c.status := if verdict == Some(Completed) then PlanDone else PlanFailed;
  }

  lemma {:induction false} UnblockFromNext(s: State, ids: seq<Id>, k: nat, now: map<Id, StepStatus>, before: map<Id, StepStatus>)
    requires k < |ids|
    ensures var rest := UnblockFrom(s, ids[..k], now, before);
      UnblockFrom(s, ids[..k + 1], now, before) ==
        if StatusIn(now, ids[k]) == Done && StatusIn(before, ids[k]) != Done then PlanState.PropagateUnblock(rest, ids[k]) else rest
  {
    hide UnblockEach;
    assert ids[..k + 1][..k] == ids[..k];
  }

  lemma {:induction false} UnblockFromNone(s: State, now: map<Id, StepStatus>, before: map<Id, StepStatus>)
    ensures UnblockFrom(s, [], now, before) == s
  {
  }

  /** Unblocks behind every step that was not done before and is now. */
  method PropagateUnblockEvents(c: TaskContext, previous: map<Id, StepStatus>)
    modifies c
    ensures c.Value() == UnblockFrom(old(c.Value()), IdsOf(c.steps), old(c.stepStatus), previous)
  {
    hide PlanState.PropagateUnblock, UnblockFrom;
    ghost var start := c.Value();
    ghost var ids := IdsOf(c.steps);
    var now := c.stepStatus;
    IdsOfAt(c.steps);
    assert ids[..0] == [];
    UnblockFromNone(start, now, previous);
    for k := 0 to |c.steps|
      invariant c.Value() == UnblockFrom(start, ids[..k], now, previous)
    {
      var id := c.steps[k].id;
      UnblockFromNext(start, ids, k, now, previous);
      if StatusIn(now, id) == Done && StatusIn(previous, id) != Done {
        var _ := PropagateUnblock(c, id);
      }
    }
    assert ids[..|ids|] == ids;
  }

  method ExecuteNext(c: TaskContext, exec: Executor, gateRefuses: bool)
    modifies c
    ensures c.Value() == PlanState.ExecuteNext(old(c.Value()), exec, gateRefuses)
    ensures old(c.verdict).Some? || old(c.status) == PlanDone || old(c.status) == PlanCancelled ==> c.Value() == old(c.Value())
    ensures old(c.verdict).None? && old(c.status) == PlanPaused && old(c.pausedReason) == Some("hard_gate_blocked") ==>
      c.Value() == old(c.Value())
    ensures gateRefuses && old(c.verdict).None? && old(c.status) in {PlanPending, PlanRunning} && ReadySteps(old(c.Value())) != [] ==>
      var id := ReadySteps(old(c.Value()))[0].id;
      && c.status == PlanPaused && c.pausedReason == Some("hard_gate_blocked") && c.pausedStep == Some(id)
      && c.stepStatus == old(c.stepStatus)[id := Blocked] && c.log == old(c.log)
  {
    hide PlanState.RunUntilBlocked, FallbackLoop, PropagateFrom, UnblockFrom, FinalVerdict, ReadyAmong;
    if c.verdict.Some? || c.status == PlanDone || c.status == PlanCancelled {
      return;
    }
    if c.status == PlanFailed {
      var verdict := FinalizePlanStatus(c);
      if verdict.Some? {
        return;
      }
      c.status := PlanRunning;
    }
    if c.status == PlanPaused && c.pausedReason == Some(HARD_GATE_BLOCKED) {
      return;
    }
    var ready := c.GetReadySteps();
    if gateRefuses && ready != [] {
      c.stepStatus := c.stepStatus[ready[0].id := Blocked];
      c.pausedReason, c.pausedStep := Some(HARD_GATE_BLOCKED), Some(ready[0].id);
      c.status := PlanPaused;
      return;
    }
    ScheduleOne(c, exec);
  }

  method ScheduleOne(c: TaskContext, exec: Executor)
    modifies c
    ensures c.Value() == ExecuteScheduled(old(c.Value()), exec)
  {
    hide PlanState.RunUntilBlocked, FallbackLoop, PropagateFrom, UnblockFrom, FinalVerdict;
    var previous := c.stepStatus;
    RunUntilBlocked(c, exec, true);
    FollowFallback(c, exec);
    PropagateEvery(c, true);
    PropagateUnblockEvents(c, previous);
    var _ := FinalizePlanStatus(c);
    if c.pausedReason == Some(WAITING_CONSENT) && c.pausedStep.Some? && c.pausedStep.value != "" {
      c.status := PlanPaused;
    }
  }

  method ResetStep(c: TaskContext, step: Step)
    modifies c
    ensures c.Value() == SetStatus(old(c.Value()), step.id, Pending).(
      truths := old(c.truths) - {step.resultKey}, processed := Without(old(c.processed), step.id))
  {
    hide Without;
    c.stepStatus := c.stepStatus[step.id := Pending];
    c.truths := c.truths - {step.resultKey};
    c.processed := Without(c.processed, step.id);
  }

  method RetryFailedStep(c: TaskContext, id: Id) returns (accepted: bool)
    modifies c
    ensures accepted <==> Find(c.steps, id).Some? && old(c.Status(id)) == Failed
    ensures c.Value() == if accepted then Retry(old(c.Value()), id) else old(c.Value())
    ensures accepted ==>
      && c.stepStatus == old(c.stepStatus)[id := Pending] && c.status == PlanRunning && c.verdict.None?
      && (forall x :: x in c.processed <==> x in old(c.processed) && x != id)
      && (forall x :: x in c.truths <==> x in old(c.truths) && x != Find(c.steps, id).value.resultKey)
      && c.pausedStep == (if old(c.pausedStep) == Some(id) then None else old(c.pausedStep))
      && c.log == old(c.log) && c.satisfied == old(c.satisfied)
  {
    hide Find, Without;
    forall x
      ensures x in Without(c.processed, id) <==> x in c.processed && x != id
    {
      WithoutIs(c.processed, id, x);
    }
    var step := Find(c.steps, id);
    if step.None? || c.Status(id) != Failed {
      return false;
    }
    ResetStep(c, step.value);
    if c.pausedStep == Some(id) {
      c.pausedReason, c.pausedStep := None, None;
    }
    c.status := PlanRunning;
    c.verdict := None;
    return true;
  }

  method RunPlan(c: TaskContext, exec: Executor)
    modifies c
    ensures c.Value() == Run(old(c.Value()), exec)
    decreases if c.routed then 0 else 1, c.chain - c.chainIndex
  {
    hide PlanState.RunUntilBlocked, FailedStep, FinalVerdict, Advance, Run;
    ghost var start := c.Value();
    RunUnfold(start, exec);
    if c.steps == [] {
      c.status := PlanDone;
      return;
    }
    if c.chain > 0 && !c.routed {
      c.routed := true;
      c.chainIndex := 0;
    }
    RunUntilBlocked(c, exec, false);
    if c.status == PlanFailed && c.chain > 0 {
      var failed := FindFailedStep(c);
      var advanced := AdvanceFallback(c, failed);
      if advanced {
        c.status := PlanRunning;
        RunPlan(c, exec);
        return;
      }
    }
    var verdict := FinalizePlanStatus(c);
    if verdict.None? && c.status == PlanFailed {
      c.status := PlanRunning;
    }
  }

  lemma {:induction false} RunUnfold(s: State, exec: Executor)
    ensures var r := Routed(s); var ran := PlanState.RunUntilBlocked(r, exec, false);
      if s.steps == [] then Run(s, exec) == s.(status := PlanDone)
      else
        && SameChain(r, ran)
        && (if ran.status == PlanFailed && CanAdvance(ran) then
              var again := Advance(ran, FailedStep(ran)).(status := PlanRunning);
              again.chainIndex == ran.chainIndex + 1 && again.routed && Run(s, exec) == Run(again, exec)
            else Run(s, exec) == Settle(ran))
  {
    hide PlanState.RunUntilBlocked, FailedStep, FinalVerdict;
    RunKeepsChain(Routed(s), exec, false);
  }

  /** `false` is the refusal to resume a plan that has ended. */
  method ResumePlan(c: TaskContext, granted: Option<bool>, exec: Executor) returns (accepted: bool)
    modifies c
    ensures accepted == !IsTerminal(old(c.status))
    ensures !accepted ==> c.Value() == old(c.Value())
    ensures accepted ==> c.Value() == Resume(old(c.Value()), granted, exec)
    ensures accepted && granted == Some(false) && old(c.status) == PlanPaused && old(c.pausedReason) == Some("waiting_consent")
            && old(c.pausedStep).Some? ==>
      c.stepStatus == old(c.stepStatus)[old(c.pausedStep.value) := Cancelled] && c.status == PlanCancelled && c.log == old(c.log)
  {
    hide Run;
    if IsTerminal(c.status) {
      return false;
    }
    if c.status == PlanPaused && c.pausedReason == Some(WAITING_CONSENT) && c.pausedStep.Some? {
      var id := c.pausedStep.value;
      if granted == Some(true) {
        c.stepStatus := c.stepStatus[id := Ready];
        c.pausedReason, c.pausedStep := None, None;
      } else if granted == Some(false) {
        c.stepStatus := c.stepStatus[id := Cancelled];
        c.MarkProcessed(id);
        c.status := PlanCancelled;
        return true;
      }
    }
    RunPlan(c, exec);
    return true;
  }

  method PausePlan(c: TaskContext, reason: string)
    modifies c
    ensures c.Value() == Pause(old(c.Value()), reason)
    ensures IsTerminal(old(c.status)) ==> c.Value() == old(c.Value())
    ensures !IsTerminal(old(c.status)) ==> c.status == PlanPaused && c.pausedReason == Some(reason) && c.pausedStep.None?
    ensures c.stepStatus == old(c.stepStatus) && c.processed == old(c.processed) && c.satisfied == old(c.satisfied)
    ensures c.verdict == old(c.verdict) && c.truths == old(c.truths) && c.log == old(c.log)
    ensures Core(old(c.Value())) ==> Core(c.Value())
  {
    hide Core;
    ghost var before := c.Value();
    if !IsTerminal(c.status) {
      c.status, c.pausedReason, c.pausedStep := PlanPaused, Some(reason), None;
    }
    PauseKeepsCore(before, reason);
  }

  method CancelPlan(c: TaskContext)
    modifies c
    ensures c.Value() == Cancel(old(c.Value()))
    ensures c.status == PlanCancelled && c.log == old(c.log) && c.satisfied == old(c.satisfied)
    ensures forall x :: x in c.steps ==>
      c.Status(x.id) == if old(c.Status(x.id)) in {Done, Failed, Skipped, Degraded, Cancelled} then old(c.Status(x.id)) else Cancelled
  {
    hide CancelEach;
    c.status := PlanCancelled;
    ghost var start := c.Value();
    ghost var ids := IdsOf(c.steps);
    IdsOfAt(c.steps);
    assert ids[..0] == [];
    CancelNone(start);
    for k := 0 to |c.steps|
      invariant c.Value() == CancelEach(start, ids[..k])
    {
      var id := c.steps[k].id;
      CancelNext(start, ids, k);
      if !IsFinal(c.Status(id)) {
        c.stepStatus := c.stepStatus[id := Cancelled];
        c.MarkProcessed(id);
      }
    }
    assert ids[..|ids|] == ids;
    CancelEachShifts(start, ids);
    CancelEachKeepsPause(start, ids);
    forall x | x in c.steps
      ensures x.id in ids && c.Status(x.id) == if IsFinal(StatusOf(start, x.id)) then StatusOf(start, x.id) else Cancelled
    {
      var k :| 0 <= k < |c.steps| && c.steps[k] == x;
      assert ids[k] == x.id;
      PlanFrontier.CancelledEach(start, ids, x.id);
    }
  }

  lemma {:induction false} CancelNone(s: State)
    ensures CancelEach(s, []) == s
  {
  }

  lemma {:induction false} CancelNext(s: State, ids: seq<Id>, k: nat)
    requires k < |ids|
    ensures var rest := CancelEach(s, ids[..k]);
      CancelEach(s, ids[..k + 1]) ==
        if IsFinal(StatusOf(rest, ids[k])) then rest else PlanState.MarkProcessed(SetStatus(rest, ids[k], Cancelled), ids[k])
  {
    assert ids[..k + 1][..k] == ids[..k];
  }

  /** What the consent gateway knows about a request. */
  datatype Answer = Unknown | Undecided | Decided(allowed: bool)

  /** `registered` is the identifier stored for the paused step, empty when there is none. */
  method ApplyConsentDecision(c: TaskContext, registered: string, request: string, answer: Answer) returns (accepted: bool)
    modifies c
    ensures accepted == (CanDecide(old(c.Value())) && registered == request && answer.Decided?)
    ensures c.Value() == if accepted then Decide(old(c.Value()), answer.allowed) else old(c.Value())
    ensures accepted ==> var id := old(c.pausedStep.value);
      && c.stepStatus == old(c.stepStatus)[id := if answer.allowed then Ready else Cancelled]
      && c.status == (if answer.allowed then PlanRunning else PlanCancelled)
      && (answer.allowed ==> c.pausedReason.None? && c.pausedStep.None? && c.processed == old(c.processed))
      && (!answer.allowed ==> id in c.processed)
      && c.log == old(c.log)
  {
    if c.pausedReason != Some(WAITING_CONSENT) || c.pausedStep.None? {
      return false;
    }
    if registered != request {
      return false;
    }
    if !answer.Decided? {
      return false;
    }
    var id := c.pausedStep.value;
    if answer.allowed {
      c.stepStatus := c.stepStatus[id := Ready];
      c.pausedReason, c.pausedStep := None, None;
      c.status := PlanRunning;
    } else {
      c.stepStatus := c.stepStatus[id := Cancelled];
      c.MarkProcessed(id);
      c.status := PlanCancelled;
    }
    return true;
  }
}
