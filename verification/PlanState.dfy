/** The value of a task context, and what the scheduler does to it.

    Every operation of the engine and of the orchestrator is a function from value to value
    here; the imperative form is proved equal to it in `PlanContext`. The step executor is an
    arbitrary sequence of outcomes, the nth call getting the nth one. */
module PlanState {
  import opened PlanDag
  import opened PlanWalk

  datatype StepStatus = Pending | Ready | Running | Done | Failed | Skipped | Degraded | Blocked | Cancelled

  datatype PlanStatus = PlanPending | PlanRunning | PlanPaused | PlanDone | PlanFailed | PlanCancelled

  // Reasons for a pause are plain strings; a caller that pauses a plan may give any.
  const WAITING_DEPENDENCIES := "waiting_dependencies"
  const WAITING_CONSENT := "waiting_consent"
  const HARD_GATE_BLOCKED := "hard_gate_blocked"
  const POST_VERIFICATION_FAILED := "post_verification_failed"

  /** The cached summary that ends a plan. */
  datatype Verdict = Completed | Broken | Stopped

  /** One call of the executor, with the statuses of the steps at that moment. */
  datatype Invocation = Invocation(id: Id, statuses: map<Id, StepStatus>)

  /** `truths` are the context variables whose value is truthy, all that scheduling asks of
      them. `chain` is the length of the fallback chain, zero when there is none. */
  datatype State = State(
    steps: Steps,
    stepStatus: map<Id, StepStatus>,
    processed: seq<Id>,
    satisfied: set<Id>,
    status: PlanStatus,
    verdict: Option<Verdict>,
    pausedReason: Option<string>,
    pausedStep: Option<Id>,
    truths: set<string>,
    chain: nat,
    chainIndex: nat,
    routed: bool,
    log: seq<Invocation>)

  datatype ErrorKind = Retryable | Permanent | Unverified

  datatype Outcome = Returned(truthy: bool, truths: set<string>) | Raised(kind: ErrorKind, truths: set<string>)

  type Executor = nat -> Outcome

  // ----- statuses

  predicate IsOpen(st: StepStatus) {
    st == Pending || st == Ready
  }

  predicate IsSatisfied(st: StepStatus) {
    st == Done || st == Skipped || st == Degraded
  }

  predicate IsFailedDependency(st: StepStatus) {
    st == Failed || st == Blocked || st == Cancelled
  }

  predicate IsFinal(st: StepStatus) {
    st == Done || st == Failed || st == Skipped || st == Degraded || st == Cancelled
  }

  predicate IsTerminal(st: PlanStatus) {
    st == PlanDone || st == PlanFailed || st == PlanCancelled
  }

  function StatusIn(statuses: map<Id, StepStatus>, id: Id): StepStatus {
    if id in statuses then statuses[id] else Pending
  }

  function StatusOf(s: State, id: Id): StepStatus {
    StatusIn(s.stepStatus, id)
  }

  // ----- the context

  function SetStatus(s: State, id: Id, st: StepStatus): State {
    s.(stepStatus := s.stepStatus[id := st])
  }

  function MarkProcessed(s: State, id: Id): State {
    if id in s.processed then s else s.(processed := s.processed + [id])
  }

  function MarkSatisfied(s: State, id: Id): State {
    MarkProcessed(s, id).(satisfied := s.satisfied + {id})
  }

  function MarkCompleted(s: State, id: Id): State {
    if IsSatisfied(StatusOf(s, id)) then MarkSatisfied(s, id) else MarkProcessed(s, id)
  }

  function SatisfiedSet(processed: seq<Id>, statuses: map<Id, StepStatus>): set<Id> {
    set id | id in processed && IsSatisfied(StatusIn(statuses, id))
  }

  function Rebuild(s: State): State {
    s.(satisfied := SatisfiedSet(s.processed, s.stepStatus))
  }

  predicate IsReady(s: State, step: Step) {
    IsOpen(StatusOf(s, step.id)) && forall k :: 0 <= k < |step.dependsOn| ==> step.dependsOn[k] in s.satisfied
  }

  function ReadyAmong(s: State, steps: Steps): (ready: seq<Step>)
    ensures forall x :: x in ready <==> x in steps && IsReady(s, x)
  {
    if steps == [] then []
    else (if IsReady(s, steps[0]) then [steps[0]] else []) + ReadyAmong(s, steps[1..])
  }

  function ReadySteps(s: State): seq<Step> {
    ReadyAmong(s, s.steps)
  }

  predicate HasFailedDependency(s: State, dependencies: seq<Id>) {
    exists k :: 0 <= k < |dependencies| && IsFailedDependency(StatusOf(s, dependencies[k]))
  }

  function DependenciesOf(s: State, id: Id): seq<Id> {
    match Find(s.steps, id)
    case Some(step) => step.dependsOn
    case None => []
  }

  predicate AllFinal(s: State) {
    forall k :: 0 <= k < |s.steps| ==> IsFinal(StatusOf(s, s.steps[k].id))
  }

  predicate AllDependenciesFailed(s: State) {
    && !AllFinal(s)
    && forall k :: 0 <= k < |s.steps| && !IsFinal(StatusOf(s, s.steps[k].id)) ==>
         HasFailedDependency(s, s.steps[k].dependsOn)
  }

  // ----- propagation

  function Block(s: State, id: Id): State {
    if IsOpen(StatusOf(s, id)) then MarkProcessed(SetStatus(s, id, Blocked), id) else s
  }

  function BlockEach(s: State, ids: seq<Id>): State {
    if ids == [] then s else Block(BlockEach(s, ids[..|ids| - 1]), ids[|ids| - 1])
  }

  /** Blocks the open steps downstream of a failed one. */
  ghost function PropagateFailure(s: State, id: Id): State {
    BlockEach(s, Downstream(s.steps, id))
  }

  function Without(ids: seq<Id>, id: Id): seq<Id> {
    if ids == [] then [] else (if ids[0] == id then [] else [ids[0]]) + Without(ids[1..], id)
  }

  predicate Unblockable(s: State, id: Id) {
    StatusOf(s, id) == Blocked && !HasFailedDependency(s, DependenciesOf(s, id))
  }

  function Unblock(s: State, id: Id): State {
    if Unblockable(s, id) then SetStatus(s, id, Pending).(processed := Without(s.processed, id)) else s
  }

  function UnblockEach(s: State, ids: seq<Id>): State {
    if ids == [] then s else Unblock(UnblockEach(s, ids[..|ids| - 1]), ids[|ids| - 1])
  }

  /** Reopens blocked steps downstream of a finished one. */
  ghost function PropagateUnblock(s: State, id: Id): State {
    UnblockEach(s, Downstream(s.steps, id))
  }

  function IdsOf(steps: Steps): seq<Id> {
    if steps == [] then [] else [steps[0].id] + IdsOf(steps[1..])
  }

  lemma {:induction false} IdsOfAt(steps: Steps)
    ensures |IdsOf(steps)| == |steps| && forall k :: 0 <= k < |steps| ==> IdsOf(steps)[k] == steps[k].id
  {
    if steps == [] {
    } else {
      IdsOfAt(steps[1..]);
    }
  }

  /** Propagates from every listed step whose status, looked up beforehand, asks for it. */
  ghost function PropagateFrom(s: State, ids: seq<Id>, before: map<Id, StepStatus>, onlyFailed: bool): State {
    if ids == [] then s
    else
      var id := ids[|ids| - 1];
      var rest := PropagateFrom(s, ids[..|ids| - 1], before, onlyFailed);
      var st := StatusIn(before, id);
      if st == Failed || (!onlyFailed && IsFailedDependency(st)) then PropagateFailure(rest, id) else rest
  }

  /** Unblocks after every listed step that is done now and was not before. */
  ghost function UnblockFrom(s: State, ids: seq<Id>, now: map<Id, StepStatus>, before: map<Id, StepStatus>): State {
    if ids == [] then s
    else
      var id := ids[|ids| - 1];
      var rest := UnblockFrom(s, ids[..|ids| - 1], now, before);
      if StatusIn(now, id) == Done && StatusIn(before, id) != Done then PropagateUnblock(rest, id) else rest
  }

  // ----- running

  predicate ConditionHolds(step: Step, truths: set<string>) {
    step.conditionKey == "" || step.conditionKey in truths
  }

  function SetTruth(truths: set<string>, key: string, truthy: bool): set<string> {
    if truthy then truths + {key} else truths - {key}
  }

  /** A result is a truth value, an error is `None`. */
  datatype Attempted = Attempted(state: State, result: Option<bool>)

  function Invoked(s: State, id: Id): State {
    var running := SetStatus(s, id, Running);
    running.(log := s.log + [Invocation(id, running.stepStatus)])
  }

  /** `quality` is the executor of `execute_next`, which notes a failed check of the result. */
  function AfterError(s: State, id: Id, kind: ErrorKind, quality: bool): State {
    if quality && kind == Unverified then s.(pausedReason := Some(POST_VERIFICATION_FAILED), pausedStep := Some(id)) else s
  }

  /** The attempts at a step after the first `attempts` of them. */
  function Attempt(s: State, step: Step, exec: Executor, attempts: nat, quality: bool): Attempted
    decreases step.retryMax - attempts
  {
    if attempts > step.retryMax then Attempted(s, None)
    else
      var running := Invoked(s, step.id);
      match exec(|s.log|)
      case Returned(truthy, truths) => Attempted(running.(truths := truths), Some(truthy))
      case Raised(kind, truths) =>
        var raised := AfterError(running.(truths := truths), step.id, kind, quality);
        if attempts + 1 >= step.retryMax || kind != Retryable then Attempted(raised, None)
        else Attempt(raised, step, exec, attempts + 1, quality)
  }

  /** A step leaves the schedule with a status that satisfies its dependents. */
  function Satisfy(s: State, id: Id, st: StepStatus): State {
    MarkCompleted(SetStatus(s, id, st), id)
  }

  function Resulted(s: State, step: Step, st: StepStatus, truthy: bool): State {
    Satisfy(s.(truths := SetTruth(s.truths, step.resultKey, truthy)), step.id, st)
  }

  function DoneIfFinal(s: State): State {
    if AllFinal(s) then s.(status := PlanDone) else s
  }

  ghost function NothingReady(s: State): State {
    if AllFinal(s) then s.(status := PlanDone)
    else if AllDependenciesFailed(s) then
      PropagateFrom(s.(status := PlanFailed), IdsOf(s.steps), s.stepStatus, false)
    else s.(status := PlanPaused, pausedReason := Some(WAITING_DEPENDENCIES))
  }

  function AskConsent(s: State, id: Id): State {
    SetStatus(s, id, Blocked).(status := PlanPaused, pausedReason := Some(WAITING_CONSENT), pausedStep := Some(id))
  }

  /** What becomes of the step after its attempts; `true` if the loop ends for good. */
  function Conclude(a: Attempted, step: Step): (State, bool) {
    match a.result
    case Some(truthy) => (Resulted(a.state, step, Done, truthy), false)
    case None =>
      if step.degradeTruthy.Some? then (Resulted(a.state, step, Degraded, step.degradeTruthy.value), false)
      else
        var failed := MarkProcessed(SetStatus(a.state, step.id, Failed), step.id);
        if step.failFast then (failed.(status := PlanFailed, pausedStep := Some(step.id)), true)
        else (failed, false)
  }

  /** With `max_steps` at one the loop ends after an execution. */
  function AfterOne(s: State, id: Id): State {
    if StatusOf(s, id) == Failed then s else DoneIfFinal(s)
  }

  function OpenSteps(s: State): set<Id> {
    set k | 0 <= k < |s.steps| && IsOpen(StatusOf(s, s.steps[k].id)) :: s.steps[k].id
  }

  /** One pass through the loop of `run_until_blocked`. */
  datatype Turn = Stop(state: State) | Continue(state: State)

  function ExecutedTurn(a: Attempted, step: Step, one: bool): Turn {
    var (after, ended) := Conclude(a, step);
    if ended then Stop(after) else if one then Stop(AfterOne(after, step.id)) else Continue(after)
  }

  function StepTurn(s: State, step: Step, exec: Executor, one: bool): Turn {
    if step.requireConsent && StatusOf(s, step.id) != Ready then Stop(AskConsent(s, step.id))
    else if !ConditionHolds(step, s.truths) then Continue(Satisfy(s, step.id, Skipped))
    else ExecutedTurn(Attempt(s, step, exec, 0, one), step, one)
  }

  ghost function TakeTurn(s: State, exec: Executor, one: bool): Turn {
    if ReadySteps(s) == [] then Stop(NothingReady(s)) else StepTurn(s, ReadySteps(s)[0], exec, one)
  }

  /** The loop of `run_until_blocked`; `one` is `max_steps = 1`. */
  ghost function Loop(s: State, exec: Executor, one: bool): State
    decreases OpenSteps(s)
  {
    match TakeTurn(s, exec, one)
    case Stop(t) => t
    case Continue(t) =>
      TurnProgress(s, exec, one);
      Loop(t, exec, one)
  }

  lemma {:induction false} LoopUnfold(s: State, exec: Executor, one: bool)
    ensures var turn := TakeTurn(s, exec, one);
      if turn.Stop? then Loop(s, exec, one) == turn.state
      else OpenSteps(turn.state) < OpenSteps(s) && Loop(s, exec, one) == Loop(turn.state, exec, one)
  {
    hide TakeTurn, OpenSteps;
    if TakeTurn(s, exec, one).Continue? {
      TurnProgress(s, exec, one);
    }
  }

  lemma {:induction false} TurnProgress(s: State, exec: Executor, one: bool)
    requires TakeTurn(s, exec, one).Continue?
    ensures OpenSteps(TakeTurn(s, exec, one).state) < OpenSteps(s)
  {
    hide StepTurn, ReadySteps, OpenSteps;
    var step := ReadySteps(s)[0];
    StepTurnFrame(s, step, exec, one);
    FewerOpen(s, StepTurn(s, step, exec, one).state, step);
  }

  lemma {:induction false} FewerOpen(s: State, after: State, step: Step)
    requires step in ReadySteps(s) && after.steps == s.steps && !IsOpen(StatusOf(after, step.id))
    requires forall id :: id != step.id ==> StatusOf(after, id) == StatusOf(s, id)
    ensures OpenSteps(after) < OpenSteps(s)
  {
    assert step in s.steps && IsReady(s, step);
    assert step.id in OpenSteps(s) && step.id !in OpenSteps(after);
    forall id | id in OpenSteps(after)
      ensures id in OpenSteps(s)
    {
    }
  }

  /** The log grew by calls for `id`, made while only its own status had changed. */
  ghost predicate LogGrows(s: State, t: State, id: Id) {
    && s.log <= t.log
    && forall k :: |s.log| <= k < |t.log| ==> t.log[k] == Invocation(id, s.stepStatus[id := Running])
  }

  /** What attempts at a step may change. */
  lemma {:induction false} AttemptFrame(s: State, step: Step, exec: Executor, attempts: nat, quality: bool)
    ensures var a := Attempt(s, step, exec, attempts, quality).state;
      && a == s.(stepStatus := a.stepStatus, truths := a.truths, log := a.log, pausedReason := a.pausedReason, pausedStep := a.pausedStep)
      && a.stepStatus == (if attempts > step.retryMax then s.stepStatus else s.stepStatus[step.id := Running])
      && LogGrows(s, a, step.id)
      && ((a.pausedStep == s.pausedStep && a.pausedReason == s.pausedReason)
          || (a.pausedStep == Some(step.id) && a.pausedReason == Some(POST_VERIFICATION_FAILED)))
    decreases step.retryMax - attempts
  {
    if attempts <= step.retryMax {
      var running := Invoked(s, step.id);
      match exec(|s.log|) {
        case Returned(_, _) =>
        case Raised(kind, truths) =>
          var raised := AfterError(running.(truths := truths), step.id, kind, quality);
          AttemptFrame(raised, step, exec, attempts + 1, quality);
          SetAgain(s.stepStatus, step.id, Running, Running);
      }
    }
  }

  lemma {:induction false} SetAgain(m: map<Id, StepStatus>, id: Id, a: StepStatus, b: StepStatus)
    ensures m[id := a][id := b] == m[id := b]
  {
  }

  function ProcessedWith(processed: seq<Id>, id: Id): seq<Id> {
    if id in processed then processed else processed + [id]
  }

  /** What one pass may change when a step is ready. */
  lemma {:induction false} StepTurnFrame(s: State, step: Step, exec: Executor, one: bool)
    ensures var t := StepTurn(s, step, exec, one).state; var st := StatusOf(t, step.id);
      && t == s.(stepStatus := s.stepStatus[step.id := st], processed := t.processed, satisfied := t.satisfied,
                 truths := t.truths, log := t.log, status := t.status, pausedReason := t.pausedReason, pausedStep := t.pausedStep)
      && (st == Blocked || st == Skipped || st == Done || st == Degraded || st == Failed)
      && t.processed == (if st == Blocked then s.processed else ProcessedWith(s.processed, step.id))
      && t.satisfied == (if IsSatisfied(st) then s.satisfied + {step.id} else s.satisfied)
      && LogGrows(s, t, step.id)
  {
    hide Attempt;
    if !(step.requireConsent && StatusOf(s, step.id) != Ready) && ConditionHolds(step, s.truths) {
      var a := Attempt(s, step, exec, 0, one);
      AttemptFrame(s, step, exec, 0, one);
      ConcludeFrame(s, a, step);
      SetAgain(s.stepStatus, step.id, Running, StatusOf(Conclude(a, step).0, step.id));
    }
  }

  /** How a pass ends: it goes on as before, waits for consent, fails, or just stops. */
  lemma {:induction false} StepTurnEnds(s: State, step: Step, exec: Executor, one: bool)
    ensures var turn := StepTurn(s, step, exec, one); var t := turn.state;
      if turn.Continue? then t.status == s.status && t.pausedReason == s.pausedReason && t.pausedStep == s.pausedStep
      else
        || (t.status == PlanPaused && t.pausedReason == Some(WAITING_CONSENT) && t.pausedStep == Some(step.id)
            && StatusOf(t, step.id) == Blocked && step.requireConsent && t.log == s.log)
        || ((t.pausedReason == s.pausedReason || t.pausedReason == Some(POST_VERIFICATION_FAILED))
            && (t.status == s.status || (t.status == PlanDone && AllFinal(t))
                || (t.status == PlanFailed && t.pausedStep == Some(step.id) && StatusOf(t, step.id) == Failed)))
  {
    hide Attempt, Conclude, Satisfy;
    AttemptFrame(s, step, exec, 0, one);
    if !one {
      AttemptKeepsPause(s, step, exec, 0);
    }
    ConcludeEnds(Attempt(s, step, exec, 0, one), step);
    SatisfyFrame(s, step.id, Skipped);
  }

  lemma {:induction false} ConcludeEnds(a: Attempted, step: Step)
    ensures var (t, ended) := Conclude(a, step);
      && t.pausedReason == a.state.pausedReason
      && (if ended then t.status == PlanFailed && t.pausedStep == Some(step.id) && StatusOf(t, step.id) == Failed
          else t.status == a.state.status && t.pausedStep == a.state.pausedStep)
  {
    hide MarkCompleted;
    match a.result {
      case Some(truthy) =>
        SatisfyFrame(a.state.(truths := SetTruth(a.state.truths, step.resultKey, truthy)), step.id, Done);
      case None =>
        if step.degradeTruthy.Some? {
          SatisfyFrame(a.state.(truths := SetTruth(a.state.truths, step.resultKey, step.degradeTruthy.value)), step.id, Degraded);
        }
    }
  }

  lemma {:induction false} AttemptKeepsPause(s: State, step: Step, exec: Executor, attempts: nat)
    ensures var a := Attempt(s, step, exec, attempts, false).state;
      a.pausedReason == s.pausedReason && a.pausedStep == s.pausedStep
    decreases step.retryMax - attempts
  {
    if attempts <= step.retryMax {
      match exec(|s.log|) {
        case Returned(_, _) =>
        case Raised(kind, truths) =>
          AttemptKeepsPause(AfterError(Invoked(s, step.id).(truths := truths), step.id, kind, false), step, exec, attempts + 1);
      }
    }
  }

  lemma {:induction false} ConcludeFrame(s: State, a: Attempted, step: Step)
    ensures var t := Conclude(a, step).0; var st := StatusOf(t, step.id);
      && t == a.state.(stepStatus := a.state.stepStatus[step.id := st], processed := t.processed, satisfied := t.satisfied,
                       truths := t.truths, status := t.status, pausedStep := t.pausedStep)
      && (st == Done || st == Degraded || st == Failed)
      && t.processed == ProcessedWith(a.state.processed, step.id)
      && t.satisfied == (if IsSatisfied(st) then a.state.satisfied + {step.id} else a.state.satisfied)
  {
    hide Satisfy, MarkProcessed;
    var id := step.id;
    match a.result {
      case Some(truthy) =>
        SatisfyFrame(a.state.(truths := SetTruth(a.state.truths, step.resultKey, truthy)), id, Done);
      case None =>
        if step.degradeTruthy.Some? {
          SatisfyFrame(a.state.(truths := SetTruth(a.state.truths, step.resultKey, step.degradeTruthy.value)), id, Degraded);
        } else {
          ProcessedFrame(SetStatus(a.state, id, Failed), id);
        }
    }
  }

  lemma {:induction false} ProcessedFrame(s: State, id: Id)
    ensures MarkProcessed(s, id) == s.(processed := ProcessedWith(s.processed, id))
  {
  }

  lemma {:induction false} SatisfyFrame(s: State, id: Id, st: StepStatus)
    requires IsSatisfied(st)
    ensures Satisfy(s, id, st) ==
      s.(stepStatus := s.stepStatus[id := st], processed := ProcessedWith(s.processed, id), satisfied := s.satisfied + {id})
  {
  }

  ghost function RunUntilBlocked(s: State, exec: Executor, one: bool): State {
    if IsTerminal(s.status) then s
    else Loop(Rebuild(s).(status := PlanRunning, pausedReason := None, pausedStep := None), exec, one)
  }

  // ----- fallback chain

  predicate CanAdvance(s: State) {
    s.chain > 0 && s.chainIndex + 1 < s.chain
  }

  function Advance(s: State, id: Option<Id>): State
    requires CanAdvance(s)
  {
    var moved := s.(chainIndex := s.chainIndex + 1, routed := true);
    if id.Some? && id.value in s.stepStatus then MarkProcessed(SetStatus(moved, id.value, Pending), id.value)
    else moved
  }

  function FirstFailed(s: State, steps: Steps): Option<Id> {
    if steps == [] then None
    else if StatusOf(s, steps[0].id) == Failed then Some(steps[0].id)
    else FirstFailed(s, steps[1..])
  }

  /** An empty identifier counts as none. */
  function FailedStep(s: State): Option<Id> {
    if s.pausedStep.Some? && s.pausedStep.value != "" then s.pausedStep else FirstFailed(s, s.steps)
  }

  ghost function FallbackLoop(s: State, exec: Executor): State
    decreases s.chain - s.chainIndex
  {
    if s.status != PlanFailed || FailedStep(s).None? || !CanAdvance(s) then s
    else
      var again := Advance(s, FailedStep(s)).(status := PlanRunning);
      RunKeepsChain(again, exec, true);
      FallbackLoop(RunUntilBlocked(again, exec, true), exec)
  }

  ghost predicate SameChain(s: State, t: State) {
    s.steps == t.steps && s.chain == t.chain && s.chainIndex == t.chainIndex && s.routed == t.routed
  }

  lemma {:induction false} RunKeepsChain(s: State, exec: Executor, one: bool)
    ensures SameChain(s, RunUntilBlocked(s, exec, one))
  {
    hide Loop;
    if !IsTerminal(s.status) {
      LoopKeepsChain(Rebuild(s).(status := PlanRunning, pausedReason := None, pausedStep := None), exec, one);
    }
  }

  lemma {:induction false} BlockEachKeepsChain(s: State, ids: seq<Id>)
    ensures SameChain(s, BlockEach(s, ids))
  {
    if ids == [] {
    } else {
      BlockEachKeepsChain(s, ids[..|ids| - 1]);
    }
  }

  lemma {:induction false} PropagateKeepsChain(s: State, ids: seq<Id>, before: map<Id, StepStatus>, onlyFailed: bool)
    ensures SameChain(s, PropagateFrom(s, ids, before, onlyFailed))
  {
    hide BlockEach;
    if ids == [] {
    } else {
      var rest := PropagateFrom(s, ids[..|ids| - 1], before, onlyFailed);
      PropagateKeepsChain(s, ids[..|ids| - 1], before, onlyFailed);
      BlockEachKeepsChain(rest, Downstream(rest.steps, ids[|ids| - 1]));
    }
  }

  lemma {:induction false} TurnKeepsChain(s: State, exec: Executor, one: bool)
    ensures SameChain(s, TakeTurn(s, exec, one).state)
  {
    hide StepTurn, PropagateFrom, ReadySteps, LogGrows;
    if ReadySteps(s) == [] {
      PropagateKeepsChain(s.(status := PlanFailed), IdsOf(s.steps), s.stepStatus, false);
    } else {
      StepTurnFrame(s, ReadySteps(s)[0], exec, one);
    }
  }

  lemma {:induction false} LoopKeepsChain(s: State, exec: Executor, one: bool)
    ensures SameChain(s, Loop(s, exec, one))
    decreases OpenSteps(s)
  {
    hide TakeTurn, Loop, OpenSteps;
    LoopUnfold(s, exec, one);
    TurnKeepsChain(s, exec, one);
    if TakeTurn(s, exec, one).Continue? {
      LoopKeepsChain(TakeTurn(s, exec, one).state, exec, one);
    }
  }

  // ----- verdicts

  ghost predicate SomeStatus(s: State, st: StepStatus) {
    exists id :: id in s.stepStatus && s.stepStatus[id] == st
  }

  ghost predicate AnyOpenOrRunning(s: State) {
    SomeStatus(s, Pending) || SomeStatus(s, Ready) || SomeStatus(s, Running)
  }

  ghost predicate AllDone(s: State) {
    s.stepStatus != map[] && forall id :: id in s.stepStatus ==> s.stepStatus[id] == Done
  }

  /** The verdict that finalizing caches, if any. */
  ghost function FinalVerdict(s: State): Option<Verdict> {
    if s.verdict.Some? then None
    else if s.status == PlanPaused && (s.pausedReason == Some(WAITING_CONSENT) || s.pausedReason == Some(HARD_GATE_BLOCKED)) then None
    else if AnyOpenOrRunning(s) then None
    else if AllDone(s) then Some(Completed)
    else if SomeStatus(s, Blocked) then
      if SomeStatus(s, Failed) || SomeStatus(s, Cancelled) then Some(Stopped) else None
    else if SomeStatus(s, Failed) then Some(Broken)
    else None
  }

  ghost function Finalize(s: State): State {
    match FinalVerdict(s)
    case None => s
    case Some(v) => s.(verdict := Some(v), status := if v == Completed then PlanDone else PlanFailed)
  }

  // ----- the orchestrator

  function Create(steps: Steps, truths: set<string>, chain: nat): State {
    State(steps, map k | 0 <= k < |steps| :: steps[k].id := Pending, [], {}, PlanPending, None, None, None,
          truths, chain, 0, false, [])
  }

  function GateBlock(s: State, id: Id): State {
    SetStatus(s, id, Blocked).(status := PlanPaused, pausedReason := Some(HARD_GATE_BLOCKED), pausedStep := Some(id))
  }

  function ConsentPause(s: State): State {
    if s.pausedReason == Some(WAITING_CONSENT) && s.pausedStep.Some? && s.pausedStep.value != "" then
      s.(status := PlanPaused)
    else s
  }

  /** One scheduled step and its consequences. */
  ghost function ExecuteScheduled(s: State, exec: Executor): State {
    var ran := FallbackLoop(RunUntilBlocked(s, exec, true), exec);
    var blocked := PropagateFrom(ran, IdsOf(ran.steps), ran.stepStatus, true);
    var unblocked := UnblockFrom(blocked, IdsOf(blocked.steps), blocked.stepStatus, s.stepStatus);
    ConsentPause(Finalize(unblocked))
  }

  function Reopened(s: State): State {
    if s.status == PlanFailed then s.(status := PlanRunning) else s
  }

  /** `gateRefuses` is what the hard gate would answer for the first ready step. */
  ghost function ExecuteNext(s: State, exec: Executor, gateRefuses: bool): State {
    if s.verdict.Some? || s.status == PlanDone || s.status == PlanCancelled then s
    else if s.status == PlanFailed && FinalVerdict(s).Some? then Finalize(s)
    else
      var r := Reopened(s);
      if r.status == PlanPaused && r.pausedReason == Some(HARD_GATE_BLOCKED) then r
      else if gateRefuses && ReadySteps(r) != [] then GateBlock(r, ReadySteps(r)[0].id)
      else ExecuteScheduled(r, exec)
  }

  predicate CanRetry(s: State, id: Id) {
    Find(s.steps, id).Some? && StatusOf(s, id) == Failed
  }

  function Retry(s: State, id: Id): State
    requires CanRetry(s, id)
  {
    var t := SetStatus(s, id, Pending).(
      truths := s.truths - {Find(s.steps, id).value.resultKey},
      processed := Without(s.processed, id),
      status := PlanRunning,
      verdict := None);
    if s.pausedStep == Some(id) then t.(pausedReason := None, pausedStep := None) else t
  }

  function Routed(s: State): State {
    if s.chain > 0 && !s.routed then s.(routed := true, chainIndex := 0) else s
  }

  /** `_run`: to the end, along the fallback chain. */
  ghost function Run(s: State, exec: Executor): State
    decreases if s.routed then 0 else 1, s.chain - s.chainIndex
  {
    if s.steps == [] then s.(status := PlanDone)
    else
      var r := Routed(s);
      var ran := RunUntilBlocked(r, exec, false);
      RunKeepsChain(r, exec, false);
      if ran.status == PlanFailed && CanAdvance(ran) then
        Run(Advance(ran, FailedStep(ran)).(status := PlanRunning), exec)
      else
        Settle(ran)
  }

  /** A failure without a verdict is reopened. */
  ghost function Settle(s: State): State {
    if FinalVerdict(s).Some? then Finalize(s) else Reopened(s)
  }

  function Refuse(s: State, id: Id): State {
    MarkProcessed(SetStatus(s, id, Cancelled), id).(status := PlanCancelled)
  }

  function WaitsForConsent(s: State): Option<Id> {
    if s.status == PlanPaused && s.pausedReason == Some(WAITING_CONSENT) then s.pausedStep else None
  }

  /** A terminal plan cannot be resumed. */
  ghost function Resume(s: State, granted: Option<bool>, exec: Executor): State
    requires !IsTerminal(s.status)
  {
    match (WaitsForConsent(s), granted)
    case (Some(id), Some(true)) => Run(SetStatus(s, id, Ready).(pausedReason := None, pausedStep := None), exec)
    case (Some(id), Some(false)) => Refuse(s, id)
    case _ => Run(s, exec)
  }

  function Pause(s: State, text: string): State {
    if IsTerminal(s.status) then s
    else s.(status := PlanPaused, pausedReason := Some(text), pausedStep := None)
  }

  function CancelEach(s: State, ids: seq<Id>): State {
    if ids == [] then s
    else
      var rest := CancelEach(s, ids[..|ids| - 1]);
      var id := ids[|ids| - 1];
      if IsFinal(StatusOf(rest, id)) then rest else MarkProcessed(SetStatus(rest, id, Cancelled), id)
  }

  function Cancel(s: State): State {
    CancelEach(s.(status := PlanCancelled), IdsOf(s.steps))
  }

  predicate CanDecide(s: State) {
    s.pausedReason == Some(WAITING_CONSENT) && s.pausedStep.Some?
  }

  /** A decision on the pending consent request. */
  function Decide(s: State, allowed: bool): State
    requires CanDecide(s)
  {
    var id := s.pausedStep.value;
    if allowed then SetStatus(s, id, Ready).(pausedReason := None, pausedStep := None, status := PlanRunning)
    else Refuse(s, id)
  }
}
