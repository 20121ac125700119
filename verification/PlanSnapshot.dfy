/** Snapshots of a task context: statuses become strings, the cached set is not stored. */
module PlanSnapshot {
  import opened PlanDag
  import opened PlanState

  /** A stored step. Older snapshots may lack the dependencies and may have the condition under
      another key. */
  datatype StoredStep = StoredStep(
    id: Id,
    resultKey: string,
    dependsOn: Option<seq<Id>>,
    conditionKey: Option<string>,
    conditionExpr: Option<string>,
    retryMax: int,
    degradeTruthy: Option<bool>,
    requireConsent: bool,
    failFast: bool)

  datatype Snapshot = Snapshot(
    steps: seq<StoredStep>,
    stepStatus: map<Id, string>,
    processed: Option<seq<Id>>,
    completed: Option<seq<Id>>,
    status: string,
    planStatus: Option<string>,
    pausedReason: Option<string>,
    pausedStep: Option<Id>,
    truths: set<string>,
    chain: nat,
    chainIndex: nat,
    routed: bool,
    log: seq<Invocation>)

  function StepStatusValue(st: StepStatus): string {
    match st
    case Pending => "pending"
    case Ready => "ready"
    case Running => "running"
    case Done => "done"
    case Failed => "failed"
    case Skipped => "skipped"
    case Degraded => "degraded"
    case Blocked => "blocked"
    case Cancelled => "cancelled"
  }

  function StepStatusFrom(value: string): Option<StepStatus> {
    if value == "pending" then Some(Pending)
    else if value == "ready" then Some(Ready)
    else if value == "running" then Some(Running)
    else if value == "done" then Some(Done)
    else if value == "failed" then Some(Failed)
    else if value == "skipped" then Some(Skipped)
    else if value == "degraded" then Some(Degraded)
    else if value == "blocked" then Some(Blocked)
    else if value == "cancelled" then Some(Cancelled)
    else None
  }

  function PlanStatusValue(st: PlanStatus): string {
    match st
    case PlanPending => "pending"
    case PlanRunning => "running"
    case PlanPaused => "paused"
    case PlanDone => "done"
    case PlanFailed => "failed"
    case PlanCancelled => "cancelled"
  }

  function PlanStatusFrom(value: string): Option<PlanStatus> {
    if value == "pending" then Some(PlanPending)
    else if value == "running" then Some(PlanRunning)
    else if value == "paused" then Some(PlanPaused)
    else if value == "done" then Some(PlanDone)
    else if value == "failed" then Some(PlanFailed)
    else if value == "cancelled" then Some(PlanCancelled)
    else None
  }

  function VerdictValue(v: Option<Verdict>): Option<string> {
    match v
    case None => None
    case Some(Completed) => Some("completed")
    case Some(Broken) => Some("failed")
    case Some(Stopped) => Some("blocked")
  }

  /** Any other text leaves the plan without a verdict. */
  function VerdictFrom(value: Option<string>): Option<Verdict> {
    if value == Some("completed") then Some(Completed)
    else if value == Some("failed") then Some(Broken)
    else if value == Some("blocked") then Some(Stopped)
    else None
  }

  function StepToDict(step: Step): StoredStep {
    StoredStep(step.id, step.resultKey, Some(step.dependsOn), Some(step.conditionKey), None,
               step.retryMax, step.degradeTruthy, step.requireConsent, step.failFast)
  }

  /** Both keys at once leave an argument that no step takes. */
  predicate IsStep(stored: StoredStep) {
    stored.conditionKey.None? || stored.conditionExpr.None?
  }

  function StepFromDict(stored: StoredStep): Step
    requires IsStep(stored)
  {
    var dependsOn := if stored.dependsOn.Some? then stored.dependsOn.value else [];
    var condition := if stored.conditionKey.Some? then stored.conditionKey.value
                     else if stored.conditionExpr.Some? then stored.conditionExpr.value else "";
    Step(stored.id, stored.resultKey, dependsOn, condition, stored.retryMax, stored.degradeTruthy, stored.requireConsent, stored.failFast)
  }

  predicate AreSteps(stored: seq<StoredStep>) {
    forall k :: 0 <= k < |stored| ==> IsStep(stored[k])
  }

  function StepsFromDict(stored: seq<StoredStep>): Steps
    requires AreSteps(stored)
  {
    seq(|stored|, k requires 0 <= k < |stored| => StepFromDict(stored[k]))
  }

  function Serialize(s: State): Snapshot {
    Snapshot(
      seq(|s.steps|, k requires 0 <= k < |s.steps| => StepToDict(s.steps[k])),
      map id | id in s.stepStatus :: StepStatusValue(s.stepStatus[id]),
      Some(s.processed),
      None,
      PlanStatusValue(s.status),
      VerdictValue(s.verdict),
      s.pausedReason, s.pausedStep, s.truths, s.chain, s.chainIndex, s.routed, s.log)
  }

  predicate KnownStatuses(values: map<Id, string>) {
    forall id :: id in values ==> StepStatusFrom(values[id]).Some?
  }

  function StatusesFrom(values: map<Id, string>): map<Id, StepStatus>
    requires KnownStatuses(values)
  {
    map id | id in values :: StepStatusFrom(values[id]).value
  }

  /** Older snapshots list the processed steps under another key. */
  function ProcessedFrom(p: Snapshot): seq<Id> {
    if p.processed.Some? then p.processed.value else if p.completed.Some? then p.completed.value else []
  }

  /** `None` is the error for an unknown status or for a step with both condition keys. */
  function Deserialize(p: Snapshot): Option<State> {
    if AreSteps(p.steps) && KnownStatuses(p.stepStatus) && PlanStatusFrom(p.status).Some? then
      var statuses := StatusesFrom(p.stepStatus);
      Some(State(StepsFromDict(p.steps), statuses, ProcessedFrom(p), SatisfiedSet(ProcessedFrom(p), statuses),
                 PlanStatusFrom(p.status).value, VerdictFrom(p.planStatus), p.pausedReason, p.pausedStep,
                 p.truths, p.chain, p.chainIndex, p.routed, p.log))
    else None
  }

  lemma {:induction false} StepStatusRoundTrip(st: StepStatus)
    ensures StepStatusFrom(StepStatusValue(st)) == Some(st)
  {
    match st
    case Pending =>
    case Ready =>
    case Running =>
    case Done =>
    case Failed =>
    case Skipped =>
    case Degraded =>
    case Blocked =>
    case Cancelled =>
  }

  lemma {:induction false} PlanStatusRoundTrip(st: PlanStatus)
    ensures PlanStatusFrom(PlanStatusValue(st)) == Some(st)
  {
    match st
    case PlanPending =>
    case PlanRunning =>
    case PlanPaused =>
    case PlanDone =>
    case PlanFailed =>
    case PlanCancelled =>
  }

  lemma {:induction false} VerdictRoundTrip(v: Option<Verdict>)
    ensures VerdictFrom(VerdictValue(v)) == v
  {
    match v
    case None =>
    case Some(Completed) =>
    case Some(Broken) =>
    case Some(Stopped) =>
  }

  /** Loading what was saved only looks the satisfied steps up again. */
  lemma {:induction false} RestoredIsRebuilt(s: State)
    ensures Deserialize(Serialize(s)) == Some(Rebuild(s))
  {
    hide StepStatusFrom, StepStatusValue, PlanStatusFrom, PlanStatusValue, VerdictFrom, VerdictValue;
    var values := Serialize(s).stepStatus;
    assert StepsFromDict(Serialize(s).steps) == s.steps;
    forall id | id in s.stepStatus
      ensures StepStatusFrom(values[id]) == Some(s.stepStatus[id])
    {
      StepStatusRoundTrip(s.stepStatus[id]);
    }
    assert StatusesFrom(values) == s.stepStatus;
    PlanStatusRoundTrip(s.status);
    VerdictRoundTrip(s.verdict);
  }

  /** A context survives saving and loading exactly when its cached set is the one that
      looking the processed steps up gives. */
  lemma {:induction false} RoundTripIff(s: State)
    ensures Deserialize(Serialize(s)) == Some(s) <==> s.satisfied == SatisfiedSet(s.processed, s.stepStatus)
  {
    RestoredIsRebuilt(s);
  }

  /** The same step under the older keys. */
  function OlderStep(stored: StoredStep): StoredStep {
    stored.(conditionKey := None, conditionExpr := stored.conditionKey,
            dependsOn := if stored.dependsOn == Some([]) then None else stored.dependsOn)
  }

  function Older(p: Snapshot): Snapshot {
    p.(steps := seq(|p.steps|, k requires 0 <= k < |p.steps| => OlderStep(p.steps[k])), processed := None, completed := p.processed)
  }

  /** A snapshot in the older form loads as the newer one does. */
  lemma {:induction false} OlderLoadsAlike(s: State)
    ensures Deserialize(Older(Serialize(s))) == Some(Rebuild(s))
  {
    hide StepStatusFrom, StepStatusValue, PlanStatusFrom, PlanStatusValue, VerdictFrom, VerdictValue, SatisfiedSet, KnownStatuses;
    RestoredIsRebuilt(s);
    assert StepsFromDict(Older(Serialize(s)).steps) == s.steps;
  }
}
