/** Concrete plans on which the scheduler falls short. */
module PlanFaults {
  import opened PlanDag
  import opened PlanWalk
  import opened PlanState
  import opened PlanSafety
  import opened PlanRuns
  import opened PlanFrontier
  import opened PlanProgress
  import opened PlanStuck

  // ----- a retried step that is skipped

  const FIRST := Step("a", "x", [], "go", 0, None, false, false)
  const SECOND := Step("b", "y", ["a"], "", 0, None, false, true)
  const PAIR: Steps := [FIRST, SECOND]

  /** Every call fails for good, and the condition of the first step no longer holds. */
  const REFUSING: Executor := n => Raised(Permanent, {})

  function PairState(a: StepStatus, b: StepStatus, processed: seq<Id>, satisfied: set<Id>, status: PlanStatus,
                     verdict: Option<Verdict>, reason: Option<string>, truths: set<string>, log: seq<Invocation>): State {
    State(PAIR, map["a" := a, "b" := b], processed, satisfied, status, verdict, reason, None, truths, 0, 0, false, log)
  }

  lemma {:induction false} PairDependencies(x: Id, d: Id)
    ensures DependsOn(PAIR, x, d) <==> x == "b" && d == "a"
  {
    if DependsOn(PAIR, x, d) {
      var i :| 0 <= i < |PAIR| && PAIR[i].id == x && d in PAIR[i].dependsOn;
    }
    assert PAIR[1].id == "b" && "a" in PAIR[1].dependsOn;
  }

  lemma {:induction false} PairAcyclic()
    ensures DistinctIds(PAIR) && DependenciesExist(PAIR) && Acyclic(PAIR) && NoConsent(PAIR) && Ids(PAIR) == {"a", "b"}
  {
    assert PAIR[0].id == "a" && PAIR[1].id == "b";
    forall path
      ensures !IsCycle(PAIR, path)
    {
      if |path| > 1 {
        PairDependencies(path[0], path[1]);
        PairDependencies(path[|path| - 2], path[|path| - 1]);
      }
    }
    forall x, d | DependsOn(PAIR, x, d)
      ensures d in Ids(PAIR)
    {
      PairDependencies(x, d);
    }
  }

  lemma {:induction false} PairReady(s: State)
    requires s.steps == PAIR
    ensures ReadySteps(s) == (if IsReady(s, FIRST) then [FIRST] else []) + (if IsReady(s, SECOND) then [SECOND] else [])
  {
    hide IsReady;
    assert PAIR[1..] == [SECOND];
    assert [SECOND][1..] == [];
    assert ReadyAmong(s, []) == [];
    assert ReadyAmong(s, [SECOND]) == (if IsReady(s, SECOND) then [SECOND] else []) + ReadyAmong(s, []);
    assert ReadyAmong(s, PAIR) == (if IsReady(s, FIRST) then [FIRST] else []) + ReadyAmong(s, [SECOND]);
  }

  lemma {:induction false} PairFinal(s: State)
    requires s.steps == PAIR
    ensures AllFinal(s) <==> IsFinal(StatusOf(s, "a")) && IsFinal(StatusOf(s, "b"))
  {
    assert PAIR[0].id == "a" && PAIR[1].id == "b";
  }

  const CALL := Invocation("a", map["a" := Running, "b" := Pending])

  /** The first step runs and fails. */
  lemma {:induction false} FirstRun()
    ensures RunUntilBlocked(PairState(Pending, Pending, [], {}, PlanPending, None, None, {"go"}, []), REFUSING, true) ==
            PairState(Failed, Pending, ["a"], {}, PlanRunning, None, None, {}, [CALL])
  {
    hide Loop, ReadyAmong;
    var s := PairState(Pending, Pending, [], {}, PlanPending, None, None, {"go"}, []);
    var begin := s.(status := PlanRunning);
    assert Rebuild(s).satisfied == {};
    PairReady(begin);
    LoopUnfold(begin, REFUSING, true);
    FirstAttempt(begin);
  }

  lemma {:induction false} FirstAttempt(s: State)
    requires s == PairState(Pending, Pending, [], {}, PlanRunning, None, None, {"go"}, [])
    ensures StepTurn(s, FIRST, REFUSING, true) == Stop(PairState(Failed, Pending, ["a"], {}, PlanRunning, None, None, {}, [CALL]))
  {
    assert map["a" := Pending, "b" := Pending]["a" := Running] == map["a" := Running, "b" := Pending];
    assert map["a" := Running, "b" := Pending]["a" := Failed] == map["a" := Failed, "b" := Pending];
  }

  lemma {:induction false} PairIds()
    ensures IdsOf(PAIR) == ["a", "b"]
  {
    assert PAIR[1..] == [SECOND] && [SECOND][1..] == [];
    assert IdsOf([]) == [] && IdsOf([SECOND]) == ["b"] + IdsOf([]);
  }

  /** Its failure blocks the second step and stops the plan. */
  lemma {:induction false} FirstCall()
    ensures ExecuteNext(PairState(Pending, Pending, [], {}, PlanPending, None, None, {"go"}, []), REFUSING, false) ==
            PairState(Failed, Blocked, ["a", "b"], {}, PlanFailed, Some(Stopped), None, {}, [CALL])
  {
    hide RunUntilBlocked, FallbackLoop, PropagateFrom, UnblockFrom, ReadyAmong, AllDone, SomeStatus;
    var first := PairState(Failed, Pending, ["a"], {}, PlanRunning, None, None, {}, [CALL]);
    FirstRun();
    NoFallback(first, REFUSING);
    PairIds();
    PairPropagates(first);
    var marked := PairState(Failed, Blocked, ["a", "b"], {}, PlanRunning, None, None, {}, [CALL]);
    assert marked.stepStatus["a"] == Failed && marked.stepStatus["b"] == Blocked;
    NothingDone(marked, ["a", "b"], map["a" := Pending, "b" := Pending]);
    PairFailed(marked);
    NotAllDone(marked);
  }

  lemma {:induction false} PairFailed(s: State)
    requires s.stepStatus == map["a" := Failed, "b" := Blocked]
    ensures SomeStatus(s, Blocked) && SomeStatus(s, Failed) && !AnyOpenOrRunning(s)
  {
    assert s.stepStatus["a"] == Failed && s.stepStatus["b"] == Blocked;
  }

  lemma {:induction false} PairPropagates(first: State)
    requires first == PairState(Failed, Pending, ["a"], {}, PlanRunning, None, None, {}, [CALL])
    ensures PropagateFrom(first, ["a", "b"], first.stepStatus, true) ==
            PairState(Failed, Blocked, ["a", "b"], {}, PlanRunning, None, None, {}, [CALL])
  {
    hide BlockEach, Downstream;
    assert ["a", "b"][..1] == ["a"] && ["a"][..0] == [];
    assert PropagateFrom(first, [], first.stepStatus, true) == first;
    assert PropagateFrom(first, ["a"], first.stepStatus, true) == PropagateFailure(first, "a");
    assert PropagateFrom(first, ["a", "b"], first.stepStatus, true) == PropagateFailure(first, "a");
    PairDownstream();
    BlockOne(first);
  }

  lemma {:induction false} PairDownstream()
    ensures Downstream(PAIR, "a") == ["b"]
  {
    assert PAIR[1..] == [SECOND] && [SECOND][1..] == [];
    assert Successors([], "a") == [] && Successors([], "b") == [];
    assert Entries([], "a", "a") == [] && Entries([], "a", "b") == [] && Entries([], "b", "a") == [];
    assert ["a"][1..] == [];
    assert Entries(["a"], "a", "b") == ["b"] && Entries(["a"], "b", "b") == [];
    assert Successors([SECOND], "a") == ["b"] && Successors([SECOND], "b") == [];
    assert Successors(PAIR, "a") == ["b"] && Successors(PAIR, "b") == [];
    WalkUnfold(PAIR, ["b"], {}) by {
      SuccessorsAreSteps(PAIR, "a");
    }
    assert ["b"][1..] + [] == [];
    WalkEmpty(PAIR, {"b"});
  }

  lemma {:induction false} BlockOne(first: State)
    requires first == PairState(Failed, Pending, ["a"], {}, PlanRunning, None, None, {}, [CALL])
    ensures BlockEach(first, ["b"]) == PairState(Failed, Blocked, ["a", "b"], {}, PlanRunning, None, None, {}, [CALL])
  {
    assert ["b"][..0] == [] && BlockEach(first, []) == first;
    assert map["a" := Failed, "b" := Pending]["b" := Blocked] == map["a" := Failed, "b" := Blocked];
  }

  lemma {:induction false} NothingDone(s: State, ids: seq<Id>, before: map<Id, StepStatus>)
    requires forall id :: id in ids ==> StatusOf(s, id) != Done
    ensures UnblockFrom(s, ids, s.stepStatus, before) == s
  {
    hide UnblockEach;
    if ids == [] {
    } else {
      NothingDone(s, ids[..|ids| - 1], before);
      assert StatusOf(s, ids[|ids| - 1]) != Done;
    }
  }

  /** The retried step is skipped, and the step that its failure blocked is not reopened. */
  lemma {:induction false} SecondCall(s: State)
    requires s == PairState(Pending, Blocked, ["b"], {}, PlanRunning, None, None, {}, [CALL])
    ensures ExecuteNext(s, REFUSING, false) ==
            PairState(Skipped, Blocked, ["b", "a"], {"a"}, PlanPaused, None, Some(WAITING_DEPENDENCIES), {}, [CALL])
  {
    hide RunUntilBlocked, FallbackLoop, PropagateFrom, UnblockFrom, ReadyAmong, SomeStatus, AllDone;
    var ran := PairState(Skipped, Blocked, ["b", "a"], {"a"}, PlanPaused, None, Some(WAITING_DEPENDENCIES), {}, [CALL]);
    SecondRun(s);
    NoFallback(ran, REFUSING);
    assert ran.stepStatus["b"] == Blocked && ran.stepStatus["a"] == Skipped;
    PairStatuses(ran);
    NothingToPropagate(ran, IdsOf(PAIR));
    PairIds();
    NothingDone(ran, IdsOf(PAIR), s.stepStatus);
    NotAllDone(ran);
  }

  lemma {:induction false} PairStatuses(s: State)
    requires s.stepStatus == map["a" := Skipped, "b" := Blocked]
    ensures SomeStatus(s, Blocked) && !SomeStatus(s, Failed) && !SomeStatus(s, Cancelled)
    ensures !AnyOpenOrRunning(s)
  {
    assert "b" in s.stepStatus && s.stepStatus["b"] == Blocked;
  }

  lemma {:induction false} SecondRun(s: State)
    requires s == PairState(Pending, Blocked, ["b"], {}, PlanRunning, None, None, {}, [CALL])
    ensures RunUntilBlocked(s, REFUSING, true) ==
            PairState(Skipped, Blocked, ["b", "a"], {"a"}, PlanPaused, None, Some(WAITING_DEPENDENCIES), {}, [CALL])
  {
    hide Loop, ReadyAmong, StepTurn, AllFinal, AllDependenciesFailed, OpenSteps, PropagateFrom;
    assert Rebuild(s).satisfied == {};
    PairReady(s);
    LoopUnfold(s, REFUSING, true);
    var next := PairState(Skipped, Blocked, ["b", "a"], {"a"}, PlanRunning, None, None, {}, [CALL]);
    SkipFirst(s);
    PairReady(next);
    LoopUnfold(next, REFUSING, true);
    PairFinal(next);
    SecondWaits(next);
  }

  lemma {:induction false} SkipFirst(s: State)
    requires s == PairState(Pending, Blocked, ["b"], {}, PlanRunning, None, None, {}, [CALL])
    ensures StepTurn(s, FIRST, REFUSING, true) ==
            Continue(PairState(Skipped, Blocked, ["b", "a"], {"a"}, PlanRunning, None, None, {}, [CALL]))
  {
    assert map["a" := Pending, "b" := Blocked]["a" := Skipped] == map["a" := Skipped, "b" := Blocked];
  }

  lemma {:induction false} SecondWaits(s: State)
    requires s == PairState(Skipped, Blocked, ["b", "a"], {"a"}, PlanRunning, None, None, {}, [CALL])
    ensures !AllDependenciesFailed(s)
  {
    assert PAIR[1] == SECOND && SECOND.dependsOn == ["a"];
    assert !HasFailedDependency(s, SECOND.dependsOn);
    assert !IsFinal(StatusOf(s, PAIR[1].id));
  }

  lemma {:induction false} PairRetry(s: State)
    requires s == PairState(Failed, Blocked, ["a", "b"], {}, PlanFailed, Some(Stopped), None, {}, [CALL])
    ensures CanRetry(s, "a")
    ensures Retry(s, "a") == PairState(Pending, Blocked, ["b"], {}, PlanRunning, None, None, {}, [CALL])
  {
    assert map["a" := Failed, "b" := Blocked]["a" := Pending] == map["a" := Pending, "b" := Blocked];
    assert ["a", "b"][1..] == ["b"] && ["b"][1..] == [];
    assert Without([], "a") == [] && Without(["b"], "a") == ["b"];
  }

  function RetriedThenSkipped(): seq<Operation> {
    [ExecuteNextStep(REFUSING, false), RetryStep("a"), ExecuteNextStep(REFUSING, false)]
  }

  lemma {:induction false} PairEnds()
    ensures ApplyAll(Create(PAIR, {"go"}, 0), RetriedThenSkipped()) ==
            PairState(Skipped, Blocked, ["b", "a"], {"a"}, PlanPaused, None, Some(WAITING_DEPENDENCIES), {}, [CALL])
  {
    hide ExecuteNext, Retry, CanRetry, Create;
    PairCreated();
    FirstCall();
    PairRetry(PairState(Failed, Blocked, ["a", "b"], {}, PlanFailed, Some(Stopped), None, {}, [CALL]));
    SecondCall(PairState(Pending, Blocked, ["b"], {}, PlanRunning, None, None, {}, [CALL]));
    ThreeOperations(Create(PAIR, {"go"}, 0), RetriedThenSkipped());
  }

  /** A valid plan of two steps: the first fails, is retried and then skipped. The second, blocked
      by the failure, waits for ever behind a dependency that is satisfied. */
  lemma {:induction false} RetryStrands()
    ensures DistinctIds(PAIR) && DependenciesExist(PAIR) && Acyclic(PAIR) && NoConsent(PAIR)
    ensures var end := ApplyAll(Create(PAIR, {"go"}, 0), RetriedThenSkipped());
      Hopeless(end) && StatusOf(end, "b") == Blocked && IsSatisfied(StatusOf(end, "a"))
  {
    hide ApplyAll, Core, Create, Held, RetriedThenSkipped, DependsOn, Acyclic, DistinctIds, DependenciesExist;
    var end := PairState(Skipped, Blocked, ["b", "a"], {"a"}, PlanPaused, None, Some(WAITING_DEPENDENCIES), {}, [CALL]);
    PairAcyclic();
    PairEnds();
    CreatedIsSafe(PAIR, {"go"}, 0);
    RunsSafely(Create(PAIR, {"go"}, 0), RetriedThenSkipped());
    SafelyIs(Create(PAIR, {"go"}, 0), end);
    PairStatuses(end);
    PairClosed(end);
  }

  lemma {:induction false} PairClosed(end: State)
    requires end == PairState(Skipped, Blocked, ["b", "a"], {"a"}, PlanPaused, None, Some(WAITING_DEPENDENCIES), {}, [CALL])
    ensures OpenSteps(end) == {} && NoneRunning(end) && end.stepStatus.Keys == {"a", "b"}
  {
  }

  lemma {:induction false} ThreeOperations(s: State, ops: seq<Operation>)
    requires |ops| == 3
    ensures ApplyAll(s, ops) == Apply(Apply(Apply(s, ops[0]), ops[1]), ops[2])
  {
    hide Apply;
    assert ops[..2][..1] == ops[..1] && ops[..1][..0] == [];
    assert ApplyAll(s, []) == s;
    assert ApplyAll(s, ops[..1]) == Apply(s, ops[0]);
    assert ApplyAll(s, ops[..2]) == Apply(Apply(s, ops[0]), ops[1]);
  }

  lemma {:induction false} PairCreated()
    ensures Create(PAIR, {"go"}, 0) == PairState(Pending, Pending, [], {}, PlanPending, None, None, {"go"}, [])
  {
    assert PAIR[0].id == "a" && PAIR[1].id == "b";
    assert (map k | 0 <= k < |PAIR| :: PAIR[k].id := Pending) == map["a" := Pending, "b" := Pending];
  }
}
