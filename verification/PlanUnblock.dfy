/** Which plans one pass of unblocking serves completely. */
module PlanUnblock {
  import opened PlanDag
  import opened PlanWalk
  import opened PlanState
  import opened PlanSafety
  import opened PlanRuns
  import opened PlanFrontier
  import opened PlanProgress
  import opened PlanStuck
  import opened PlanCalls
  import opened PlanSteer

  /** After the pass every step downstream that is still blocked has a dependency that will not
      come. */
  ghost predicate Unblocks(s: State, done: Id) {
    var t := PropagateUnblock(s, done);
    forall id :: id in Downstream(s.steps, done) && StatusOf(t, id) == Blocked ==> Behind(t, id)
  }

  /** The walk meets every step after its dependencies. */
  ghost predicate WalkInOrder(steps: Steps, done: Id) {
    var walk := Downstream(steps, done);
    forall k, j :: 0 <= k <= j < |walk| ==> !DependsOn(steps, walk[k], walk[j])
  }

  // ----- in order, the pass is complete

  lemma {:induction false} UnblockEachJoin(s: State, a: seq<Id>, b: seq<Id>)
    ensures UnblockEach(s, a + b) == UnblockEach(UnblockEach(s, a), b)
    decreases |b|
  {
    hide Unblock;
    if b == [] {
      assert a + b == a;
    } else {
      UnblockEachJoin(s, a, b[..|b| - 1]);
      assert (a + b)[..|a + b| - 1] == a + b[..|b| - 1];
    }
  }

  lemma {:induction false} BehindIff(s: State, id: Id)
    requires DistinctIds(s.steps)
    ensures Behind(s, id) <==> HasFailedDependency(s, DependenciesOf(s, id))
  {
    hide DependsOn, DistinctIds;
    var dependencies := DependenciesOf(s, id);
    if Behind(s, id) {
      var d :| DependsOn(s.steps, id, d) && IsFailedDependency(StatusOf(s, d));
      DependenciesAre(s, id, d);
      NoneFailed(s, dependencies, d);
    }
    if HasFailedDependency(s, dependencies) {
      var k :| 0 <= k < |dependencies| && IsFailedDependency(StatusOf(s, dependencies[k]));
      FoundDependencies(s.steps, id);
      assert dependencies[k] in dependencies;
    }
  }

  lemma {:induction false} StillBehind(s: State, ids: seq<Id>, id: Id, d: Id)
    requires DependsOn(s.steps, id, d) && IsFailedDependency(StatusOf(s, d)) && d !in ids
    ensures Behind(UnblockEach(s, ids), id)
  {
    hide DependsOn, UnblockEach;
    UnblockedEach(s, ids, d);
    UnblockEachKeepsSteps(s, ids);
  }

  lemma {:induction false} InOrderUnblocks(s: State, done: Id)
    requires DistinctIds(s.steps) && WalkInOrder(s.steps, done)
    ensures Unblocks(s, done)
  {
    hide DependsOn, Downstream, UnblockEach, DistinctIds, Behind;
    var walk := Downstream(s.steps, done);
    var t := UnblockEach(s, walk);
    forall id | id in walk && StatusOf(t, id) == Blocked
      ensures Behind(t, id)
    {
      var k :| 0 <= k < |walk| && walk[k] == id;
      var before, rest := UnblockEach(s, walk[..k]), walk[k + 1..];
      SplitAt(s, walk, k);
      UnblockEachKeepsSteps(s, walk[..k]);
      StaysBlocked(before, id, rest);
      BehindIff(before, id);
      var d := FailedWitness(before, id);
      forall j | 0 <= j < |rest|
        ensures rest[j] != d
      {
        assert rest[j] == walk[k + 1 + j];
        assert !DependsOn(s.steps, walk[k], walk[k + 1 + j]);
      }
      StillBehind(before, rest, id, d);
    }
  }

  lemma {:induction false} FailedWitness(s: State, id: Id) returns (d: Id)
    requires Behind(s, id)
    ensures DependsOn(s.steps, id, d) && IsFailedDependency(StatusOf(s, d))
  {
    hide DependsOn;
    d :| DependsOn(s.steps, id, d) && IsFailedDependency(StatusOf(s, d));
  }

  lemma {:induction false} SplitAt(s: State, walk: seq<Id>, k: nat)
    requires k < |walk|
    ensures UnblockEach(s, walk) == UnblockEach(Unblock(UnblockEach(s, walk[..k]), walk[k]), walk[k + 1..])
  {
    hide Unblock, UnblockEach;
    assert walk == walk[..k] + ([walk[k]] + walk[k + 1..]);
    UnblockEachJoin(s, walk[..k], [walk[k]] + walk[k + 1..]);
    UnblockEachJoin(UnblockEach(s, walk[..k]), [walk[k]], walk[k + 1..]);
    UnblockSingle(UnblockEach(s, walk[..k]), walk[k]);
  }

  lemma {:induction false} UnblockSingle(s: State, id: Id)
    ensures UnblockEach(s, [id]) == Unblock(s, id)
  {
    hide Unblock;
    assert [id][..0] == [];
    assert UnblockEach(s, []) == s;
  }

  /** A step that is blocked at the end was not unblockable at its turn. */
  lemma {:induction false} StaysBlocked(before: State, id: Id, rest: seq<Id>)
    requires StatusOf(UnblockEach(Unblock(before, id), rest), id) == Blocked
    ensures HasFailedDependency(before, DependenciesOf(before, id)) && Unblock(before, id) == before
  {
    hide UnblockEach, HasFailedDependency, DependenciesOf, Without;
    UnblockedEach(Unblock(before, id), rest, id);
  }

  // ----- out of order, some state is left incomplete

  lemma {:induction false} WalkIsFresh(steps: Steps, queue: seq<Id>, visited: set<Id>)
    requires AllSteps(steps, queue)
    ensures var walk := Walk(steps, queue, visited);
      && (forall k :: 0 <= k < |walk| ==> walk[k] !in visited)
      && AllDistinct(walk)
    decreases Ids(steps) - visited, |queue|
  {
    hide Walk, Successors, Ids;
    if queue == [] {
      WalkEmpty(steps, visited);
    } else {
      WalkUnfold(steps, queue, visited);
      if queue[0] in visited {
        WalkIsFresh(steps, queue[1..], visited);
      } else {
        var rest, marked := queue[1..] + Successors(steps, queue[0]), visited + {queue[0]};
        WalkIsFresh(steps, rest, marked);
        var tail := Walk(steps, rest, marked);
        assert forall k :: 0 <= k < |tail| ==> tail[k] !in marked;
      }
    }
  }

  lemma {:induction false} NoMutual(steps: Steps, a: Id, b: Id)
    requires Acyclic(steps) && DependsOn(steps, a, b)
    ensures a != b && !DependsOn(steps, b, a) && !DependsOn(steps, b, b) && !DependsOn(steps, a, a)
  {
    hide DependsOn;
    assert DependsOn(steps, b, a) ==> IsCycle(steps, [a, b, a]);
    assert DependsOn(steps, b, b) ==> IsCycle(steps, [b, b]);
    assert DependsOn(steps, a, a) ==> IsCycle(steps, [a, a]);
    assert a == b ==> IsCycle(steps, [a, b]);
  }

  lemma {:induction false} DownstreamIsFresh(steps: Steps, done: Id)
    ensures AllDistinct(Downstream(steps, done))
  {
    hide Walk;
    SuccessorsAreSteps(steps, done);
    WalkIsFresh(steps, Successors(steps, done), {});
    assert Downstream(steps, done) == Walk(steps, Successors(steps, done), {});
  }

  lemma {:induction false} OnceOnly(walk: seq<Id>, k: nat, j: nat)
    requires k < j < |walk| && AllDistinct(walk)
    ensures walk[k] !in walk[..k] && walk[j] !in walk[..k] && walk[k] !in walk[k + 1..]
  {
  }

  /** Among blocked steps, one that is met before a dependency of its own is passed over. */
  lemma {:induction false} PassMisses(s: State, done: Id, k: nat, j: nat)
    requires DistinctIds(s.steps) && Acyclic(s.steps)
    requires k <= j < |Downstream(s.steps, done)|
    requires DependsOn(s.steps, Downstream(s.steps, done)[k], Downstream(s.steps, done)[j])
    requires forall id :: id in Downstream(s.steps, done) ==> StatusOf(s, id) == Blocked
    ensures StatusOf(PropagateUnblock(s, done), Downstream(s.steps, done)[k]) == Blocked
  {
    hide DependsOn, Downstream, UnblockEach, DistinctIds, Acyclic, Behind, DependenciesOf, HasFailedDependency;
    var walk := Downstream(s.steps, done);
    var a, b := walk[k], walk[j];
    NoMutual(s.steps, a, b);
    DownstreamIsFresh(s.steps, done);
    OnceOnly(walk, k, j);
    var before := UnblockEach(s, walk[..k]);
    SplitAt(s, walk, k);
    UnblockEachKeepsSteps(s, walk[..k]);
    UnblockedEach(s, walk[..k], a);
    UnblockedEach(s, walk[..k], b);
    IsBehind(before, a, b);
    BehindIff(before, a);
    assert Unblock(before, a) == before;
    UnblockedEach(before, walk[k + 1..], a);
  }

  lemma {:induction false} IsBehind(s: State, a: Id, b: Id)
    requires DependsOn(s.steps, a, b) && IsFailedDependency(StatusOf(s, b))
    ensures Behind(s, a)
  {
    hide DependsOn;
  }

  // ----- over whole runs

  /** Every step downstream that is blocked after the call stands directly behind a failure. */
  ghost predicate ServesAll(t: State, done: Id) {
    forall id :: id in Downstream(t.steps, done) && StatusOf(t, id) == Blocked ==> Behind(t, id)
  }

  /** Whenever a call of a run finishes the step, its pass serves all. */
  ghost predicate AlwaysServes(steps: Steps, done: Id) {
    forall truths, ops, exec: Executor :: AllDriven(ops) ==>
      var s := ApplyAll(Create(steps, truths, 0), ops);
      var t := ExecuteNext(s, exec, false);
      NewlyDone(s, t, done) ==> ServesAll(t, done)
  }

  lemma {:induction false} SameBehind(u: State, t: State, id: Id)
    requires t.steps == u.steps && t.stepStatus == u.stepStatus
    ensures Behind(t, id) <==> Behind(u, id)
    ensures StatusOf(t, id) == StatusOf(u, id)
  {
    hide DependsOn;
    assert forall x :: StatusOf(t, x) == StatusOf(u, x);
  }

  lemma {:induction false} InOrderServes(s: State, exec: Executor, done: Id)
    requires Steady(s) && WalkInOrder(s.steps, done) && NewlyDone(s, ExecuteNext(s, exec, false), done)
    ensures ServesAll(ExecuteNext(s, exec, false), done)
  {
    hide Steady, ExecuteScheduled, FinalVerdict, WalkInOrder, Downstream, Behind, PropagateFrom, UnblockEach, Resting, Core, Acyclic, Ran,
      FailedCanFail, FirstRun;
    SteadyIs(s);
    SteadyFails(s);
    var t := ExecuteNext(s, exec, false);
    assert Runs(s);
    var x := CallTaken(s, exec);
    var first := FirstRun(s, exec);
    CalledMoves(s, first, t, x, done);
    OnlyOneDone(s, first, x, done);
    var marked := Spread(first);
    PropagateKeepsChain(first, IdsOf(first.steps), first.stepStatus, true);
    CalledRan(s, first, t, x);
    InOrderUnblocks(marked, done);
    var u := PropagateUnblock(marked, done);
    UnblockEachKeepsSteps(marked, Downstream(marked.steps, done));
    forall id | id in Downstream(t.steps, done) && StatusOf(t, id) == Blocked
      ensures Behind(t, id)
    {
      SameBehind(u, t, id);
    }
  }

  /** Out of order: a run in which the step fails, is tried again and is done, and after which a
      step is blocked behind nothing. */
  lemma {:induction false} OutOfOrderMisses(steps: Steps, done: Id, k: nat, j: nat)
    returns (truths: set<string>, ops: seq<Operation>, exec: Executor, b: Id)
    requires IsPlain(steps) && Budgets(steps) && IsFirm(steps, done)
    requires k <= j < |Downstream(steps, done)|
    requires DependsOn(steps, Downstream(steps, done)[k], Downstream(steps, done)[j])
    ensures AllDriven(ops)
    ensures var s := ApplyAll(Create(steps, truths, 0), ops); var t := ExecuteNext(s, exec, false);
      && NewlyDone(s, t, done) && t.steps == steps && b in Downstream(steps, done)
      && StatusOf(t, b) == Blocked && !Behind(t, b)
  {
    hide Steady, ApplyAll, ExecuteNext, AllDriven, Create, IsFirm, Budgets, Halved, NoneFailedOrCancelled, Downstream, UnblockEach,
      DependsOn, DistinctIds, Acyclic, Runs, Ran, Spread, Reaches, NoConsent, DependenciesExist;
    var first: State;
    truths, ops, exec, first := FailRetryDone(steps, done);
    var s := ApplyAll(Create(steps, truths, 0), ops);
    var t, u := ExecuteNext(s, exec, false), PropagateUnblock(first, done);
    forall id | id in Downstream(steps, done)
      ensures StatusOf(first, id) == Blocked
    {
      HalvedDownstream(first, done, id);
    }
    PassMisses(first, done, k, j);
    UnblockEachKeepsSteps(first, Downstream(steps, done));
    UnblockedEach(first, Downstream(steps, done), done);
    b := LeastIsMissed(t, Downstream(steps, done)[k]);
    SameBehind(u, t, b);
    UnblockedEach(first, Downstream(steps, done), b);
    StillHalved(first, done, b);
    SameBehind(u, t, done);
  }

  lemma {:induction false} HalvedDownstream(s: State, f: Id, id: Id)
    requires Halved(s, f) && Acyclic(s.steps) && id in Downstream(s.steps, f)
    ensures StatusOf(s, id) == Blocked
  {
    hide Reaches, Downstream, Acyclic, Ids;
    DownstreamIsReachable(s.steps, f, id);
    ReachesNotItself(s.steps, f);
  }

  lemma {:induction false} StillHalved(s: State, f: Id, id: Id)
    requires Halved(s, f) && StatusOf(s, f) == Done && StatusOf(s, id) == Blocked && Covered(s)
    ensures id in Downstream(s.steps, f)
  {
    hide Reaches, Downstream, Ids;
    assert id in s.stepStatus;
    DownstreamIsReachable(s.steps, f, id);
  }

  /** A least blocked step of a plan without failures is blocked behind nothing. */
  lemma {:induction false} LeastIsMissed(t: State, a: Id) returns (b: Id)
    requires Acyclic(t.steps) && NoneFailedOrCancelled(t) && StatusOf(t, a) == Blocked
    ensures StatusOf(t, b) == Blocked && !Behind(t, b)
  {
    hide DependsOn, Acyclic;
    var blocked := set id | id in t.stepStatus && t.stepStatus[id] == Blocked;
    b := LeastOf(t.steps, blocked, a);
    forall d | DependsOn(t.steps, b, d)
      ensures !IsFailedDependency(StatusOf(t, d))
    {
      assert d !in blocked;
    }
  }

  /** For a step that ends as done or failed: over every run, the pass behind it serves all
      exactly when its walk meets every step after its dependencies. */
  lemma {:induction false} OnePassSufficesIff(steps: Steps, done: Id)
    requires IsPlain(steps) && Budgets(steps) && IsFirm(steps, done)
    ensures AlwaysServes(steps, done) <==> WalkInOrder(steps, done)
  {
    hide DependsOn, Downstream, ServesAll, NewlyDone, IsPlain, Budgets, IsFirm, ApplyAll, Create, ExecuteNext, AllDriven, Steady;
    if WalkInOrder(steps, done) {
      forall truths, ops, exec: Executor | AllDriven(ops)
        ensures var s := ApplyAll(Create(steps, truths, 0), ops);
          var t := ExecuteNext(s, exec, false);
          NewlyDone(s, t, done) ==> ServesAll(t, done)
      {
        var s := ApplyAll(Create(steps, truths, 0), ops);
        RunSteady(steps, truths, ops);
        if NewlyDone(s, ExecuteNext(s, exec, false), done) {
          InOrderServes(s, exec, done);
        }
      }
    } else {
      var walk := Downstream(steps, done);
      var k, j :| 0 <= k <= j < |walk| && DependsOn(steps, walk[k], walk[j]);
      var truths, ops, exec, b := OutOfOrderMisses(steps, done, k, j);
      var t := ExecuteNext(ApplyAll(Create(steps, truths, 0), ops), exec, false);
      assert !ServesAll(t, done) by {
        NotServed(t, done, b);
      }
    }
  }

  lemma {:induction false} NotServed(t: State, done: Id, b: Id)
    requires b in Downstream(t.steps, done) && StatusOf(t, b) == Blocked && !Behind(t, b)
    ensures !ServesAll(t, done)
  {
    hide Downstream, Behind;
  }

  lemma {:induction false} RunSteady(steps: Steps, truths: set<string>, ops: seq<Operation>)
    requires IsPlain(steps) && AllDriven(ops)
    ensures Steady(ApplyAll(Create(steps, truths, 0), ops)) && ApplyAll(Create(steps, truths, 0), ops).steps == steps
  {
    hide Steady, ApplyAll, Create, IsPlain, AllDriven, Core, Held;
    var s := Create(steps, truths, 0);
    CreatedSteps(steps, truths);
    CreatedIsSteady(steps, truths);
    OperationsSteady(s, ops);
    PlainIsDistinct(steps);
    CreatedIsSafe(steps, truths, 0);
    RunsSafely(s, ops);
  }

  lemma {:induction false} PlainIsDistinct(steps: Steps)
    requires IsPlain(steps)
    ensures DistinctIds(steps)
  {
  }

  // ----- a plan out of order

  const ROOT := Step("d", "x", [], "", 0, None, false, true)
  const LATE := Step("b", "y", ["d", "c"], "", 0, None, false, true)
  const EARLY := Step("c", "z", ["d"], "", 0, None, false, true)

  const LATE_FIRST: Steps := [ROOT, LATE, EARLY]

  lemma {:induction false} LateDependencies(steps: Steps, x: Id, d: Id)
    requires |steps| == 3 && steps[0] == ROOT && steps[1] == LATE
    requires steps[2].id == EARLY.id && steps[2].dependsOn == EARLY.dependsOn
    ensures DependsOn(steps, x, d) <==> (x == "b" && (d == "d" || d == "c")) || (x == "c" && d == "d")
    ensures Ids(steps) == {"d", "b", "c"} && DistinctIds(steps)
  {
    if DependsOn(steps, x, d) {
      var i :| 0 <= i < |steps| && steps[i].id == x && d in steps[i].dependsOn;
    }
    assert "d" in steps[1].dependsOn && "c" in steps[1].dependsOn && "d" in steps[2].dependsOn;
    assert steps[0].id == "d" && steps[1].id == "b" && steps[2].id == "c";
  }

  lemma {:induction false} LateIsPlain(steps: Steps)
    requires |steps| == 3 && steps[0] == ROOT && steps[1] == LATE
    requires steps[2].id == EARLY.id && steps[2].dependsOn == EARLY.dependsOn && !steps[2].requireConsent && steps[2].retryMax >= 0
    ensures IsPlain(steps) && Budgets(steps) && IsFirm(steps, "d")
  {
    hide DependsOn, Ids;
    var order := ["d", "c", "b"];
    LateDependencies(steps, "", "");
    forall x, d
      ensures DependsOn(steps, x, d) <==> (x == "b" && (d == "d" || d == "c")) || (x == "c" && d == "d")
    {
      LateDependencies(steps, x, d);
    }
    assert order[..1] == ["d"] && order[..2] == ["d", "c"];
    OrderedIsAcyclic(steps, order);
    FindIs(steps, steps[0]);
  }

  lemma {:induction false} LateWalk(steps: Steps)
    requires |steps| == 3 && steps[0] == ROOT && steps[1] == LATE
    requires steps[2].id == EARLY.id && steps[2].dependsOn == EARLY.dependsOn
    ensures var walk := Downstream(steps, "d"); |walk| > 1 && walk[0] == "b" && walk[1] == "c"
  {
    hide Walk;
    var last := steps[2];
    assert steps[1..] == [LATE, last] && [LATE, last][1..] == [last] && [last][1..] == [];
    assert ["d", "c"][1..] == ["c"] && ["c"][1..] == [] && ["d"][1..] == [];
    SuccessorsAreSteps(steps, "d");
    assert Successors([last], "d") == ["c"];
    assert Successors([LATE, last], "d") == ["b", "c"];
    assert Successors(steps, "d") == ["b", "c"];
    WalkUnfold(steps, ["b", "c"], {});
    assert Successors([last], "b") == [];
    assert Successors([LATE, last], "b") == [];
    assert Successors(steps, "b") == [];
    assert ["b", "c"][1..] + [] == ["c"];
    assert {} + {"b"} == {"b"};
    WalkUnfold(steps, ["c"], {"b"});
  }

  /** A step listed before one of its two dependencies, both reached from the same step: a pass
      of some run leaves it blocked behind nothing. */
  lemma {:induction false} OrderIsNotAlwaysKept()
    ensures IsPlain(LATE_FIRST) && !AlwaysServes(LATE_FIRST, "d")
  {
    hide Downstream, DependsOn, AlwaysServes, IsPlain, Budgets, IsFirm;
    LateIsPlain(LATE_FIRST);
    LateWalk(LATE_FIRST);
    LateDependencies(LATE_FIRST, "b", "c");
    assert !WalkInOrder(LATE_FIRST, "d") by {
      var walk := Downstream(LATE_FIRST, "d");
      assert DependsOn(LATE_FIRST, walk[0], walk[1]);
    }
    OnePassSufficesIff(LATE_FIRST, "d");
  }
}
