/** Exactly which plans end, whatever fails and is retried on the way. */
module PlanRetries {
  import opened PlanDag
  import opened PlanWalk
  import opened PlanState
  import opened PlanSafety
  import opened PlanRuns
  import opened PlanFrontier
  import opened PlanProgress
  import opened PlanStuck
  import opened PlanCalls
  import opened PlanSteer
  import opened PlanUnblock

  // ----- the condition

  /** Something depends on a step that can fail and, tried again, be skipped. */
  ghost predicate SkipStrands(steps: Steps) {
    exists b, q :: DependsOn(steps, b, q) && CanFail(steps, q) && CanBeSkipped(steps, q)
  }

  ghost predicate Between(steps: Steps, a: Id, m: Id, b: Id) {
    Reaches(steps, a, m) && Reaches(steps, m, b)
  }

  /** The pass from `l` meets a step before a dependency of that step, and no step in between
      is sure to call for another pass. */
  ghost predicate PassStrandsAt(steps: Steps, l: Id, k: nat, j: nat) {
    var walk := Downstream(steps, l);
    && IsFirm(steps, l)
    && k <= j < |walk| && DependsOn(steps, walk[k], walk[j])
    && forall m :: Between(steps, l, m, walk[k]) ==> !IsFirm(steps, m)
  }

  ghost predicate PassStrands(steps: Steps) {
    exists l, k: nat, j: nat :: PassStrandsAt(steps, l, k, j)
  }

  ghost predicate Strandable(steps: Steps) {
    SkipStrands(steps) || PassStrands(steps)
  }

  // ----- a plan that is not strandable: every blocked step still has something to wait for

  /** A step whose end will be noticed: it was cancelled, or it is firm and not done in `base`. */
  ghost predicate Holds(base: State, s: State, l: Id) {
    StatusOf(s, l) == Cancelled || (IsFirm(s.steps, l) && !IsSatisfied(StatusOf(base, l)))
  }

  ghost predicate Awaits(base: State, s: State, b: Id) {
    exists l :: Reaches(s.steps, l, b) && Holds(base, s, l)
  }

  ghost predicate Served(base: State, s: State) {
    forall b :: StatusOf(s, b) == Blocked ==> Awaits(base, s, b)
  }

  /** Something directly depends on a step that reaches another. */
  lemma {:induction false} HasDependent(steps: Steps, a: Id, b: Id) returns (c: Id)
    requires Reaches(steps, a, b)
    ensures DependsOn(steps, c, a)
  {
    hide DependsOn;
    var path :| |path| > 1 && IsPath(steps, path) && path[0] == b && path[|path| - 1] == a;
    c := path[|path| - 2];
  }

  lemma {:induction false} FailingIsFirm(steps: Steps, y: Id, b: Id)
    requires !SkipStrands(steps) && Reaches(steps, y, b) && CanFail(steps, y)
    ensures IsFirm(steps, y)
  {
    hide DependsOn, CanFail, CanBeSkipped, Reaches;
    var c := HasDependent(steps, y, b);
    assert DependsOn(steps, c, y);
  }

  // ----- new blocks

  lemma {:induction false} BlockedFrom(s: State, ids: seq<Id>, before: map<Id, StepStatus>, onlyFailed: bool, b: Id) returns (y: Id)
    requires var t := PropagateFrom(s, ids, before, onlyFailed); StatusOf(t, b) != StatusOf(s, b)
    ensures IsSource(before, onlyFailed, y) && Reaches(s.steps, y, b)
  {
    hide BlockEach, Reaches;
    if ids == [] {
      y := "";
    } else {
      var id, rest := ids[|ids| - 1], PropagateFrom(s, ids[..|ids| - 1], before, onlyFailed);
      PropagateKeepsChain(s, ids[..|ids| - 1], before, onlyFailed);
      if StatusOf(rest, b) != StatusOf(s, b) {
        y := BlockedFrom(s, ids[..|ids| - 1], before, onlyFailed, b);
      } else {
        y := id;
        BlockedEach(rest, Downstream(rest.steps, id), b);
        DownstreamIsReachable(rest.steps, id, b);
      }
    }
  }

  /** A run blocks only behind steps that had failed before it. */
  lemma {:induction false} LoopBlocks(s: State, exec: Executor, b: Id) returns (y: Id)
    requires Resting(s) && InLoop(s)
    requires StatusOf(Loop(s, exec, true), b) == Blocked && StatusOf(s, b) != Blocked
    ensures Reaches(s.steps, y, b) && IsFailedDependency(StatusOf(s, y))
    decreases OpenSteps(s)
  {
    hide Resting, Loop, OpenSteps, StepTurn, ReadyAmong, StopIsFailed, NotAsking, Reaches, PropagateFrom, AllDependenciesFailed, AllFinal;
    LoopUnfold(s, exec, true);
    RestingIs(s);
    TurnStops(s, exec, true);
    if ReadySteps(s) == [] {
      y := BlockedFrom(s.(status := PlanFailed), IdsOf(s.steps), s.stepStatus, false, b);
    } else {
      var step := ReadySteps(s)[0];
      StepResting(s, step, exec);
      StepBlocksNothing(s, step, exec);
      var turn := StepTurn(s, step, exec, true);
      if turn.Continue? {
        y := LoopBlocks(turn.state, exec, b);
      }
    }
  }

  lemma {:induction false} StepBlocksNothing(s: State, step: Step, exec: Executor)
    requires NoConsent(s.steps) && step in ReadySteps(s)
    ensures var t := StepTurn(s, step, exec, true).state;
      && t.steps == s.steps
      && forall id :: (StatusOf(t, id) == Blocked ==> StatusOf(s, id) == Blocked)
           && (StepTurn(s, step, exec, true).Continue? && IsFailedDependency(StatusOf(t, id)) ==> StatusOf(t, id) == StatusOf(s, id))
  {
    hide StepTurn, ReadyAmong, LogGrows, NoConsent;
    StepTurnFrame(s, step, exec, true);
    ReadyNeedsNoConsent(s, step);
    StepOutcome(s, step, exec);
  }

  lemma {:induction false} RunBlocks(s: State, exec: Executor, b: Id) returns (y: Id)
    requires Resting(s) && !Ended(s)
    requires StatusOf(FirstRun(s, exec), b) == Blocked && StatusOf(s, b) != Blocked
    ensures Reaches(s.steps, y, b) && IsFailedDependency(StatusOf(s, y))
  {
    hide Resting, Loop, Reaches;
    var r := Reopened(s);
    SameResting(s, r);
    RestingIs(r);
    ReopenedRuns(s);
    RebuildChangesNothing(r);
    var begin := r.(status := PlanRunning, pausedReason := None, pausedStep := None);
    SameResting(r, begin);
    y := LoopBlocks(begin, exec, b);
  }

  // ----- what a call leaves blocked

  lemma {:induction false} SourceAwaits(s: State, t: State, y: Id, b: Id)
    requires !SkipStrands(s.steps) && FailedCanFail(s) && Served(s, s) && t.steps == s.steps
    requires Reaches(s.steps, y, b) && IsFailedDependency(StatusOf(s, y))
    requires forall l :: StatusOf(s, l) == Cancelled ==> StatusOf(t, l) == Cancelled
    ensures Awaits(s, t, b)
  {
    hide Reaches, IsFirm, CanFail, SkipStrands;
    if StatusOf(s, y) == Blocked {
      assert Awaits(s, s, y);
      var l :| Reaches(s.steps, l, y) && Holds(s, s, l);
      ReachesOn(s.steps, l, y, b);
      assert Holds(s, t, l);
    } else {
      if StatusOf(s, y) == Failed {
        FailingIsFirm(s.steps, y, b);
      }
      assert Holds(s, t, y);
    }
  }

  lemma {:induction false} FirstServed(s: State, exec: Executor, first: State, x: Option<Id>)
    requires Steady(s) && !Ended(s) && !SkipStrands(s.steps) && Served(s, s)
    requires first == FirstRun(s, exec) && Ran(s, first, x)
    ensures Served(s, first)
  {
    hide Steady, SkipStrands, Reaches, IsFirm, FirstRun, Ran, FailedCanFail;
    SteadyIs(s);
    SteadyFails(s);
    assert first.steps == s.steps by { RanSteps(s, first, x); }
    forall l
      ensures StatusOf(s, l) == Cancelled ==> StatusOf(first, l) == Cancelled
    {
      MovedKeeps(s, first, x, l);
    }
    forall b | StatusOf(first, b) == Blocked
      ensures Awaits(s, first, b)
    {
      if StatusOf(s, b) == Blocked {
        assert Awaits(s, s, b);
        var l :| Reaches(s.steps, l, b) && Holds(s, s, l);
        assert Holds(s, first, l);
      } else {
        var y := RunBlocks(s, exec, b);
        SourceAwaits(s, first, y, b);
      }
    }
  }

  lemma {:induction false} RanSteps(s: State, t: State, x: Option<Id>)
    requires Ran(s, t, x)
    ensures t.steps == s.steps
  {
  }

  lemma {:induction false} RanFails(s: State, first: State, x: Option<Id>, id: Id)
    requires FailedCanFail(s) && Ran(s, first, x) && StatusOf(first, id) == Failed
    ensures CanFail(s.steps, id) && !IsSatisfied(StatusOf(s, id))
  {
    hide CanFail, Ran;
    NewFailure(s, first, x, id);
  }

  lemma {:induction false} SpreadServed(s: State, first: State, x: Option<Id>)
    requires !SkipStrands(s.steps) && FailedCanFail(s) && Ran(s, first, x) && Served(s, first)
    ensures Served(s, Spread(first)) && Spread(first).steps == s.steps
  {
    hide SkipStrands, Reaches, CanFail, CanBeSkipped, Ran, FailedCanFail, PropagateFrom;
    var ids, before := IdsOf(first.steps), first.stepStatus;
    var marked := Spread(first);
    RanSteps(s, first, x);
    PropagateKeepsChain(first, ids, before, true);
    forall b | StatusOf(marked, b) == Blocked
      ensures Awaits(s, marked, b)
    {
      if StatusOf(first, b) == Blocked {
        assert Awaits(s, first, b);
        var l :| Reaches(s.steps, l, b) && Holds(s, first, l);
        PropagationsBlockOnly(first, ids, before, true, l);
        assert Holds(s, marked, l);
      } else {
        var y := BlockedFrom(first, ids, before, true, b);
        RanFails(s, first, x, y);
        FailingIsFirm(s.steps, y, b);
        assert Holds(s, marked, y);
      }
    }
  }

  // ----- what a pass leaves blocked

  /** A step that stays blocked has a dependency that will not come, or that the pass reopened
      after it had been there. */
  lemma {:induction false} PassTurn(marked: State, x: Id, b: Id) returns (d: Id, k: nat, j: nat)
    requires DistinctIds(marked.steps) && b in Downstream(marked.steps, x)
    requires StatusOf(PropagateUnblock(marked, x), b) == Blocked
    ensures DependsOn(marked.steps, b, d)
    ensures var walk := Downstream(marked.steps, x);
      IsFailedDependency(StatusOf(PropagateUnblock(marked, x), d)) || (k <= j < |walk| && walk[k] == b && walk[j] == d)
  {
    hide DependsOn, Downstream, UnblockEach, DistinctIds, Behind, Unblock;
    var walk := Downstream(marked.steps, x);
    k :| 0 <= k < |walk| && walk[k] == b;
    var before, rest := UnblockEach(marked, walk[..k]), walk[k + 1..];
    SplitAt(marked, walk, k);
    UnblockEachKeepsSteps(marked, walk[..k]);
    StaysBlocked(before, b, rest);
    BehindIff(before, b);
    d := FailedWitness(before, b);
    UnblockedEach(before, rest, d);
    j := k;
    if StatusOf(UnblockEach(before, rest), d) != StatusOf(before, d) {
      var i :| 0 <= i < |rest| && rest[i] == d;
      j := k + 1 + i;
    }
  }

  /** Between a step that is newly done and what depends on it, a firm step is not done yet. */
  lemma {:induction false} FirmInBetween(s: State, first: State, x: Id, m: Id)
    requires Core(s) && Acyclic(s.steps) && Ran(s, first, Some(x)) && NewlyDone(s, first, x)
    requires Reaches(s.steps, x, m) && IsFirm(s.steps, m)
    ensures !IsSatisfied(StatusOf(first, m))
  {
    hide Core, Acyclic, Ran, Reaches, IsFirm;
    ReachesNotItself(s.steps, x);
    OnlyOneDone(s, first, Some(x), x);
    if IsSatisfied(StatusOf(first, m)) {
      if IsSatisfied(StatusOf(s, m)) {
        SatisfiedBefore(s, x, m);
      } else {
        MovedFirm(s, first, Some(x), m);
      }
    }
  }

  /** What still holds in the end state was looked at in `s`. */
  lemma {:induction false} HeldOrDone(s: State, first: State, u: State, x: Option<Id>, l: Id)
    requires Ran(s, first, x) && Holds(s, u, l) && u.steps == s.steps
    requires IsSatisfied(StatusOf(u, l)) ==> IsSatisfied(StatusOf(first, l))
    ensures Holds(u, u, l) || (x == Some(l) && NewlyDone(s, first, l) && IsFirm(s.steps, l))
  {
    hide IsFirm, Ran;
    if !Holds(u, u, l) {
      MovedFirm(s, first, x, l);
    }
  }

  /** The pass moves only blocked steps, and to pending. */
  ghost predicate Reopens(marked: State, u: State) {
    u.steps == marked.steps
    && forall id :: StatusOf(u, id) == StatusOf(marked, id) || (StatusOf(marked, id) == Blocked && StatusOf(u, id) == Pending)
  }

  lemma {:induction false} PassReopens(marked: State, x: Id)
    ensures Reopens(marked, PropagateUnblock(marked, x))
  {
    hide UnblockEach, Downstream;
    var ids := Downstream(marked.steps, x);
    UnblockEachKeepsSteps(marked, ids);
    forall id
      ensures var u := UnblockEach(marked, ids);
        StatusOf(u, id) == StatusOf(marked, id) || (StatusOf(marked, id) == Blocked && StatusOf(u, id) == Pending)
    {
      UnblockedEach(marked, ids, id);
    }
  }

  lemma {:induction false} ReopensIs(marked: State, u: State, id: Id)
    requires Reopens(marked, u)
    ensures StatusOf(u, id) == Blocked ==> StatusOf(marked, id) == Blocked
    ensures StatusOf(u, id) != Pending ==> StatusOf(marked, id) == StatusOf(u, id)
    ensures IsSatisfied(StatusOf(u, id)) || StatusOf(u, id) == Failed || StatusOf(u, id) == Cancelled || StatusOf(u, id) == Running
      ==> StatusOf(marked, id) == StatusOf(u, id)
  {
  }

  lemma {:induction false} SpreadOnlyBlocks(first: State, id: Id)
    ensures StatusOf(Spread(first), id) == StatusOf(first, id) || (IsOpen(StatusOf(first, id)) && StatusOf(Spread(first), id) == Blocked)
  {
    PropagationsBlockOnly(first, IdsOf(first.steps), first.stepStatus, true, id);
  }

  /** How the run, the marking and the pass of a call belong together. */
  ghost predicate Passes(s: State, first: State, u: State, x: Id) {
    && Core(s) && Acyclic(s.steps) && FailedCanFail(s)
    && Ran(s, first, Some(x)) && NewlyDone(s, first, x)
    && Spread(first).steps == s.steps && Served(s, Spread(first))
    && u == PropagateUnblock(Spread(first), x)
  }

  lemma {:induction false} PassesIs(s: State, first: State, u: State, x: Id)
    requires Passes(s, first, u, x)
    ensures DistinctIds(s.steps) && u.steps == s.steps && Reopens(Spread(first), u)
    ensures Core(s) && Acyclic(s.steps) && Ran(s, first, Some(x)) && NewlyDone(s, first, x)
  {
    hide Spread, PropagateUnblock, Acyclic, Ran, Served;
    PassReopens(Spread(first), x);
    CoreIs(s);
  }

  /** What is blocked afterwards and waits for nothing depends on the step that is newly done. */
  lemma {:induction false} LostDownstream(s: State, first: State, u: State, x: Id, b: Id)
    requires Passes(s, first, u, x) && StatusOf(u, b) == Blocked && !Awaits(u, u, b)
    ensures Reaches(s.steps, x, b) && IsFirm(s.steps, x)
  {
    hide Spread, PropagateUnblock, Acyclic, Ran, Core, Reaches, IsFirm, FailedCanFail, Reopens;
    PassesIs(s, first, u, x);
    ReopensIs(Spread(first), u, b);
    assert Awaits(s, Spread(first), b);
    var l :| Reaches(s.steps, l, b) && Holds(s, Spread(first), l);
    ReopensIs(Spread(first), u, l);
    SpreadOnlyBlocks(first, l);
    if StatusOf(Spread(first), l) == Cancelled {
      CancelledStays(Spread(first), u, l);
      HoldsAwaits(u, l, b);
    } else {
      HeldOrDone(s, first, u, Some(x), l);
    }
  }

  lemma {:induction false} HoldsAwaits(u: State, l: Id, b: Id)
    requires Reaches(u.steps, l, b) && Holds(u, u, l)
    ensures Awaits(u, u, b)
  {
  }

  lemma {:induction false} CancelledStays(marked: State, u: State, l: Id)
    requires Reopens(marked, u) && StatusOf(marked, l) == Cancelled
    ensures StatusOf(u, l) == Cancelled
  {
  }

  lemma {:induction false} DependencyAwaits(u: State, d: Id, b: Id)
    requires !SkipStrands(u.steps) && DependsOn(u.steps, b, d) && FailedCanFail(u)
    requires IsFailedDependency(StatusOf(u, d)) && (StatusOf(u, d) == Blocked ==> Awaits(u, u, d))
    ensures Awaits(u, u, b)
  {
    hide SkipStrands, DependsOn, Reaches, IsFirm, CanFail;
    DirectlyReaches(u.steps, d, b);
    if StatusOf(u, d) == Blocked {
      var l :| Reaches(u.steps, l, d) && Holds(u, u, l);
      ReachesFurther(u.steps, l, d, b);
      HoldsAwaits(u, l, b);
    } else {
      if StatusOf(u, d) == Failed {
        FailingIsFirm(u.steps, d, b);
      }
      HoldsAwaits(u, d, b);
    }
  }

  lemma {:induction false} InBetween(steps: Steps, x: Id, k: nat, j: nat) returns (m: Id)
    requires !PassStrands(steps) && IsFirm(steps, x)
    requires var walk := Downstream(steps, x); k <= j < |walk| && DependsOn(steps, walk[k], walk[j])
    ensures Between(steps, x, m, Downstream(steps, x)[k]) && IsFirm(steps, m)
  {
    hide DependsOn, Downstream, Between, IsFirm;
    assert !PassStrandsAt(steps, x, k, j);
    m :| Between(steps, x, m, Downstream(steps, x)[k]) && IsFirm(steps, m);
  }

  lemma {:induction false} PassFails(s: State, first: State, u: State, x: Id)
    requires Passes(s, first, u, x)
    ensures FailedCanFail(u)
  {
    hide Core, Acyclic, CanFail, Spread, PropagateUnblock, Ran, NewlyDone, Served;
    PassesIs(s, first, u, x);
    forall id | StatusOf(u, id) == Failed
      ensures CanFail(u.steps, id)
    {
      ReopensIs(Spread(first), u, id);
      SpreadOnlyBlocks(first, id);
      RanFails(s, first, Some(x), id);
    }
  }

  /** A least step that waits for nothing does wait for something. */
  lemma {:induction false} LeastAwaits(s: State, first: State, u: State, x: Id, b: Id)
    requires Passes(s, first, u, x) && !Strandable(s.steps) && StatusOf(u, b) == Blocked
    requires forall d :: DependsOn(s.steps, b, d) && StatusOf(u, d) == Blocked ==> Awaits(u, u, d)
    ensures Awaits(u, u, b)
  {
    hide Spread, Acyclic, Ran, Core, Reaches, IsFirm, FailedCanFail, Reopens, DependsOn, Downstream, SkipStrands, PassStrands, Holds,
      UnblockEach, Passes, NewlyDone, DistinctIds;
    if !Awaits(u, u, b) {
      LostDownstream(s, first, u, x, b);
      PassesIs(s, first, u, x);
      PassFails(s, first, u, x);
      DownstreamIsReachable(s.steps, x, b);
      PassesPass(s, first, u, x);
      var d, k, j := PassTurn(Spread(first), x, b);
      if IsFailedDependency(StatusOf(u, d)) {
        DependencyAwaits(u, d, b);
      } else {
        var m := InBetween(s.steps, x, k, j);
        FirmAwaits(s, first, u, x, m, b);
      }
    }
  }

  lemma {:induction false} PassesPass(s: State, first: State, u: State, x: Id)
    requires Passes(s, first, u, x)
    ensures u == PropagateUnblock(Spread(first), x) && Spread(first).steps == s.steps
  {
  }

  lemma {:induction false} FirmAwaits(s: State, first: State, u: State, x: Id, m: Id, b: Id)
    requires Passes(s, first, u, x) && Between(s.steps, x, m, b) && IsFirm(s.steps, m)
    ensures Awaits(u, u, b)
  {
    hide Spread, Acyclic, Ran, Core, Reaches, IsFirm, Reopens, Passes, NewlyDone;
    PassesIs(s, first, u, x);
    FirmInBetween(s, first, x, m);
    ReopensIs(Spread(first), u, m);
    SpreadOnlyBlocks(first, m);
    HoldsAwaits(u, m, b);
  }

  /** After a pass every blocked step waits for something, in a plan that is not strandable. */
  lemma {:induction false} PassServed(s: State, first: State, u: State, x: Id)
    requires Passes(s, first, u, x) && !Strandable(s.steps)
    ensures Served(u, u)
  {
    hide Spread, Ran, Core, DependsOn, Strandable, Awaits, Passes, Acyclic, Reopens, NewlyDone;
    PassesIs(s, first, u, x);
    var lost := set id | id in u.stepStatus && StatusOf(u, id) == Blocked && !Awaits(u, u, id);
    forall b | StatusOf(u, b) == Blocked
      ensures Awaits(u, u, b)
    {
      if !Awaits(u, u, b) {
        var least := LeastOf(s.steps, lost, b);
        LeastAwaits(s, first, u, x, least);
      }
    }
  }

  // ----- every call, retry and run of them

  lemma {:induction false} SameServed(s: State, t: State)
    requires Served(s, s) && t.steps == s.steps && t.stepStatus == s.stepStatus
    ensures Served(t, t)
  {
    hide Reaches, IsFirm;
    assert forall id :: StatusOf(t, id) == StatusOf(s, id);
    forall b | StatusOf(t, b) == Blocked
      ensures Awaits(t, t, b)
    {
      assert Awaits(s, s, b);
      var l :| Reaches(s.steps, l, b) && Holds(s, s, l);
      assert Holds(t, t, l);
    }
  }

  /** Without a newly done step nothing is lost. */
  lemma {:induction false} QuietServed(s: State, first: State, x: Option<Id>)
    requires Ran(s, first, x) && Served(s, Spread(first)) && Spread(first).steps == s.steps
    requires x.Some? ==> !NewlyDone(s, first, x.value)
    ensures Served(Spread(first), Spread(first))
  {
    hide Reaches, IsFirm, Spread, Ran, NewlyDone;
    var u := Spread(first);
    forall b | StatusOf(u, b) == Blocked
      ensures Awaits(u, u, b)
    {
      assert Awaits(s, u, b);
      var l :| Reaches(s.steps, l, b) && Holds(s, u, l);
      SpreadOnlyBlocks(first, l);
      HeldOrDone(s, first, u, x, l);
      HoldsAwaits(u, l, b);
    }
  }

  lemma {:induction false} NextServed(s: State, exec: Executor)
    requires Steady(s) && Served(s, s) && !Strandable(s.steps)
    ensures Served(ExecuteNext(s, exec, false), ExecuteNext(s, exec, false))
  {
    hide Steady, Served, Core, Acyclic, FailedCanFail, FirstRun, Spread, PropagateUnblock, ExecuteScheduled, FinalVerdict, Ran,
      NewlyDone, SkipStrands, PassStrands, Resting;
    SteadyIs(s);
    SteadyFails(s);
    if Ended(s) {
    } else if !Runs(s) {
      SameServed(s, Finalize(s));
    } else {
      var first, t := FirstRun(s, exec), ExecuteNext(s, exec, false);
      var x := CallTaken(s, exec);
      FirstServed(s, exec, first, x);
      SpreadServed(s, first, x);
      if x.Some? && NewlyDone(s, first, x.value) {
        var u := PropagateUnblock(Spread(first), x.value);
        PassServed(s, first, u, x.value);
        PassReopens(Spread(first), x.value);
        SameServed(u, t);
      } else {
        QuietServed(s, first, x);
        SameServed(Spread(first), t);
      }
    }
  }

  lemma {:induction false} RetryServed(s: State, id: Id)
    requires Served(s, s) && CanRetry(s, id)
    ensures Served(Retry(s, id), Retry(s, id))
  {
    hide Reaches, IsFirm;
    var t := Retry(s, id);
    assert forall x :: StatusOf(t, x) == if x == id then Pending else StatusOf(s, x);
    forall b | StatusOf(t, b) == Blocked
      ensures Awaits(t, t, b)
    {
      assert Awaits(s, s, b);
      var l :| Reaches(s.steps, l, b) && Holds(s, s, l);
      HoldsAwaits(t, l, b);
    }
  }

  lemma {:induction false} CancelServed(s: State)
    requires Steady(s)
    ensures Served(Cancel(s), Cancel(s))
  {
    hide Reaches, IsFirm, Settled, Acyclic, CancelEach, FailedCanFail;
    var u, t := s.(status := PlanCancelled), Cancel(s);
    forall b
      ensures StatusOf(t, b) != Blocked
    {
      CancelledEach(u, IdsOf(s.steps), b);
      InIdsOf(s.steps, b);
    }
  }

  lemma {:induction false} OperationServed(s: State, op: Operation)
    requires Steady(s) && Served(s, s) && !Strandable(s.steps) && IsDriven(op)
    ensures Served(Apply(s, op), Apply(s, op))
  {
    hide Steady, Served, ExecuteNext, Retry, Cancel, CanRetry, Strandable, CanDecide, Core;
    SteadyIs(s);
    match op {
      case ExecuteNextStep(exec, _) => NextServed(s, exec);
      case RetryStep(id) => if CanRetry(s, id) { RetryServed(s, id); }
      case ResumePlan(_, _) =>
      case PausePlan(reason) => SameServed(s, Pause(s, reason));
      case CancelPlan => CancelServed(s);
      case DecideConsent(_) => SteadyAsksNothing(s);
      case SaveAndLoad => SnapshotChangesNothing(s);
    }
  }

  lemma {:induction false} OperationsServed(s: State, ops: seq<Operation>)
    requires Steady(s) && Served(s, s) && !Strandable(s.steps) && AllDriven(ops)
    ensures var t := ApplyAll(s, ops); Steady(t) && Served(t, t) && t.steps == s.steps
  {
    hide Steady, Served, Apply, IsDriven, Strandable;
    if ops == [] {
    } else {
      var before := ApplyAll(s, ops[..|ops| - 1]);
      OperationsServed(s, ops[..|ops| - 1]);
      OperationServed(before, ops[|ops| - 1]);
      OperationSteady(before, ops[|ops| - 1]);
      OperationKeepsSteps(before, ops[|ops| - 1]);
    }
  }

  lemma {:induction false} OperationKeepsSteps(s: State, op: Operation)
    requires Steady(s)
    ensures Apply(s, op).steps == s.steps
  {
    hide Steady, Apply, Core, Held;
    SteadyHeld(s);
    OperationSafely(s, op);
  }

  lemma {:induction false} SteadyHeld(s: State)
    requires Steady(s)
    ensures Core(s) && Held(s)
  {
    hide Core, NoLeak;
  }

  // ----- nothing is stranded

  lemma {:induction false} SettledDependency(s: State, b: Id, d: Id)
    requires Steady(s) && OpenSteps(s) == {} && Stranded(s) && DependsOn(s.steps, b, d) && StatusOf(s, d) != Blocked
    ensures IsSatisfied(StatusOf(s, d))
  {
    hide OpenSteps, Settled, Acyclic, Ids, FailedCanFail, DependsOn, Covered;
    SteadyIs(s);
    assert d in Ids(s.steps);
    InOpenSteps(s, d);
    NoneFailedStatus(s, d);
    assert StatusOf(s, d) != Running;
  }

  lemma {:induction false} AwaitedIsUndone(s: State, l: Id, b: Id)
    requires Core(s) && Reaches(s.steps, l, b) && !IsSatisfied(StatusOf(s, l))
    ensures exists d :: DependsOn(s.steps, b, d) && !IsSatisfied(StatusOf(s, d))
  {
    hide Core, DependsOn;
    var path :| |path| > 1 && IsPath(s.steps, path) && path[0] == b && path[|path| - 1] == l;
    assert DependsOn(s.steps, b, path[1]);
    if |path| > 2 && IsSatisfied(StatusOf(s, path[1])) {
      TailIsPath(s.steps, path);
      var tail := path[1..];
      assert Reaches(s.steps, l, path[1]);
      SatisfiedBefore(s, l, path[1]);
    }
  }

  /** With nothing open and every blocked step waiting for something, none is stranded. */
  lemma {:induction false} NoneStranded(s: State)
    requires Steady(s) && Served(s, s) && OpenSteps(s) == {}
    ensures !Stranded(s)
  {
    hide Steady, OpenSteps, DependsOn, Core, Acyclic, Reaches, IsFirm, SomeStatus, FailedCanFail;
    if Stranded(s) {
      SteadyIs(s);
      SteadyFails(s);
      var b := StrandedStep(s);
      var blocked := set id | id in s.stepStatus && s.stepStatus[id] == Blocked;
      var least := LeastOf(s.steps, blocked, b);
      assert Awaits(s, s, least);
      var l :| Reaches(s.steps, l, least) && Holds(s, s, l);
      NoneFailedStatus(s, l);
      AwaitedIsUndone(s, l, least);
      var d :| DependsOn(s.steps, least, d) && !IsSatisfied(StatusOf(s, d));
      SettledDependency(s, least, d);
    }
  }

  // ----- a plan ends

  /** The steps that are neither satisfied nor failed. */
  function Left(s: State): set<Id> {
    set id | id in Ids(s.steps) && !IsSatisfied(StatusOf(s, id)) && StatusOf(s, id) != Failed
  }

  lemma {:induction false} OpenIsLeft(s: State)
    ensures OpenSteps(s) <= Left(s) && |Left(s)| <= |s.steps|
  {
    IdsAreFew(s.steps);
    assert Left(s) <= Ids(s.steps);
    Fewer(Left(s), Ids(s.steps));
  }

  lemma {:induction false} Fewer(a: set<Id>, b: set<Id>)
    requires a <= b
    ensures |a| <= |b|
  {
    if a != b {
      Smaller(a, b);
    }
  }

  lemma {:induction false} SettledStays(s: State, first: State, t: State, x: Option<Id>, id: Id)
    requires Called(s, first, t, x) && (IsSatisfied(StatusOf(first, id)) || StatusOf(first, id) == Failed)
    ensures StatusOf(t, id) == StatusOf(first, id)
  {
    hide Spread, PropagateUnblock, Ran;
    SpreadOnlyBlocks(first, id);
    if x.Some? {
      PassReopens(Spread(first), x.value);
      PassKeeps(Spread(first), PropagateUnblock(Spread(first), x.value), id);
    }
    assert StatusOf(t, id) == StatusIn(t.stepStatus, id);
  }

  lemma {:induction false} PassKeeps(marked: State, u: State, id: Id)
    requires Reopens(marked, u) && StatusOf(marked, id) != Blocked
    ensures StatusOf(u, id) == StatusOf(marked, id)
  {
  }

  lemma {:induction false} LeftShrinks(s: State, first: State, t: State, x: Option<Id>)
    requires Called(s, first, t, x)
    ensures Left(t) <= Left(s)
  {
    hide Spread, PropagateUnblock, Moves, Ids;
    forall id | id in Left(t)
      ensures id in Left(s)
    {
      if IsSatisfied(StatusOf(first, id)) || StatusOf(first, id) == Failed {
        SettledStays(s, first, t, x, id);
      }
      MovedKeeps(s, first, x, id);
      FailedStays(s, first, x, id);
    }
  }

  lemma {:induction false} FailedStays(s: State, first: State, x: Option<Id>, id: Id)
    requires Ran(s, first, x)
    ensures StatusOf(s, id) == Failed ==> StatusOf(first, id) == Failed
  {
    hide CanFail, CanBeSkipped;
    assert Moves(s.steps, x, id, StatusOf(s, id), StatusOf(first, id));
  }

  /** A call on a plan with something open settles a step for good; on a closed plan it opens
      nothing. */
  lemma {:induction false} NextSettles(s: State, exec: Executor)
    requires Steady(s) && Runs(s)
    ensures var t := ExecuteNext(s, exec, false);
      && Left(t) <= Left(s)
      && (OpenSteps(s) != {} ==> Left(t) < Left(s))
      && (OpenSteps(s) == {} ==> OpenSteps(t) == {} && t.stepStatus == Spread(FirstRun(s, exec)).stepStatus)
  {
    hide Steady, Core, Acyclic, FirstRun, Spread, PropagateUnblock, ExecuteScheduled, FinalVerdict, Ran, Resting, OpenSteps, Left,
      ReadyAmong, FailedCanFail, Covered, NoLeak;
    var first, t := FirstRun(s, exec), ExecuteNext(s, exec, false);
    SteadyIs(s);
    SteadyFails(s);
    var x := CallTaken(s, exec);
    LeftShrinks(s, first, t, x);
    if OpenSteps(s) != {} {
      SomethingIsReady(s);
      FirstTakes(s, exec);
      ReadyIsLeft(s, ReadySteps(s)[0]);
      SettledStays(s, first, t, x, ReadySteps(s)[0].id);
      NotLeft(t, ReadySteps(s)[0].id);
    } else {
      NoneReadyWhenClosed(s);
      StaysShut(s, first, t);
    }
  }

  lemma {:induction false} ReadyIsLeft(s: State, step: Step)
    requires step in ReadySteps(s)
    ensures step.id in Left(s)
  {
    assert step in s.steps && IsReady(s, step);
  }

  lemma {:induction false} NotLeft(t: State, id: Id)
    requires IsSatisfied(StatusOf(t, id)) || StatusOf(t, id) == Failed
    ensures id !in Left(t)
  {
  }

  lemma {:induction false} StaysShut(s: State, first: State, t: State)
    requires Called(s, first, t, None) && OpenSteps(s) == {}
    ensures OpenSteps(t) == {}
  {
    hide OpenSteps, Moves, Spread;
    forall id
      ensures id !in OpenSteps(t)
    {
      InOpenSteps(s, id);
      InOpenSteps(t, id);
      SpreadOnlyBlocks(first, id);
      OpenWasOpen(s, first, None, id);
      assert StatusOf(t, id) == StatusOf(Spread(first), id);
    }
  }

  lemma {:induction false} OpenWasOpen(s: State, first: State, x: Option<Id>, id: Id)
    requires Ran(s, first, x)
    ensures IsOpen(StatusOf(first, id)) ==> IsOpen(StatusOf(s, id))
  {
    hide CanFail, CanBeSkipped;
    assert Moves(s.steps, x, id, StatusOf(s, id), StatusOf(first, id));
  }

  /** Every call ends the plan or settles one more step for good. */
  lemma {:induction false} NextEnds(s: State, exec: Executor)
    requires Steady(s) && Served(s, s) && !Strandable(s.steps)
    ensures var t := ExecuteNext(s, exec, false);
      && Steady(t) && Served(t, t) && t.steps == s.steps
      && (Ended(t) || (OpenSteps(t) != {} && Left(t) < Left(s)))
  {
    hide Steady, Served, ExecuteScheduled, FinalVerdict, OpenSteps, Left, Strandable, Stranded, FirstRun, Spread, Resting, Core, Acyclic;
    var t := ExecuteNext(s, exec, false);
    NextSteady(s, exec);
    NextServed(s, exec);
    SteadyIs(s);
    SteadyFails(s);
    if Runs(s) {
      NextSettles(s, exec);
      if OpenSteps(t) == {} {
        NoneStranded(t);
        CallEndsIff(s, exec);
      }
    }
  }

  lemma {:induction false} DriveEnds(s: State, execs: seq<Executor>)
    requires Steady(s) && Served(s, s) && !Strandable(s.steps)
    ensures var t := Drive(s, execs);
      && Steady(t) && Served(t, t) && t.steps == s.steps
      && (execs != [] ==> Ended(t) || (OpenSteps(t) != {} && |Left(t)| + |execs| <= |Left(s)|))
  {
    hide Steady, Served, ExecuteNext, OpenSteps, Left, Strandable, Ended;
    if execs == [] {
    } else {
      var mid := Drive(s, execs[..|execs| - 1]);
      DriveEnds(s, execs[..|execs| - 1]);
      NextEnds(mid, execs[|execs| - 1]);
      var t := Drive(s, execs);
      if !Ended(t) {
        Smaller(Left(t), Left(mid));
        EndedStays(mid, execs[|execs| - 1]);
      }
    }
  }

  lemma {:induction false} EndedStays(s: State, exec: Executor)
    ensures Ended(s) ==> ExecuteNext(s, exec, false) == s
  {
    hide ExecuteScheduled, FinalVerdict;
  }

  lemma {:induction false} CreatedIsServed(steps: Steps, truths: set<string>)
    ensures var s := Create(steps, truths, 0); Served(s, s)
  {
    hide Reaches, IsFirm;
    assert forall id :: StatusOf(Create(steps, truths, 0), id) == Pending;
  }

  /** A plan that is not strandable: whatever the executor does and whatever is retried,
      cancelled, paused or reloaded, as many further calls as there are steps end it. */
  lemma {:induction false} RetriedPlanEnds(steps: Steps, truths: set<string>, ops: seq<Operation>, execs: seq<Executor>)
    requires IsPlain(steps) && !Strandable(steps) && AllDriven(ops)
    requires |execs| >= |steps| && |execs| >= 1
    ensures Ended(Drive(ApplyAll(Create(steps, truths, 0), ops), execs))
  {
    hide Steady, Served, Drive, ApplyAll, Create, IsPlain, Strandable, Left, OpenSteps, Ended, AllDriven;
    var s := Create(steps, truths, 0);
    assert s.steps == steps by { CreatedSteps(steps, truths); }
    CreatedIsSteady(steps, truths);
    CreatedIsServed(steps, truths);
    OperationsServed(s, ops);
    var mid := ApplyAll(s, ops);
    DriveEnds(mid, execs);
    OpenIsLeft(mid);
    OpenIsLeft(Drive(mid, execs));
    if OpenSteps(Drive(mid, execs)) != {} {
      NotEmpty(OpenSteps(Drive(mid, execs)), Left(Drive(mid, execs)));
    }
  }

  lemma {:induction false} NotEmpty(a: set<Id>, b: set<Id>)
    requires a != {} && a <= b
    ensures |b| >= 1
  {
    Fewer(a, b);
    var x :| x in a;
    Fewer({x}, a);
  }

  // ----- a strandable plan: a run that strands a step

  lemma {:induction false} BlockedStrands(s: State, b: Id)
    requires NoneFailedOrCancelled(s) && StatusOf(s, b) == Blocked
    ensures Stranded(s)
  {
    StatusIsSome(s, b);
    forall id | id in s.stepStatus
      ensures s.stepStatus[id] != Failed && s.stepStatus[id] != Cancelled
    {
      assert StatusOf(s, id) == s.stepStatus[id];
    }
  }

  lemma {:induction false} StrandedIs(s: State) returns (b: Id)
    requires Stranded(s)
    ensures NoneFailedOrCancelled(s) && StatusOf(s, b) == Blocked
  {
    hide SomeStatus;
    b := StrandedStep(s);
    forall id
      ensures StatusOf(s, id) != Failed && StatusOf(s, id) != Cancelled
    {
      NoneFailedStatus(s, id);
    }
  }

  /** A blocked step stays blocked unless something it depends on is newly done. */
  lemma {:induction false} BlockedStays(s: State, first: State, t: State, x: Option<Id>, b: Id)
    requires Called(s, first, t, x) && StatusOf(s, b) == Blocked
    requires x.Some? && NewlyDone(s, first, x.value) ==> !Reaches(s.steps, x.value, b)
    ensures StatusOf(t, b) == Blocked
  {
    hide Reaches, PropagateFrom, UnblockEach, Downstream, CanFail, CanBeSkipped;
    assert Moves(s.steps, x, b, StatusOf(s, b), StatusOf(first, b));
    var marked := Spread(first);
    SpreadOnlyBlocks(first, b);
    PropagateKeepsChain(first, IdsOf(first.steps), first.stepStatus, true);
    if x.Some? {
      DownstreamIsReachable(s.steps, x.value, b);
      UnblockedEach(marked, Downstream(marked.steps, x.value), b);
    }
    assert StatusOf(t, b) == StatusIn(t.stepStatus, b);
  }

  /** Once a plan is stranded, no call ends it. */
  lemma {:induction false} StrandedStays(s: State, exec: Executor)
    requires Steady(s) && OpenSteps(s) == {} && Stranded(s) && !Ended(s)
    ensures var t := ExecuteNext(s, exec, false); Steady(t) && OpenSteps(t) == {} && Stranded(t) && !Ended(t)
  {
    hide Steady, OpenSteps, Stranded, ExecuteScheduled, FinalVerdict, Resting, Called, FirstRun, Core, Acyclic, FailedCanFail, Covered;
    SteadyIs(s);
    SteadyFails(s);
    if FinalVerdict(s).Some? {
      VerdictNotStranded(s);
    }
    var b := StrandedIs(s);
    var x := CallTaken(s, exec);
    NoneReadyWhenClosed(s);
    var first, t := FirstRun(s, exec), ExecuteNext(s, exec, false);
    StaysShut(s, first, t);
    ClosedUnchanged(s, first, t);
    BlockedStays(s, first, t, x, b);
    NextSteady(s, exec);
    BlockedStrands(t, b);
    CallEndsIff(s, exec);
  }

  lemma {:induction false} ClosedUnchanged(s: State, first: State, t: State)
    requires Called(s, first, t, None) && OpenSteps(s) == {} && NoneFailedOrCancelled(s)
    ensures NoneFailedOrCancelled(t)
  {
    hide Called, OpenSteps;
    CalledRan(s, first, t, None);
    forall id
      ensures StatusOf(t, id) != Failed && StatusOf(t, id) != Cancelled
    {
      CalledMoves(s, first, t, None, id);
      NotCancelled(s, first, None, id);
      NoFailureAlone(s, first, id);
    }
  }

  lemma {:induction false} NoFailureAlone(s: State, first: State, id: Id)
    requires Ran(s, first, None) && StatusOf(s, id) != Failed
    ensures StatusOf(first, id) != Failed
  {
    hide CanFail, CanBeSkipped;
    assert Moves(s.steps, None, id, StatusOf(s, id), StatusOf(first, id));
  }

  lemma {:induction false} DriveStranded(s: State, execs: seq<Executor>)
    requires Steady(s) && OpenSteps(s) == {} && Stranded(s) && !Ended(s)
    ensures var t := Drive(s, execs); Steady(t) && OpenSteps(t) == {} && Stranded(t) && !Ended(t)
  {
    hide Steady, OpenSteps, Stranded, ExecuteNext, Ended;
    if execs == [] {
    } else {
      DriveStranded(s, execs[..|execs| - 1]);
      StrandedStays(Drive(s, execs[..|execs| - 1]), execs[|execs| - 1]);
    }
  }

  // ----- ending quietly

  /** Nothing that `b` depends on can be done any more but will be satisfied. */
  ghost predicate Forsaken(s: State, b: Id) {
    && StatusOf(s, b) == Blocked && NoneFailedOrCancelled(s) && Budgets(s.steps)
    && forall m :: Reaches(s.steps, m, b) ==> IsSatisfied(StatusOf(s, m)) || !CanFail(s.steps, m)
  }

  ghost function QuietBefore(s: State, b: Id): set<Id> {
    set m | m in Ids(s.steps) && Reaches(s.steps, m, b) && !IsSatisfied(StatusOf(s, m))
  }

  lemma {:induction false} ForsakenSteers(s: State, b: Id)
    requires Forsaken(s, b)
    ensures CanSteer(s, None, QuietBefore(s, b))
  {
    hide Reaches, CanFail, Budgets, Ids;
  }

  lemma {:induction false} ForsakenStays(s: State, first: State, t: State, x: Option<Id>, b: Id)
    requires Forsaken(s, b) && Called(s, first, t, x) && Steered(s, first, None, QuietBefore(s, b)) && Covered(first)
    ensures Forsaken(t, b)
  {
    hide Reaches, CanFail, Budgets, Ids, Called, NoneFailedOrCancelled;
    StillNoneFailed(s, first, t, x, QuietBefore(s, b));
    CalledRan(s, first, t, x);
    if x.Some? && NewlyDone(s, first, x.value) {
      OnlyOneDone(s, first, x, x.value);
      assert x.value in first.stepStatus;
      assert x.value !in QuietBefore(s, b);
    }
    BlockedStays(s, first, t, x, b);
    forall m | Reaches(t.steps, m, b)
      ensures IsSatisfied(StatusOf(t, m)) || !CanFail(t.steps, m)
    {
      if IsSatisfied(StatusOf(s, m)) {
        MovedKeeps(s, first, x, m);
        SettledStays(s, first, t, x, m);
      }
    }
  }

  /** A call after which the plan is still not served does not end it. */
  lemma {:induction false} StrandedIsNoEnd(s: State, exec: Executor, b: Id)
    requires Steady(s) && !Ended(s) && Forsaken(ExecuteNext(s, exec, false), b)
    ensures var t := ExecuteNext(s, exec, false); Steady(t) && !Ended(t)
  {
    hide Steady, Resting, ExecuteNext, Stranded, OpenSteps, Core, Acyclic, FailedCanFail, Covered, NoneFailedOrCancelled, Ended;
    var t := ExecuteNext(s, exec, false);
    SteadyIs(s);
    SteadyFails(s);
    NextSteady(s, exec);
    SteadyFails(t);
    BlockedStrands(t, b);
    if OpenSteps(t) == {} {
      CallEndsIff(s, exec);
    }
  }

  lemma {:induction false} CloseQuietly(s: State, b: Id) returns (ops: seq<Operation>)
    requires Steady(s) && !Ended(s) && Forsaken(s, b)
    ensures AllDriven(ops)
    ensures var t := ApplyAll(s, ops); Steady(t) && !Ended(t) && OpenSteps(t) == {} && Stranded(t)
    decreases Left(s)
  {
    hide Steady, Forsaken, ApplyAll, ExecuteNext, OpenSteps, Left, Steered, Called, AllDriven, Stranded, Ended, FirstRun, Covered;
    if OpenSteps(s) == {} {
      ops := [];
      NothingApplied(s);
      ForsakenStrands(s, b);
    } else {
      OpenRuns(s);
      ForsakenSteers(s, b);
      var exec, x := SteerCall(s, None, QuietBefore(s, b));
      var t := ExecuteNext(s, exec, false);
      CoveredFirst(s, exec);
      ForsakenStays(s, FirstRun(s, exec), t, x, b);
      StrandedIsNoEnd(s, exec, b);
      NextSettles(s, exec);
      var rest := CloseQuietly(t, b);
      ops := [ExecuteNextStep(exec, false)] + rest;
      CallThen(s, exec, rest);
    }
  }

  lemma {:induction false} ForsakenStrands(s: State, b: Id)
    requires Forsaken(s, b)
    ensures Stranded(s)
  {
    hide NoneFailedOrCancelled, Stranded;
    BlockedStrands(s, b);
  }

  lemma {:induction false} CallThen(s: State, exec: Executor, rest: seq<Operation>)
    requires AllDriven(rest)
    ensures AllDriven([ExecuteNextStep(exec, false)] + rest)
    ensures ApplyAll(s, [ExecuteNextStep(exec, false)] + rest) == ApplyAll(ExecuteNext(s, exec, false), rest)
  {
    hide ApplyAll, ExecuteNext, AllDriven;
    var op := ExecuteNextStep(exec, false);
    ApplyOne(s, op);
    ApplyAllJoins(s, [op], rest);
    SteadyDriven(exec);
    DrivenOn([op], rest);
  }

  // ----- the two ways to strand a step

  /** A ready step whose condition does not hold is skipped. */
  lemma {:induction false} LoopSkips(s: State, exec: Executor)
    requires Resting(s) && InLoop(s) && ReadySteps(s) != [] && !ConditionHolds(ReadySteps(s)[0], s.truths)
    ensures StatusOf(Loop(s, exec, true), ReadySteps(s)[0].id) == Skipped
  {
    hide Resting, Loop, OpenSteps, NothingReady, StepTurn, ReadyAmong, StopIsFailed, NotAsking, Ran, NoConsent;
    var step := ReadySteps(s)[0];
    LoopUnfold(s, exec, true);
    RestingIs(s);
    TurnStops(s, exec, true);
    ReadyNeedsNoConsent(s, step);
    StepOutcome(s, step, exec);
    StepResting(s, step, exec);
    var t := StepTurn(s, step, exec, true).state;
    var x := LoopRan(t, exec);
    MovedKeeps(t, Loop(t, exec, true), x, step.id);
  }

  lemma {:induction false} FirstSkips(s: State, exec: Executor)
    requires Resting(s) && !Ended(s) && ReadySteps(s) != [] && !ConditionHolds(ReadySteps(s)[0], s.truths)
    ensures StatusOf(FirstRun(s, exec), ReadySteps(s)[0].id) == Skipped
  {
    hide Resting, Loop, ReadyAmong, ConditionHolds;
    var r := Reopened(s);
    SameResting(s, r);
    RestingIs(r);
    ReopenedRuns(s);
    RebuildChangesNothing(r);
    var begin := r.(status := PlanRunning, pausedReason := None, pausedStep := None);
    SameResting(r, begin);
    SameReady(s, begin, s.steps);
    LoopSkips(begin, exec);
  }

  /** A run that ends with a step stranded. */
  ghost predicate StrandsBy(steps: Steps, truths: set<string>, ops: seq<Operation>) {
    var t := ApplyAll(Create(steps, truths, 0), ops);
    AllDriven(ops) && Steady(t) && t.steps == steps && !Ended(t) && OpenSteps(t) == {} && Stranded(t)
  }

  lemma {:induction false} KeyFails(s: State, step: Step, q: Id)
    requires step in ReadySteps(s) && step.id == q && CanBeSkipped(s.steps, q) && s.truths == {} && DistinctIds(s.steps)
    ensures !ConditionHolds(step, s.truths)
  {
    hide DistinctIds;
    assert step in s.steps && IsReady(s, step);
    FindIs(s.steps, step);
  }

  /** Only the open step can be newly done, and it is skipped. */
  lemma {:induction false} NoneNewlyDone(s: State, first: State, x: Option<Id>, q: Id)
    requires Steady(s) && Halved(s, q) && Ran(s, first, x) && Covered(first) && StatusOf(first, q) == Skipped
    ensures x.Some? ==> !NewlyDone(s, first, x.value)
  {
    hide Steady, Reaches, Ids, Ran;
    if x.Some? && NewlyDone(s, first, x.value) {
      OnlyOneDone(s, first, x, x.value);
      assert x.value in first.stepStatus;
      RanSteps(s, first, x);
    }
  }

  lemma {:induction false} HalvedCloses(s: State, first: State, t: State, x: Option<Id>, q: Id)
    requires Halved(s, q) && Called(s, first, t, x) && StatusOf(first, q) == Skipped
    requires x.Some? ==> !NewlyDone(s, first, x.value)
    ensures OpenSteps(t) == {}
  {
    hide Reaches, Ids, Called, OpenSteps, NewlyDone;
    CalledRan(s, first, t, x);
    forall id
      ensures id !in OpenSteps(t)
    {
      InOpenSteps(t, id);
      if id == q {
        SettledStays(s, first, t, x, q);
      } else if id in Ids(s.steps) {
        if Reaches(s.steps, q, id) {
          BlockedStays(s, first, t, x, id);
        } else {
          MovedKeeps(s, first, x, id);
          SettledStays(s, first, t, x, id);
        }
      }
    }
  }

  lemma {:induction false} BlockedInHalves(s: State, q: Id, b: Id)
    requires Halved(s, q) && DependsOn(s.steps, b, q) && Acyclic(s.steps)
    ensures StatusOf(s, b) == Blocked
  {
    hide Reaches, Ids, DependsOn, Acyclic;
    DirectlyReaches(s.steps, q, b);
    DependentIsStep(s.steps, b, q);
    ReachesNotItself(s.steps, q);
  }

  /** A step failed and is tried again, but skipped: what depends on it stays blocked. */
  lemma {:induction false} SkippingStrands(s: State, q: Id, b: Id) returns (exec: Executor)
    requires Steady(s) && Budgets(s.steps) && DependsOn(s.steps, b, q) && CanBeSkipped(s.steps, q) && q in Ids(s.steps)
    requires StatusOf(s, q) == Pending && Halved(s, q) && s.truths == {}
    ensures var t := ExecuteNext(s, exec, false);
      Steady(t) && t.steps == s.steps && !Ended(t) && OpenSteps(t) == {} && Stranded(t)
  {
    hide Steady, ExecuteNext, Budgets, Halved, CanBeSkipped, ReadyAmong, FirstRun, Steered, NoneFailedOrCancelled, DependsOn, Resting,
      Ids, Runs, Called, ConditionHolds, Ended, Core, NoLeak, Acyclic, FailedCanFail, Covered, DistinctIds, OpenSteps, Stranded;
    OnlyOpen(s, q);
    SteadyIs(s);
    SteadyFails(s);
    KeyFails(s, ReadySteps(s)[0], q);
    NothingToSteer(s);
    var x: Option<Id>;
    exec, x := SteerCall(s, None, {});
    var first, t := FirstRun(s, exec), ExecuteNext(s, exec, false);
    RunsIs(s);
    FirstSkips(s, exec);
    HalvedHasNoFailure(s, q);
    StillNoneFailed(s, first, t, x, {});
    CalledRan(s, first, t, x);
    CoveredFirst(s, exec);
    NoneNewlyDone(s, first, x, q);
    HalvedCloses(s, first, t, x, q);
    BlockedInHalves(s, q, b);
    BlockedStays(s, first, t, x, b);
    BlockedStrands(t, b);
    NextSteady(s, exec);
    CallEndsIff(s, exec);
  }

  lemma {:induction false} SkipWitness(steps: Steps, b: Id, q: Id) returns (truths: set<string>, ops: seq<Operation>)
    requires IsPlain(steps) && Budgets(steps) && DependsOn(steps, b, q) && CanFail(steps, q) && CanBeSkipped(steps, q)
    ensures StrandsBy(steps, truths, ops)
  {
    hide Steady, ExecuteNext, Budgets, Halved, CanBeSkipped, CanFail, DependsOn, IsPlain, Ended, OpenSteps, Stranded, ApplyAll, Create,
      AllDriven;
    var first: seq<Operation>;
    truths, first := FailAndRetry(steps, q);
    var s := ApplyAll(Create(steps, truths, 0), first);
    CanFailIsStep(steps, q);
    var exec := SkippingStrands(s, q, b);
    ops := first + [ExecuteNextStep(exec, false)];
    ThenCall(Create(steps, truths, 0), first, exec);
  }

  lemma {:induction false} ThenCall(s: State, ops: seq<Operation>, exec: Executor)
    requires AllDriven(ops)
    ensures AllDriven(ops + [ExecuteNextStep(exec, false)])
    ensures ApplyAll(s, ops + [ExecuteNextStep(exec, false)]) == ExecuteNext(ApplyAll(s, ops), exec, false)
  {
    hide ApplyAll, ExecuteNext, AllDriven;
    var op := ExecuteNextStep(exec, false);
    ApplyAllJoins(s, ops, [op]);
    ApplyOne(ApplyAll(s, ops), op);
    SteadyDriven(exec);
    DrivenOn(ops, [op]);
  }

  // ----- a pass out of order

  lemma {:induction false} OnlyQuietBetween(steps: Steps, l: Id, b: Id, m: Id)
    requires !SkipStrands(steps) && Reaches(steps, m, b) && Reaches(steps, l, m)
    requires forall x :: Between(steps, l, x, b) ==> !IsFirm(steps, x)
    ensures !CanFail(steps, m)
  {
    hide SkipStrands, Reaches, CanFail, IsFirm;
    assert Between(steps, l, m, b);
    if CanFail(steps, m) {
      FailingIsFirm(steps, m, b);
    }
  }

  /** After the pass the step that was passed over has nothing left to be done behind it. */
  lemma {:induction false} PassForsakes(s: State, first: State, t: State, l: Id, k: nat, j: nat)
    requires Budgets(s.steps) && !SkipStrands(s.steps) && PassStrandsAt(s.steps, l, k, j)
    requires Called(s, first, t, Some(l)) && t.stepStatus == PropagateUnblock(first, l).stepStatus
    requires DistinctIds(s.steps) && Acyclic(s.steps) && DependenciesExist(s.steps)
    requires first.steps == s.steps && Halved(first, l) && StatusOf(first, l) == Done && NoneFailedOrCancelled(t)
    ensures Forsaken(t, Downstream(s.steps, l)[k])
  {
    hide Budgets, SkipStrands, Downstream, DependsOn, Halved, Called, NoneFailedOrCancelled, CanFail, IsFirm, DistinctIds, Acyclic,
      UnblockEach, DependenciesExist;
    var b := Downstream(s.steps, l)[k];
    forall id | id in Downstream(s.steps, l)
      ensures StatusOf(first, id) == Blocked
    {
      HalvedDownstream(first, l, id);
    }
    PassMisses(first, l, k, j);
    SameStatus(t, PropagateUnblock(first, l), b);
    CalledRan(s, first, t, Some(l));
    forall m | Reaches(t.steps, m, b)
      ensures IsSatisfied(StatusOf(t, m)) || !CanFail(t.steps, m)
    {
      if Reaches(s.steps, l, m) {
        OnlyQuietBetween(s.steps, l, b, m);
      } else {
        BeforeInHalves(first, l, m, b);
        SettledStays(s, first, t, Some(l), m);
      }
    }
  }

  lemma {:induction false} SameStatus(t: State, u: State, id: Id)
    requires t.stepStatus == u.stepStatus
    ensures StatusOf(t, id) == StatusOf(u, id)
  {
  }

  lemma {:induction false} BeforeInHalves(first: State, l: Id, m: Id, b: Id)
    requires Halved(first, l) && StatusOf(first, l) == Done && DependenciesExist(first.steps)
    requires Reaches(first.steps, m, b) && !Reaches(first.steps, l, m)
    ensures IsSatisfied(StatusOf(first, m))
  {
    hide Reaches, DependsOn, Ids;
    var c := HasDependent(first.steps, m, b);
    assert m in Ids(first.steps);
  }

  lemma {:induction false} PlainIs(steps: Steps)
    requires IsPlain(steps)
    ensures DistinctIds(steps) && DependenciesExist(steps) && Acyclic(steps)
  {
  }

  lemma {:induction false} PassWitness(steps: Steps, l: Id, k: nat, j: nat) returns (truths: set<string>, ops: seq<Operation>)
    requires IsPlain(steps) && Budgets(steps) && !SkipStrands(steps) && PassStrandsAt(steps, l, k, j)
    ensures StrandsBy(steps, truths, ops)
  {
    hide Steady, ExecuteNext, Budgets, Halved, CanFail, IsFirm, DependsOn, IsPlain, Ended, OpenSteps, Stranded, ApplyAll, Create,
      AllDriven, SkipStrands, PassStrandsAt, NoneFailedOrCancelled, Forsaken, Called, Downstream, UnblockEach, Runs, DistinctIds, Acyclic,
      DependenciesExist;
    PassStrandsIs(steps, l, k, j);
    var fail, exec, first;
    truths, fail, exec, first := FailRetryDone(steps, l);
    var start := Create(steps, truths, 0);
    var s := ApplyAll(start, fail);
    var t := ExecuteNext(s, exec, false);
    PlainIs(steps);
    PassForsakes(s, first, t, l, k, j);
    RunsIs(s);
    StrandedIsNoEnd(s, exec, Downstream(steps, l)[k]);
    CalledRan(s, first, t, Some(l));
    ThenCall(start, fail, exec);
    var quiet := CloseQuietly(t, Downstream(steps, l)[k]);
    ops := fail + [ExecuteNextStep(exec, false)] + quiet;
    ApplyAllJoins(start, fail + [ExecuteNextStep(exec, false)], quiet);
    DrivenOn(fail + [ExecuteNextStep(exec, false)], quiet);
    RunSteady(steps, truths, ops);
  }

  lemma {:induction false} PassStrandsIs(steps: Steps, l: Id, k: nat, j: nat)
    requires PassStrandsAt(steps, l, k, j)
    ensures IsFirm(steps, l) && k < |Downstream(steps, l)|
  {
    hide Downstream, DependsOn;
  }

  // ----- exactly which plans end

  /** Whatever the executor does and whatever is retried, cancelled, paused or reloaded on the
      way, as many further calls as there are steps (at least one) end the plan. */
  ghost predicate AlwaysEnds(steps: Steps) {
    forall truths, ops, execs: seq<Executor> :: AllDriven(ops) && |execs| >= |steps| && |execs| >= 1 ==>
      Ended(Drive(ApplyAll(Create(steps, truths, 0), ops), execs))
  }

  lemma {:induction false} StrandWitness(steps: Steps) returns (truths: set<string>, ops: seq<Operation>)
    requires IsPlain(steps) && Budgets(steps) && Strandable(steps)
    ensures StrandsBy(steps, truths, ops)
  {
    hide IsPlain, Budgets, DependsOn, CanFail, CanBeSkipped, PassStrandsAt, StrandsBy;
    if SkipStrands(steps) {
      var b, q :| DependsOn(steps, b, q) && CanFail(steps, q) && CanBeSkipped(steps, q);
      truths, ops := SkipWitness(steps, b, q);
    } else {
      var l, k: nat, j: nat :| PassStrandsAt(steps, l, k, j);
      truths, ops := PassWitness(steps, l, k, j);
    }
  }

  lemma {:induction false} UnstrandableEnds(steps: Steps)
    requires IsPlain(steps) && !Strandable(steps)
    ensures AlwaysEnds(steps)
  {
    hide IsPlain, Strandable, AllDriven, Drive, ApplyAll, Create, Ended;
    forall truths, ops, execs: seq<Executor> | AllDriven(ops) && |execs| >= |steps| && |execs| >= 1
      ensures Ended(Drive(ApplyAll(Create(steps, truths, 0), ops), execs))
    {
      RetriedPlanEnds(steps, truths, ops, execs);
    }
  }

  /** A plan always ends exactly when it is not strandable. */
  lemma {:induction false} AlwaysEndsIff(steps: Steps)
    requires IsPlain(steps) && Budgets(steps)
    ensures AlwaysEnds(steps) <==> !Strandable(steps)
  {
    hide IsPlain, Budgets, Strandable, AllDriven, Drive, ApplyAll, Create, Ended;
    if Strandable(steps) {
      var truths, ops := StrandWitness(steps);
      var execs := seq(|steps| + 1, (i: nat) => Always(Returned(false, {})));
      StrandedDrive(steps, truths, ops, execs);
    } else {
      UnstrandableEnds(steps);
    }
  }

  lemma {:induction false} StrandedDrive(steps: Steps, truths: set<string>, ops: seq<Operation>, execs: seq<Executor>)
    requires StrandsBy(steps, truths, ops)
    ensures AllDriven(ops) && !Ended(Drive(ApplyAll(Create(steps, truths, 0), ops), execs))
  {
    hide Steady, AllDriven, Drive, ApplyAll, Create, Ended, OpenSteps, Stranded;
    DriveStranded(ApplyAll(Create(steps, truths, 0), ops), execs);
  }

  lemma {:induction false} FirmSkipsNothing(steps: Steps)
    requires forall id :: id in Ids(steps) ==> IsFirm(steps, id)
    ensures !SkipStrands(steps)
  {
    hide CanFail, CanBeSkipped, DependsOn, Ids;
    forall b, q | DependsOn(steps, b, q) && CanFail(steps, q)
      ensures !CanBeSkipped(steps, q)
    {
      CanFailIsStep(steps, q);
      assert IsFirm(steps, q);
    }
  }

  lemma {:induction false} FirmInPass(steps: Steps, l: Id, k: nat, j: nat)
    requires forall id :: id in Ids(steps) ==> IsFirm(steps, id)
    ensures !PassStrandsAt(steps, l, k, j)
  {
    hide IsFirm, DependsOn, Ids, Downstream, Reaches;
    var walk := Downstream(steps, l);
    if k <= j < |walk| && DependsOn(steps, walk[k], walk[j]) {
      DownstreamIsReachable(steps, l, walk[j]);
      DirectlyReaches(steps, walk[j], walk[k]);
      assert Between(steps, l, walk[j], walk[k]) && IsFirm(steps, walk[j]);
    }
  }

  /** Without conditions and degrade values a plan always ends. */
  lemma {:induction false} FirmPlansEnd(steps: Steps)
    requires IsPlain(steps) && forall id :: id in Ids(steps) ==> IsFirm(steps, id)
    ensures !Strandable(steps) && AlwaysEnds(steps)
  {
    hide IsPlain, IsFirm, Ids, PassStrandsAt, SkipStrands, AlwaysEnds;
    FirmSkipsNothing(steps);
    forall l, k: nat, j: nat
      ensures !PassStrandsAt(steps, l, k, j)
    {
      FirmInPass(steps, l, k, j);
    }
    UnstrandableEnds(steps);
  }

  // ----- a plan that only a pass out of order can strand

  const DEGRADING: Steps := [ROOT, LATE, EARLY.(degradeTruthy := Some(true))]

  lemma {:induction false} DegradingFails(id: Id)
    ensures CanBeSkipped(DEGRADING, id) ==> false
    ensures IsFirm(DEGRADING, "c") ==> false
  {
    if Find(DEGRADING, id).Some? {
      assert Find(DEGRADING, id).value in DEGRADING;
    }
    LateDependencies(DEGRADING, "", "");
    FindIs(DEGRADING, DEGRADING[2]);
  }

  lemma {:induction false} DegradingBetween(m: Id)
    requires Between(DEGRADING, "d", m, "b")
    ensures m == "c"
  {
    hide Downstream, DependsOn, IsPlain, Reaches, Ids, Acyclic;
    LateIsPlain(DEGRADING);
    LateDependencies(DEGRADING, "b", "c");
    PlainIs(DEGRADING);
    ReachesNotItself(DEGRADING, m);
    DownstreamIsReachable(DEGRADING, "d", m);
    assert m in Ids(DEGRADING);
    assert m != "d" && m != "b";
  }

  /** No step of this plan has a condition: a step is retried, done, and reopens the step that
      degrades only after the one behind it. */
  lemma {:induction false} DegradingStrands()
    ensures IsPlain(DEGRADING) && !SkipStrands(DEGRADING) && Strandable(DEGRADING) && !AlwaysEnds(DEGRADING)
  {
    hide Downstream, DependsOn, AlwaysEnds, IsPlain, Budgets, IsFirm, CanFail, CanBeSkipped, Reaches, Ids;
    LateIsPlain(DEGRADING);
    LateWalk(DEGRADING);
    LateDependencies(DEGRADING, "b", "c");
    DegradingFails("c");
    forall id
      ensures !CanBeSkipped(DEGRADING, id)
    {
      DegradingFails(id);
    }
    forall m | Between(DEGRADING, "d", m, "b")
      ensures !IsFirm(DEGRADING, m)
    {
      DegradingBetween(m);
    }
    assert PassStrandsAt(DEGRADING, "d", 0, 1);
    AlwaysEndsIff(DEGRADING);
  }
}
