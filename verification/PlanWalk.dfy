/** The breadth-first walk from a step to everything that depends on it. */
module PlanWalk {
  import opened PlanDag

  /** How often `id` is named by one list of dependencies, as entries for `step`. */
  function Entries(dependencies: seq<Id>, id: Id, step: Id): seq<Id> {
    if dependencies == [] then []
    else (if dependencies[0] == id then [step] else []) + Entries(dependencies[1..], id, step)
  }

  /** The adjacency list of the steps that depend on `id`, in the order of the steps. */
  function Successors(steps: Steps, id: Id): seq<Id> {
    if steps == [] then []
    else Entries(steps[0].dependsOn, id, steps[0].id) + Successors(steps[1..], id)
  }

  lemma {:induction false} EntriesAre(dependencies: seq<Id>, id: Id, step: Id, x: Id)
    ensures x in Entries(dependencies, id, step) <==> x == step && id in dependencies
  {
    if dependencies == [] {
    } else {
      EntriesAre(dependencies[1..], id, step, x);
      assert id in dependencies <==> id == dependencies[0] || id in dependencies[1..];
    }
  }

  lemma {:induction false} DependsOnSplit(steps: Steps, a: Id, b: Id)
    requires steps != []
    ensures DependsOn(steps, a, b) <==>
      (steps[0].id == a && b in steps[0].dependsOn) || DependsOn(steps[1..], a, b)
  {
    var rest := steps[1..];
    if DependsOn(steps, a, b) {
      var i :| 0 <= i < |steps| && steps[i].id == a && b in steps[i].dependsOn;
      assert i > 0 ==> rest[i - 1] == steps[i];
    }
    if DependsOn(rest, a, b) {
      var i :| 0 <= i < |rest| && rest[i].id == a && b in rest[i].dependsOn;
      assert steps[i + 1] == rest[i];
    }
  }

  lemma {:induction false} SuccessorsAre(steps: Steps, id: Id, x: Id)
    ensures x in Successors(steps, id) <==> DependsOn(steps, x, id)
  {
    hide DependsOn, Entries;
    if steps == [] {
      NothingDepends(x, id);
    } else {
      SuccessorsAre(steps[1..], id, x);
      EntriesAre(steps[0].dependsOn, id, steps[0].id, x);
      DependsOnSplit(steps, x, id);
    }
  }

  lemma {:induction false} NothingDepends(a: Id, b: Id)
    ensures !DependsOn([], a, b)
  {
  }

  lemma {:induction false} DependentIsStep(steps: Steps, a: Id, b: Id)
    requires DependsOn(steps, a, b)
    ensures a in Ids(steps)
  {
  }

  ghost predicate AllSteps(steps: Steps, ids: seq<Id>) {
    forall k :: 0 <= k < |ids| ==> ids[k] in Ids(steps)
  }

  lemma {:induction false} SuccessorsAreSteps(steps: Steps, id: Id)
    ensures AllSteps(steps, Successors(steps, id))
  {
    hide Ids, DependsOn, Successors;
    var ids := Successors(steps, id);
    forall k | 0 <= k < |ids|
      ensures ids[k] in Ids(steps)
    {
      SuccessorsAre(steps, id, ids[k]);
      DependentIsStep(steps, ids[k], id);
    }
  }

  /** The steps in the order in which they leave the queue for the first time. */
  ghost function Walk(steps: Steps, queue: seq<Id>, visited: set<Id>): (walk: seq<Id>)
    requires AllSteps(steps, queue)
    decreases Ids(steps) - visited, |queue|
  {
    if queue == [] then []
    else
      var id := queue[0];
      if id in visited then
        assert AllSteps(steps, queue[1..]);
        Walk(steps, queue[1..], visited)
      else
        SuccessorsAreSteps(steps, id);
        assert id in Ids(steps);
        Enqueued(steps, queue[1..], Successors(steps, id));
        [id] + Walk(steps, queue[1..] + Successors(steps, id), visited + {id})
  }

  lemma {:induction false} Enqueued(steps: Steps, a: seq<Id>, b: seq<Id>)
    requires AllSteps(steps, a) && AllSteps(steps, b)
    ensures AllSteps(steps, a + b)
  {
  }

  /** Everything the propagation from `id` looks at, in order. */
  ghost function Downstream(steps: Steps, id: Id): seq<Id> {
    SuccessorsAreSteps(steps, id);
    Walk(steps, Successors(steps, id), {})
  }

  // ----- the walk visits exactly what is reachable

  /** `to` depends on `from`, directly or through other steps. */
  ghost predicate Reaches(steps: Steps, from: Id, to: Id) {
    exists path :: |path| > 1 && IsPath(steps, path) && path[0] == to && path[|path| - 1] == from
  }

  lemma {:induction false} DirectlyReaches(steps: Steps, from: Id, to: Id)
    requires DependsOn(steps, to, from)
    ensures Reaches(steps, from, to)
  {
    var path := [to, from];
    assert IsPath(steps, path);
  }

  lemma {:induction false} ReachesFurther(steps: Steps, from: Id, mid: Id, to: Id)
    requires Reaches(steps, from, mid) && DependsOn(steps, to, mid)
    ensures Reaches(steps, from, to)
  {
    hide DependsOn;
    var path :| |path| > 1 && IsPath(steps, path) && path[0] == mid && path[|path| - 1] == from;
    var longer := [to] + path;
    forall k | 0 < k < |longer|
      ensures DependsOn(steps, longer[k - 1], longer[k])
    {
      assert k > 1 ==> DependsOn(steps, path[k - 2], path[k - 1]);
    }
    assert IsPath(steps, longer);
  }

  lemma {:induction false} WalkUnfold(steps: Steps, queue: seq<Id>, visited: set<Id>)
    requires AllSteps(steps, queue) && queue != []
    ensures AllSteps(steps, queue[1..]) && AllSteps(steps, queue[1..] + Successors(steps, queue[0]))
    ensures queue[0] in Ids(steps)
    ensures Walk(steps, queue, visited) ==
      if queue[0] in visited then Walk(steps, queue[1..], visited)
      else [queue[0]] + Walk(steps, queue[1..] + Successors(steps, queue[0]), visited + {queue[0]})
  {
    SuccessorsAreSteps(steps, queue[0]);
    Enqueued(steps, queue[1..], Successors(steps, queue[0]));
  }

  ghost predicate AllReached(steps: Steps, from: Id, ids: seq<Id>) {
    forall k :: 0 <= k < |ids| ==> Reaches(steps, from, ids[k])
  }

  lemma {:induction false} ReachedMore(steps: Steps, from: Id, ids: seq<Id>, next: Id)
    requires AllReached(steps, from, ids) && Reaches(steps, from, next)
    ensures AllReached(steps, from, ids + Successors(steps, next))
  {
    hide Reaches, Successors;
    var more := Successors(steps, next);
    forall k | 0 <= k < |more|
      ensures Reaches(steps, from, more[k])
    {
      SuccessorsAre(steps, next, more[k]);
      ReachesFurther(steps, from, next, more[k]);
    }
  }

  lemma {:induction false} WalkIsReached(steps: Steps, from: Id, queue: seq<Id>, visited: set<Id>)
    requires AllSteps(steps, queue) && AllReached(steps, from, queue)
    ensures AllReached(steps, from, Walk(steps, queue, visited))
    ensures AllSteps(steps, Walk(steps, queue, visited))
    decreases Ids(steps) - visited, |queue|
  {
    hide Walk, Reaches, Successors, Ids;
    if queue == [] {
      WalkEmpty(steps, visited);
    } else {
      WalkUnfold(steps, queue, visited);
      assert Reaches(steps, from, queue[0]);
      if queue[0] in visited {
        WalkIsReached(steps, from, queue[1..], visited);
      } else {
        ReachedMore(steps, from, queue[1..], queue[0]);
        WalkIsReached(steps, from, queue[1..] + Successors(steps, queue[0]), visited + {queue[0]});
      }
    }
  }

  lemma {:induction false} WalkEmpty(steps: Steps, visited: set<Id>)
    ensures AllSteps(steps, []) && Walk(steps, [], visited) == []
  {
  }

  /** Nothing that waits in the queue is lost. */
  lemma {:induction false} WalkTakesQueue(steps: Steps, queue: seq<Id>, visited: set<Id>, id: Id)
    requires AllSteps(steps, queue) && id in queue
    ensures id in Walk(steps, queue, visited) || id in visited
    decreases Ids(steps) - visited, |queue|
  {
    hide Walk, Successors, Ids;
    WalkUnfold(steps, queue, visited);
    if queue[0] in visited {
      if id != queue[0] {
        WalkTakesQueue(steps, queue[1..], visited, id);
      }
    } else if id != queue[0] {
      WalkTakesQueue(steps, queue[1..] + Successors(steps, queue[0]), visited + {queue[0]}, id);
    }
  }

  /** The walk is closed: what depends on a visited step is visited. */
  lemma {:induction false} WalkCloses(steps: Steps, queue: seq<Id>, visited: set<Id>, mid: Id, to: Id)
    requires AllSteps(steps, queue) && mid in Walk(steps, queue, visited) && DependsOn(steps, to, mid)
    ensures to in Walk(steps, queue, visited) || to in visited
    decreases Ids(steps) - visited, |queue|
  {
    hide Walk, Successors, Ids, DependsOn;
    if queue == [] {
      WalkEmpty(steps, visited);
    } else {
      WalkUnfold(steps, queue, visited);
      if queue[0] in visited {
        WalkCloses(steps, queue[1..], visited, mid, to);
      } else {
        var rest, marked := queue[1..] + Successors(steps, queue[0]), visited + {queue[0]};
        if mid == queue[0] {
          SuccessorsAre(steps, mid, to);
          WalkTakesQueue(steps, rest, marked, to);
        } else {
          WalkCloses(steps, rest, marked, mid, to);
        }
      }
    }
  }

  lemma {:induction false} WalkCovers(steps: Steps, from: Id, path: seq<Id>)
    requires |path| > 1 && IsPath(steps, path) && path[|path| - 1] == from
    ensures path[0] in Downstream(steps, from)
    decreases |path|
  {
    hide Walk, Successors, DependsOn;
    var start := Successors(steps, from);
    SuccessorsAreSteps(steps, from);
    assert DependsOn(steps, path[0], path[1]);
    if |path| == 2 {
      SuccessorsAre(steps, from, path[0]);
      WalkTakesQueue(steps, start, {}, path[0]);
    } else {
      WalkCovers(steps, from, path[1..]) by {
        assert forall k :: 0 < k < |path| - 1 ==> DependsOn(steps, path[1..][k - 1], path[1..][k]) by {
          assert forall k :: 0 < k < |path| - 1 ==> path[1..][k - 1] == path[k] && path[1..][k] == path[k + 1];
        }
      }
      WalkCloses(steps, start, {}, path[1], path[0]);
    }
  }

  /** The walk visits exactly the steps that depend on `from`. */
  lemma {:induction false} DownstreamIsReachable(steps: Steps, from: Id, to: Id)
    ensures to in Downstream(steps, from) <==> Reaches(steps, from, to)
    ensures to in Downstream(steps, from) ==> to in Ids(steps)
  {
    hide Walk, IsPath, Successors, Ids;
    SuccessorsAreSteps(steps, from);
    StartIsReached(steps, from);
    WalkIsReached(steps, from, Successors(steps, from), {});
    if Reaches(steps, from, to) {
      var path :| |path| > 1 && IsPath(steps, path) && path[0] == to && path[|path| - 1] == from;
      WalkCovers(steps, from, path);
    }
  }

  lemma {:induction false} StartIsReached(steps: Steps, from: Id)
    ensures AllReached(steps, from, Successors(steps, from))
  {
    hide Reaches, Successors;
    var ids := Successors(steps, from);
    forall k | 0 <= k < |ids|
      ensures Reaches(steps, from, ids[k])
    {
      SuccessorsAre(steps, from, ids[k]);
      DirectlyReaches(steps, from, ids[k]);
    }
  }
}
