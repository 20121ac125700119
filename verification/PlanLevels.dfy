/** The walk behind a step is breadth first: what is fewer dependencies away comes earlier. */
module PlanLevels {
  import opened PlanDag
  import opened PlanWalk

  /** `to` depends on `from` over at most `n` dependencies. */
  ghost predicate Within(steps: Steps, from: Id, to: Id, n: nat) {
    exists path :: 1 < |path| <= n + 1 && IsPath(steps, path) && path[0] == to && path[|path| - 1] == from
  }

  lemma {:induction false} WithinMore(steps: Steps, from: Id, to: Id, n: nat, m: nat)
    requires n <= m
    ensures Within(steps, from, to, n) ==> Within(steps, from, to, m)
  {
  }

  lemma {:induction false} WithinOne(steps: Steps, from: Id, to: Id)
    ensures Within(steps, from, to, 1) <==> DependsOn(steps, to, from)
  {
    hide DependsOn;
    if Within(steps, from, to, 1) {
      var path :| |path| == 2 && IsPath(steps, path) && path[0] == to && path[1] == from;
    }
    if DependsOn(steps, to, from) {
      var path := [to, from];
      assert IsPath(steps, path);
    }
  }

  lemma {:induction false} WithinNext(steps: Steps, from: Id, mid: Id, to: Id, n: nat)
    requires Within(steps, from, mid, n) && DependsOn(steps, to, mid)
    ensures Within(steps, from, to, n + 1)
  {
    hide DependsOn;
    var path :| 1 < |path| <= n + 1 && IsPath(steps, path) && path[0] == mid && path[|path| - 1] == from;
    var longer := [to] + path;
    forall k | 0 < k < |longer|
      ensures DependsOn(steps, longer[k - 1], longer[k])
    {
      assert k > 1 ==> DependsOn(steps, path[k - 2], path[k - 1]);
    }
    assert IsPath(steps, longer) && longer[0] == to && longer[|longer| - 1] == from;
  }

  /** What is one dependency farther depends on something that is not. */
  lemma {:induction false} WithinBefore(steps: Steps, from: Id, to: Id, n: nat)
    requires Within(steps, from, to, n + 1) && !Within(steps, from, to, n) && n >= 1
    ensures exists mid :: Within(steps, from, mid, n) && DependsOn(steps, to, mid)
  {
    hide DependsOn;
    var path :| 1 < |path| <= n + 2 && IsPath(steps, path) && path[0] == to && path[|path| - 1] == from;
    var rest := path[1..];
    assert DependsOn(steps, path[0], path[1]);
    forall k | 0 < k < |rest|
      ensures DependsOn(steps, rest[k - 1], rest[k])
    {
      assert DependsOn(steps, path[k], path[k + 1]);
    }
    assert 1 < |rest| <= n + 1 && rest[0] == path[1] && rest[|rest| - 1] == from;
    assert Within(steps, from, path[1], n);
  }

  // ----- one level of the walk

  /** What is appended to the queue while it is worked off up to `queue[|queue|]`. */
  ghost function Behind(steps: Steps, queue: seq<Id>, visited: set<Id>): seq<Id> {
    if queue == [] then []
    else if queue[0] in visited then Behind(steps, queue[1..], visited)
    else Successors(steps, queue[0]) + Behind(steps, queue[1..], visited + {queue[0]})
  }

  /** What leaves the queue for the first time meanwhile. */
  function FirstOut(queue: seq<Id>, visited: set<Id>): seq<Id> {
    if queue == [] then []
    else if queue[0] in visited then FirstOut(queue[1..], visited)
    else [queue[0]] + FirstOut(queue[1..], visited + {queue[0]})
  }

  lemma {:induction false} FirstOutIs(queue: seq<Id>, visited: set<Id>, x: Id)
    ensures x in FirstOut(queue, visited) <==> x in queue && x !in visited
  {
    if queue == [] {
    } else if queue[0] in visited {
      FirstOutIs(queue[1..], visited, x);
    } else {
      FirstOutIs(queue[1..], visited + {queue[0]}, x);
    }
  }

  lemma {:induction false} BehindIs(steps: Steps, queue: seq<Id>, visited: set<Id>, x: Id)
    ensures x in Behind(steps, queue, visited) <==> exists y :: y in queue && y !in visited && DependsOn(steps, x, y)
  {
    hide DependsOn, Successors;
    if queue == [] {
    } else if queue[0] in visited {
      BehindIs(steps, queue[1..], visited, x);
    } else {
      BehindIs(steps, queue[1..], visited + {queue[0]}, x);
      SuccessorsAre(steps, queue[0], x);
      if DependsOn(steps, x, queue[0]) {
        assert queue[0] in queue;
      }
    }
  }

  /** Working off a first part of the queue. */
  lemma {:induction false} LevelOff(steps: Steps, front: seq<Id>, back: seq<Id>, visited: set<Id>)
    requires AllSteps(steps, front + back)
    ensures AllSteps(steps, back + Behind(steps, front, visited))
    ensures Walk(steps, front + back, visited) ==
            FirstOut(front, visited) + Walk(steps, back + Behind(steps, front, visited), visited + (set x | x in front))
    decreases |front|
  {
    hide Walk, Successors, Ids;
    var queue := front + back;
    if front == [] {
      assert queue == back && back + [] == back;
      assert visited + (set x | x in front) == visited;
    } else {
      WalkUnfold(steps, queue, visited);
      assert queue[0] == front[0] && queue[1..] == front[1..] + back;
      if front[0] in visited {
        LevelOff(steps, front[1..], back, visited);
        assert visited + (set x | x in front) == visited + (set x | x in front[1..]);
      } else {
        var more, marked := Successors(steps, front[0]), visited + {front[0]};
        assert queue[1..] + more == front[1..] + (back + more);
        LevelOff(steps, front[1..], back + more, marked);
        assert back + more + Behind(steps, front[1..], marked) == back + Behind(steps, front, visited);
        assert marked + (set x | x in front[1..]) == visited + (set x | x in front);
      }
    }
  }

  /** The walk leaves out what has been visited. */
  lemma {:induction false} WalkIsNew(steps: Steps, queue: seq<Id>, visited: set<Id>, x: Id)
    requires AllSteps(steps, queue) && x in visited
    ensures x !in Walk(steps, queue, visited)
    decreases Ids(steps) - visited, |queue|
  {
    hide Walk, Successors, Ids;
    if queue == [] {
      WalkEmpty(steps, visited);
    } else {
      WalkUnfold(steps, queue, visited);
      if queue[0] in visited {
        WalkIsNew(steps, queue[1..], visited, x);
      } else {
        WalkIsNew(steps, queue[1..] + Successors(steps, queue[0]), visited + {queue[0]}, x);
      }
    }
  }

  // ----- level by level

  /** The queue holds what is at most `n` away and not visited yet, and nothing else; what depends
      on something visited is visited or in the queue. */
  ghost predicate AtLevel(steps: Steps, from: Id, queue: seq<Id>, visited: set<Id>, n: nat) {
    && AllSteps(steps, queue)
    && (forall x :: x in queue || x in visited ==> Within(steps, from, x, n))
    && (forall x :: Within(steps, from, x, n) ==> x in queue || x in visited)
    && (forall x, y :: y in visited && DependsOn(steps, x, y) ==> x in queue || x in visited)
  }

  lemma {:induction false} NextLevel(steps: Steps, from: Id, queue: seq<Id>, visited: set<Id>, n: nat)
    requires n >= 1 && AtLevel(steps, from, queue, visited, n)
    ensures AllSteps(steps, Behind(steps, queue, visited))
    ensures AtLevel(steps, from, Behind(steps, queue, visited), visited + (set x | x in queue), n + 1)
  {
    hide Within, DependsOn, Behind, AllSteps, Walk;
    var next, marked := Behind(steps, queue, visited), visited + (set x | x in queue);
    assert queue + [] == queue && [] + next == next;
    LevelOff(steps, queue, [], visited);
    forall x
      ensures x in next <==> exists y :: y in queue && y !in visited && DependsOn(steps, x, y)
    {
      BehindIs(steps, queue, visited, x);
    }
    forall x | x in next || x in marked
      ensures Within(steps, from, x, n + 1)
    {
      if x in next {
        var y :| y in queue && y !in visited && DependsOn(steps, x, y);
        WithinNext(steps, from, y, x, n);
      } else {
        WithinMore(steps, from, x, n, n + 1);
      }
    }
    forall x | Within(steps, from, x, n + 1)
      ensures x in next || x in marked
    {
      if !Within(steps, from, x, n) {
        WithinBefore(steps, from, x, n);
        var y :| Within(steps, from, y, n) && DependsOn(steps, x, y);
      }
    }
    forall x, y | y in marked && DependsOn(steps, x, y)
      ensures x in next || x in marked
    {
    }
  }

  lemma {:induction false} NearerInWalk(steps: Steps, from: Id, queue: seq<Id>, visited: set<Id>, n: nat, m: nat, i: nat, j: nat)
    requires 1 <= n <= m && AtLevel(steps, from, queue, visited, n)
    requires i < j < |Walk(steps, queue, visited)| && Within(steps, from, Walk(steps, queue, visited)[j], m)
    ensures Within(steps, from, Walk(steps, queue, visited)[i], m)
    decreases m - n
  {
    hide Walk, Within, DependsOn, Behind, FirstOut;
    var walk, out := Walk(steps, queue, visited), FirstOut(queue, visited);
    var next, marked := Behind(steps, queue, visited), visited + (set x | x in queue);
    assert queue + [] == queue && [] + next == next;
    LevelOff(steps, queue, [], visited);
    var rest := Walk(steps, next, marked);
    assert walk == out + rest;
    if i < |out| {
      FirstOutIs(queue, visited, walk[i]);
      WithinMore(steps, from, walk[i], n, m);
    } else if m == n {
      var x := rest[j - |out|];
      assert x == walk[j] && x in marked;
      WalkIsNew(steps, next, marked, x);
    } else {
      NextLevel(steps, from, queue, visited, n);
      NearerInWalk(steps, from, next, marked, n + 1, m, i - |out|, j - |out|);
    }
  }

  /** What comes later in the walk is at least as many dependencies away. */
  lemma {:induction false} NearerComesFirst(steps: Steps, from: Id, i: nat, j: nat, n: nat)
    requires i < j < |Downstream(steps, from)| && Within(steps, from, Downstream(steps, from)[j], n)
    ensures Within(steps, from, Downstream(steps, from)[i], n)
  {
    hide Walk, Within, DependsOn, Successors;
    var queue := Successors(steps, from);
    SuccessorsAreSteps(steps, from);
    forall x
      ensures x in queue <==> Within(steps, from, x, 1)
    {
      SuccessorsAre(steps, from, x);
      WithinOne(steps, from, x);
    }
    NotWithinNothing(steps, from, Downstream(steps, from)[j]);
    NearerInWalk(steps, from, queue, {}, 1, n, i, j);
  }

  lemma {:induction false} NotWithinNothing(steps: Steps, from: Id, to: Id)
    ensures !Within(steps, from, to, 0)
  {
  }
}
