/** Plan steps, the dependency relation, its validation and its traversal. */
module PlanDag {
  type Id = string

  datatype Option<+T> = None | Some(value: T)

  /** The fields of a step that scheduling looks at. An empty `conditionKey` is no condition.
      `degradeTruthy` tells whether the degrade value is truthy, `None` that there is none. */
  datatype Step = Step(
    id: Id,
    resultKey: string,
    dependsOn: seq<Id>,
    conditionKey: string,
    retryMax: int,
    degradeTruthy: Option<bool>,
    requireConsent: bool,
    failFast: bool)

  /** The items of the dictionary of steps, in its order. */
  type Steps = seq<Step>

  ghost predicate DistinctIds(steps: Steps) {
    forall i, j :: 0 <= i < j < |steps| ==> steps[i].id != steps[j].id
  }

  function Ids(steps: Steps): set<Id> {
    set i | 0 <= i < |steps| :: steps[i].id
  }

  /** `a` names `b` among its dependencies. */
  ghost predicate DependsOn(steps: Steps, a: Id, b: Id) {
    exists i :: 0 <= i < |steps| && steps[i].id == a && b in steps[i].dependsOn
  }

  ghost predicate DependenciesExist(steps: Steps) {
    forall a, b :: DependsOn(steps, a, b) ==> b in Ids(steps)
  }

  /** Every element of the path depends on the next one. */
  ghost predicate IsPath(steps: Steps, path: seq<Id>) {
    forall k :: 0 < k < |path| ==> DependsOn(steps, path[k - 1], path[k])
  }

  ghost predicate IsCycle(steps: Steps, path: seq<Id>) {
    |path| > 1 && IsPath(steps, path) && path[0] == path[|path| - 1]
  }

  ghost predicate Acyclic(steps: Steps) {
    forall path :: !IsCycle(steps, path)
  }

  // ----- orders

  /** Everything is listed after its dependencies. */
  ghost predicate IsOrder(steps: Steps, order: seq<Id>) {
    forall k, d :: 0 <= k < |order| && DependsOn(steps, order[k], d) ==> d in order[..k]
  }

  function FirstAt(order: seq<Id>, id: Id): (k: nat)
    requires id in order
    ensures k < |order| && order[k] == id
    ensures forall i :: 0 <= i < k ==> order[i] != id
  {
    if order[0] == id then 0 else 1 + FirstAt(order[1..], id)
  }

  lemma {:induction false} EarlierIn(order: seq<Id>, id: Id, k: nat)
    requires k <= |order| && id in order[..k]
    ensures id in order && FirstAt(order, id) < k
  {
    var i :| 0 <= i < k && order[..k][i] == id;
    assert order[i] == id;
  }

  lemma {:induction false} DependencyIsEarlier(steps: Steps, order: seq<Id>, a: Id, d: Id)
    requires IsOrder(steps, order) && a in order && DependsOn(steps, a, d)
    ensures d in order && FirstAt(order, d) < FirstAt(order, a)
  {
    var k := FirstAt(order, a);
    assert DependsOn(steps, order[k], d);
    EarlierIn(order, d, k);
  }

  lemma {:induction false} PathDescends(steps: Steps, order: seq<Id>, path: seq<Id>)
    requires IsOrder(steps, order) && IsPath(steps, path) && |path| > 1 && path[0] in order
    ensures path[|path| - 1] in order && FirstAt(order, path[|path| - 1]) < FirstAt(order, path[0])
    decreases |path|
  {
    hide IsOrder, FirstAt, DependsOn;
    var n := |path| - 1;
    if n == 1 {
    } else {
      PathDescends(steps, order, path[..n]);
    }
    assert DependsOn(steps, path[n - 1], path[n]);
    DependencyIsEarlier(steps, order, path[n - 1], path[n]);
  }

  /** A plan whose steps can all be listed after their dependencies has no cycle. */
  lemma {:induction false} OrderedIsAcyclic(steps: Steps, order: seq<Id>)
    requires IsOrder(steps, order) && (forall id :: id in Ids(steps) ==> id in order)
    ensures Acyclic(steps)
  {
    hide IsOrder;
    forall path
      ensures !IsCycle(steps, path)
    {
      if IsCycle(steps, path) {
        assert DependsOn(steps, path[0], path[1]);
        PathDescends(steps, order, path);
      }
    }
  }

  // ----- validation

  datatype DagError = MissingStep(id: Id) | DependencyCycle(id: Id)

  ghost predicate OnCycle(steps: Steps, id: Id) {
    exists path :: IsCycle(steps, path) && id in path
  }

  function Find(steps: Steps, id: Id): (s: Option<Step>)
    ensures s.Some? ==> s.value in steps && s.value.id == id
    ensures s.None? ==> id !in Ids(steps)
  {
    if steps == [] then None
    else if steps[0].id == id then Some(steps[0])
    else
      var rest := steps[1..];
      assert Ids(steps) == Ids(rest) + {steps[0].id} by { IdsSplit(steps); }
      Find(rest, id)
  }

  lemma {:induction false} IdsSplit(steps: Steps)
    requires steps != []
    ensures Ids(steps) == Ids(steps[1..]) + {steps[0].id}
  {
    var rest := steps[1..];
    forall id
      ensures id in Ids(steps) <==> id in Ids(rest) + {steps[0].id}
    {
      if id in Ids(steps) {
        var i :| 0 <= i < |steps| && steps[i].id == id;
        assert i > 0 ==> rest[i - 1].id == id;
      }
      if id in Ids(rest) {
        var i :| 0 <= i < |rest| && rest[i].id == id;
        assert steps[i + 1].id == id;
      }
    }
  }

  lemma {:induction false} FoundDependencies(steps: Steps, id: Id)
    requires DistinctIds(steps) && Find(steps, id).Some?
    ensures forall d :: DependsOn(steps, id, d) <==> d in Find(steps, id).value.dependsOn
    ensures id in Ids(steps)
  {
    var s := Find(steps, id).value;
    var i :| 0 <= i < |steps| && steps[i] == s;
    assert steps[i].id == id;
  }

  /** Depth-first search with the steps on the current path and the finished ones. */
  class Validator {
    const steps: Steps
    var visiting: set<Id>
    var visited: set<Id>
    /** The current path, and the finished steps in the order they were finished. */
    ghost var path: seq<Id>
    ghost var order: seq<Id>

    ghost predicate Valid()
      reads this
    {
      && DistinctIds(steps)
      && IsPath(steps, path)
      && IsOrder(steps, order)
      && (forall id :: id in visiting <==> id in path)
      && (forall id :: id in visited <==> id in order)
      && (forall id :: id in path ==> id in Ids(steps) && id !in order)
      && (forall id :: id in order ==> id in Ids(steps))
    }

    constructor (steps: Steps)
      requires DistinctIds(steps)
      ensures Valid() && this.steps == steps && path == [] && order == []
    {
      this.steps := steps;
      visiting, visited := {}, {};
      path, order := [], [];
    }

    method Visit(id: Id) returns (error: Option<DagError>)
      requires Valid()
      requires id in Ids(steps)
      requires path != [] ==> DependsOn(steps, path[|path| - 1], id)
      modifies this
      ensures error.None? ==> Valid() && path == old(path) && old(order) <= order && id in order
      ensures error.None? ==> visiting == old(visiting) && old(visited) <= visited
      ensures error.Some? ==> IsFault(steps, error.value)
      decreases Ids(steps) - visited - visiting
    {
      hide DependsOn, IsPath, IsOrder, Ids;
      if id in visited {
        return None;
      }
      if id in visiting {
        PathClosesCycle(steps, path, id);
        return Some(DependencyCycle(id));
      }
      var dependencies := Find(steps, id).value.dependsOn;
      FoundDependencies(steps, id);
      PathGrows(steps, path, id);
      visiting := visiting + {id};
      path := path + [id];
      for k := 0 to |dependencies|
        invariant Valid() && path == old(path) + [id] && old(order) <= order
        invariant visiting == old(visiting) + {id} && old(visited) <= visited
        invariant forall j :: 0 <= j < k ==> dependencies[j] in order
      {
        var d := dependencies[k];
        if d !in Ids(steps) {
          assert DependsOn(steps, id, d);
          return Some(MissingStep(d));
        }
        ghost var before := order;
        error := Visit(d);
        if error.Some? {
          return;
        }
        assert forall j :: 0 <= j < k ==> dependencies[j] in before;
      }
      OrderGrows(steps, order, id);
      path := old(path);
      visiting := visiting - {id};
      visited := visited + {id};
      order := order + [id];
      return None;
    }
  }

  /** What an error reports is there. */
  ghost predicate IsFault(steps: Steps, e: DagError) {
    match e
    case MissingStep(id) => id !in Ids(steps) && exists a :: DependsOn(steps, a, id)
    case DependencyCycle(id) => OnCycle(steps, id)
  }

  lemma {:induction false} PathGrows(steps: Steps, path: seq<Id>, id: Id)
    requires IsPath(steps, path) && (path != [] ==> DependsOn(steps, path[|path| - 1], id))
    ensures IsPath(steps, path + [id])
  {
    hide DependsOn;
    forall k | 0 < k < |path| + 1
      ensures DependsOn(steps, (path + [id])[k - 1], (path + [id])[k])
    {
      assert k < |path| ==> DependsOn(steps, path[k - 1], path[k]);
    }
  }

  lemma {:induction false} PathClosesCycle(steps: Steps, path: seq<Id>, id: Id)
    requires IsPath(steps, path) && id in path && DependsOn(steps, path[|path| - 1], id)
    ensures OnCycle(steps, id)
  {
    hide DependsOn;
    var i :| 0 <= i < |path| && path[i] == id;
    var tail := path[i..];
    forall k | 0 < k < |tail|
      ensures DependsOn(steps, tail[k - 1], tail[k])
    {
      assert DependsOn(steps, path[i + k - 1], path[i + k]);
    }
    PathGrows(steps, tail, id);
    assert (tail + [id])[0] == id;
    assert IsCycle(steps, tail + [id]);
  }

  lemma {:induction false} OrderGrows(steps: Steps, order: seq<Id>, id: Id)
    requires IsOrder(steps, order) && (forall d :: DependsOn(steps, id, d) ==> d in order)
    ensures IsOrder(steps, order + [id])
  {
    hide DependsOn;
    var longer := order + [id];
    forall k, d | 0 <= k < |longer| && DependsOn(steps, longer[k], d)
      ensures d in longer[..k]
    {
      if k < |order| {
        assert DependsOn(steps, order[k], d);
        assert longer[..k] == order[..k];
      } else {
        assert longer[..k] == order;
      }
    }
  }

  /** Validation succeeds exactly when every dependency names a step and there is no cycle. */
  method ValidateDag(steps: Steps) returns (error: Option<DagError>)
    requires DistinctIds(steps)
    ensures error.None? <==> DependenciesExist(steps) && Acyclic(steps)
    ensures error.Some? ==> IsFault(steps, error.value)
  {
    var validator := new Validator(steps);
    for k := 0 to |steps|
      invariant validator.Valid() && validator.steps == steps && validator.path == []
      invariant fresh(validator)
      invariant forall j :: 0 <= j < k ==> steps[j].id in validator.order
    {
      ghost var before := validator.order;
      error := validator.Visit(steps[k].id);
      if error.Some? {
        FaultRefutes(steps, error.value);
        return;
      }
      assert forall j :: 0 <= j < k ==> steps[j].id in before;
    }
    AllVisited(steps, validator.order);
    return None;
  }

  lemma {:induction false} FaultRefutes(steps: Steps, e: DagError)
    requires IsFault(steps, e)
    ensures !(DependenciesExist(steps) && Acyclic(steps))
  {
  }

  lemma {:induction false} AllVisited(steps: Steps, order: seq<Id>)
    requires IsOrder(steps, order) && (forall j :: 0 <= j < |steps| ==> steps[j].id in order)
    requires forall id :: id in order ==> id in Ids(steps)
    ensures DependenciesExist(steps) && Acyclic(steps)
  {
    OrderedIsAcyclic(steps, order);
    forall a, b | DependsOn(steps, a, b)
      ensures b in Ids(steps)
    {
      assert a in order;
      DependencyIsEarlier(steps, order, a, b);
    }
  }

  // ----- the dictionary of steps

  function Put(steps: Steps, step: Step): Steps {
    if steps == [] then [step]
    else if steps[0].id == step.id then [step] + steps[1..]
    else [steps[0]] + Put(steps[1..], step)
  }

  /** A repeated identifier keeps its first place and its last step. */
  function AsDictionary(list: seq<Step>): Steps {
    if list == [] then [] else Put(AsDictionary(list[..|list| - 1]), list[|list| - 1])
  }

  lemma {:induction false} PutIds(steps: Steps, step: Step, id: Id)
    ensures id in Ids(Put(steps, step)) <==> id in Ids(steps) || id == step.id
  {
    hide Ids;
    IdsOfOne(step);
    if steps == [] {
    } else {
      IdsSplit(steps);
      IdsSplit(Put(steps, step));
      if steps[0].id == step.id {
        assert ([step] + steps[1..])[1..] == steps[1..];
      } else {
        PutIds(steps[1..], step, id);
        assert ([steps[0]] + Put(steps[1..], step))[1..] == Put(steps[1..], step);
      }
    }
  }

  lemma {:induction false} IdsOfOne(step: Step)
    ensures Ids([step]) == {step.id} && Ids([]) == {}
  {
    assert [step][0].id == step.id;
  }

  lemma {:induction false} DistinctSplit(steps: Steps)
    requires steps != []
    ensures DistinctIds(steps) <==> steps[0].id !in Ids(steps[1..]) && DistinctIds(steps[1..])
  {
    var rest := steps[1..];
    assert forall i :: 0 <= i < |rest| ==> rest[i] == steps[i + 1];
    if steps[0].id in Ids(rest) {
      var i :| 0 <= i < |rest| && rest[i].id == steps[0].id;
      assert steps[i + 1].id == steps[0].id;
    }
    assert forall i :: 0 < i < |steps| ==> steps[i] == rest[i - 1] && steps[i].id in Ids(rest);
  }

  lemma {:induction false} PutDistinct(steps: Steps, step: Step)
    requires DistinctIds(steps)
    ensures DistinctIds(Put(steps, step))
  {
    hide Ids, DistinctIds;
    if steps == [] {
      OneDistinct(step);
    } else {
      DistinctSplit(steps);
      DistinctSplit(Put(steps, step));
      if steps[0].id == step.id {
        assert ([step] + steps[1..])[1..] == steps[1..];
      } else {
        PutDistinct(steps[1..], step);
        PutIds(steps[1..], step, steps[0].id);
        assert ([steps[0]] + Put(steps[1..], step))[1..] == Put(steps[1..], step);
      }
    }
  }

  lemma {:induction false} OneDistinct(step: Step)
    ensures DistinctIds([step])
  {
  }

  lemma {:induction false} DictionaryDistinct(list: seq<Step>)
    ensures DistinctIds(AsDictionary(list))
  {
    hide DistinctIds, Put;
    if list == [] {
      NoneDistinct();
    } else {
      DictionaryDistinct(list[..|list| - 1]);
      PutDistinct(AsDictionary(list[..|list| - 1]), list[|list| - 1]);
    }
  }

  lemma {:induction false} NoneDistinct()
    ensures DistinctIds([])
  {
  }

  lemma {:induction false} PutHolds(steps: Steps, step: Step, x: Step)
    requires DistinctIds(steps)
    ensures x in Put(steps, step) <==> x == step || (x in steps && x.id != step.id)
  {
    if steps == [] {
    } else {
      var rest := steps[1..];
      assert forall k :: 0 <= k < |rest| ==> rest[k] == steps[k + 1];
      assert x in steps <==> x == steps[0] || x in rest;
      if steps[0].id != step.id {
        PutHolds(rest, step, x);
      }
    }
  }

  /** The step of a repeated identifier is the last one with it. */
  lemma {:induction false} DictionaryKeepsLast(list: seq<Step>, x: Step)
    ensures x in AsDictionary(list) <==>
      exists k :: 0 <= k < |list| && list[k] == x && forall j :: k < j < |list| ==> list[j].id != x.id
  {
    hide Put, DistinctIds;
    if list == [] {
    } else {
      var n := |list| - 1;
      var rest := list[..n];
      DictionaryKeepsLast(rest, x);
      DictionaryDistinct(rest);
      PutHolds(AsDictionary(rest), list[n], x);
      if x in AsDictionary(rest) && x.id != list[n].id {
        var k :| 0 <= k < n && rest[k] == x && forall j :: k < j < n ==> rest[j].id != x.id;
        assert list[k] == x && forall j :: k < j < |list| ==> list[j].id != x.id;
      }
      if k :| 0 <= k < |list| && list[k] == x && forall j :: k < j < |list| ==> list[j].id != x.id {
        assert k < n ==> rest[k] == x && forall j :: k < j < n ==> rest[j].id != x.id;
      }
    }
  }

  /** Putting a step in leaves the identifiers where they are; a new one comes last. */
  lemma {:induction false} PutPlaces(steps: Steps, step: Step)
    ensures |steps| <= |Put(steps, step)| <= |steps| + 1
    ensures forall k :: 0 <= k < |steps| ==> Put(steps, step)[k].id == steps[k].id
    ensures |Put(steps, step)| == |steps| + 1 ==> Put(steps, step)[|steps|] == step && step.id !in Ids(steps)
  {
    if steps == [] {
    } else {
      PutPlaces(steps[1..], step);
      assert forall k :: 0 <= k < |steps[1..]| ==> steps[1..][k] == steps[k + 1];
    }
  }

  /** An identifier keeps the place of its first occurrence. */
  lemma {:induction false} DictionaryKeepsOrder(list: seq<Step>, p: nat, q: nat) returns (i: nat)
    requires p < q < |AsDictionary(list)|
    ensures i < |list| && list[i].id == AsDictionary(list)[p].id
    ensures forall j :: 0 <= j <= i ==> list[j].id != AsDictionary(list)[q].id
  {
    hide Put, Ids;
    var n := |list| - 1;
    var rest := list[..n];
    var before := AsDictionary(rest);
    PutPlaces(before, list[n]);
    if q < |before| {
      i := DictionaryKeepsOrder(rest, p, q);
    } else {
      i := Occurs(rest, p);
      forall j | 0 <= j <= i
        ensures list[j].id != list[n].id
      {
        DictionaryHasIds(rest, j);
      }
    }
  }

  lemma {:induction false} Occurs(list: seq<Step>, p: nat) returns (i: nat)
    requires p < |AsDictionary(list)|
    ensures i < |list| && list[i].id == AsDictionary(list)[p].id
  {
    DictionaryKeepsLast(list, AsDictionary(list)[p]);
    i :| 0 <= i < |list| && list[i] == AsDictionary(list)[p];
  }

  lemma {:induction false} DictionaryHasIds(list: seq<Step>, j: nat)
    requires j < |list|
    ensures list[j].id in Ids(AsDictionary(list))
  {
    hide Ids, Put;
    var n := |list| - 1;
    PutIds(AsDictionary(list[..n]), list[n], list[j].id);
    if j < n {
      DictionaryHasIds(list[..n], j);
    }
  }
}
