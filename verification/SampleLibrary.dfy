/** The stored samples, everything that may be done to them, and whose word counts. */
module SampleLibrary {
  import opened SampleRecord

  /** Rows in the order of their identifiers; an identifier is never used again. */
  datatype Library = Library(rows: seq<Sample>, nextId: int)

  ghost predicate Ordered(lib: Library) {
    && (forall i, j :: 0 <= i < j < |lib.rows| ==> lib.rows[i].id < lib.rows[j].id)
    && (forall i :: 0 <= i < |lib.rows| ==> lib.rows[i].id < lib.nextId)
  }

  function Find(rows: seq<Sample>, id: int): Option<Sample> {
    if rows == [] then None else if rows[0].id == id then Some(rows[0]) else Find(rows[1..], id)
  }

  function Store(rows: seq<Sample>, s: Sample): seq<Sample> {
    if rows == [] then []
    else if rows[0].id == s.id then [s] + rows[1..]
    else [rows[0]] + Store(rows[1..], s)
  }

  function Remove(rows: seq<Sample>, id: int): seq<Sample> {
    if rows == [] then [] else if rows[0].id == id then rows[1..] else [rows[0]] + Remove(rows[1..], id)
  }

  /** What may happen to the library. `duplicate` is what the search for a duplicate finds. */
  datatype Operation =
    | CreateCandidate(content: Content, source: string, plan: string, duplicate: Option<(int, real)>)
    | AssignPlanId(id: int, plan: string)
    | RecordInjection(id: int, hitAt: real, similarity: Option<real>)
    | RecordPlanOutcome(id: int, completed: bool)
    | AutoVerifyCandidate(id: int)
    | AutoVerify(id: int)
    | Confirm(id: int, actor: string)
    | Edit(id: int, content: Content, actor: string)
    | Reject(id: int, actor: string)
    | Restore(id: int, actor: string)
    | MarkStale(id: int, reason: string, actor: string)
    | Archive(id: int, reason: string, actor: string)
    | Delete(id: int)

  /** What the program lets happen in the name of the user. */
  predicate IsByUser(op: Operation) {
    op.Delete? || ((op.Confirm? || op.Edit? || op.Reject? || op.Restore?) && Strip(op.actor) == "user")
  }

  predicate IsSource(source: string) {
    source == "llm" || source == "rule" || source == "user_edit"
  }

  /** The record after an operation on one sample; `None` where the program raises. */
  function Changed(s: Sample, op: Operation, now: real): Option<Sample> {
    match op
    case CreateCandidate(_, _, _, duplicate) => if duplicate.Some? then Some(Merged(s, duplicate.value.1, now)) else None
    case AssignPlanId(_, plan) => PlanAssigned(s, plan, now)
    case RecordInjection(_, hitAt, similarity) => Some(Injected(s, hitAt, similarity, now))
    case RecordPlanOutcome(_, completed) => Some(OutcomeRecorded(s, completed, now))
    case AutoVerifyCandidate(_) => Some(AutoVerifiedCandidate(s, now))
    case AutoVerify(_) => AutoVerified(s, now)
    case Confirm(_, actor) => Confirmed(s, actor, now)
    case Edit(_, content, actor) => Edited(s, content, actor, now)
    case Reject(_, actor) => RejectedBy(s, actor, now)
    case Restore(_, actor) => Restored(s, actor, now)
    case MarkStale(_, reason, actor) => Staled(s, reason, actor, now)
    case Archive(_, reason, actor) => ArchivedFor(s, reason, actor, now)
    case Delete(_) => None
  }

  function Target(op: Operation): Option<int> {
    match op
    case CreateCandidate(_, _, _, duplicate) => if duplicate.Some? then Some(duplicate.value.0) else None
    case AssignPlanId(id, _) => Some(id)
    case RecordInjection(id, _, _) => Some(id)
    case RecordPlanOutcome(id, _) => Some(id)
    case AutoVerifyCandidate(id) => Some(id)
    case AutoVerify(id) => Some(id)
    case Confirm(id, _) => Some(id)
    case Edit(id, _, _) => Some(id)
    case Reject(id, _) => Some(id)
    case Restore(id, _) => Some(id)
    case MarkStale(id, _, _) => Some(id)
    case Archive(id, _, _) => Some(id)
    case Delete(id) => Some(id)
  }

  /** An operation that raises changes nothing. */
  function Apply(lib: Library, op: Operation, now: real): Library {
    if op.CreateCandidate? && (!IsContent(op.content) || !IsSource(Strip(op.source))) then lib
    else
      match Target(op)
      case None => lib.(rows := lib.rows + [NewCandidate(lib.nextId, op.content, Strip(op.source), op.plan, now)], nextId := lib.nextId + 1)
      case Some(id) =>
        if op.Delete? then lib.(rows := Remove(lib.rows, id))
        else
          match Find(lib.rows, id)
          case None => lib
          case Some(s) =>
            match Changed(s, op, now)
            case None => lib
            case Some(t) => lib.(rows := Store(lib.rows, t))
  }

  datatype Event = Event(op: Operation, now: real)

  function ApplyAll(lib: Library, events: seq<Event>): Library {
    if events == [] then lib
    else
      var e := events[|events| - 1];
      Apply(ApplyAll(lib, events[..|events| - 1]), e.op, e.now)
  }

  // ----- rows

  lemma {:induction false} FindIs(rows: seq<Sample>, id: int)
    ensures Find(rows, id).Some? ==> Find(rows, id).value in rows && Find(rows, id).value.id == id
    ensures Find(rows, id).None? ==> forall k :: 0 <= k < |rows| ==> rows[k].id != id
  {
    if rows == [] || rows[0].id == id {
    } else {
      FindIs(rows[1..], id);
      assert forall k :: 0 < k < |rows| ==> rows[k] == rows[1..][k - 1];
    }
  }

  lemma {:induction false} StoreIs(rows: seq<Sample>, s: Sample)
    ensures |Store(rows, s)| == |rows|
    ensures forall k :: 0 <= k < |rows| ==> Store(rows, s)[k] == rows[k] || (Store(rows, s)[k] == s && rows[k].id == s.id)
  {
    if rows == [] || rows[0].id == s.id {
    } else {
      StoreIs(rows[1..], s);
    }
  }

  /** Removing keeps the other rows. */
  lemma {:induction false} RemoveIs(rows: seq<Sample>, id: int)
    ensures forall x :: x in Remove(rows, id) ==> x in rows
    ensures forall x :: x in rows && x.id != id ==> x in Remove(rows, id)
  {
    if rows != [] && rows[0].id != id {
      RemoveIs(rows[1..], id);
    }
    if rows != [] {
      assert forall x :: x in rows <==> x == rows[0] || x in rows[1..];
    }
  }

  ghost predicate AllConsistent(lib: Library) {
    forall k :: 0 <= k < |lib.rows| ==> IsConsistent(lib.rows[k])
  }

  /** Every change of a record sets the marks of its new state and clears the others. */
  lemma {:induction false} ChangeConsistent(s: Sample, op: Operation, now: real)
    requires IsConsistent(s) && Changed(s, op, now).Some?
    ensures IsConsistent(Changed(s, op, now).value) && Changed(s, op, now).value.id == s.id
  {
    hide Strip;
  }

  lemma {:induction false} OperationConsistent(lib: Library, op: Operation, now: real)
    requires AllConsistent(lib)
    ensures AllConsistent(Apply(lib, op, now))
  {
    hide IsConsistent, Changed, Strip, Find, Store, Remove;
    match Target(op) {
      case None =>
        NewConsistent(lib.nextId, op, now);
      case Some(id) =>
        FindIs(lib.rows, id);
        RemoveIs(lib.rows, id);
        if op.Delete? {
          forall k | 0 <= k < |Remove(lib.rows, id)|
            ensures IsConsistent(Remove(lib.rows, id)[k])
          {
            assert Remove(lib.rows, id)[k] in lib.rows;
          }
        } else if Find(lib.rows, id).Some? && Changed(Find(lib.rows, id).value, op, now).Some? {
          ChangeConsistent(Find(lib.rows, id).value, op, now);
          StoreIs(lib.rows, Changed(Find(lib.rows, id).value, op, now).value);
        }
    }
  }

  lemma {:induction false} NewConsistent(id: int, op: Operation, now: real)
    requires op.CreateCandidate?
    ensures IsConsistent(NewCandidate(id, op.content, Strip(op.source), op.plan, now))
  {
    hide Strip;
  }

  /** Every reachable record carries exactly the marks of its state. */
  lemma {:induction false} RecordsStayConsistent(events: seq<Event>)
    ensures AllConsistent(ApplyAll(Library([], 1), events))
  {
    hide AllConsistent, Apply;
    if events == [] {
      EmptyConsistent();
    } else {
      RecordsStayConsistent(events[..|events| - 1]);
      var e := events[|events| - 1];
      OperationConsistent(ApplyAll(Library([], 1), events[..|events| - 1]), e.op, e.now);
    }
  }

  lemma {:induction false} EmptyConsistent()
    ensures AllConsistent(Library([], 1))
  {
  }

  // ----- the user's word

  /** No other operation touches what the user decided, whoever claims to perform it. */
  lemma {:induction false} ChangeRespectsUser(s: Sample, op: Operation, now: real)
    requires IsSovereign(s) && !IsByUser(op) && Changed(s, op, now).Some?
    ensures SameVerdict(s, Changed(s, op, now).value)
  {
    hide Strip;
  }

  /** User operations are refused to anyone else. */
  lemma {:induction false} OnlyTheUser(s: Sample, op: Operation, now: real)
    requires op.Confirm? || op.Edit? || op.Reject? || op.Restore?
    requires Strip(op.actor) != "user"
    ensures Changed(s, op, now).None?
  {
    hide Strip;
  }

  /** Row by row, what the user decided is still there. */
  ghost predicate Respects(lib: Library, after: Library) {
    && |lib.rows| <= |after.rows|
    && forall k :: 0 <= k < |lib.rows| ==>
         after.rows[k].id == lib.rows[k].id && (IsSovereign(lib.rows[k]) ==> SameVerdict(lib.rows[k], after.rows[k]))
  }

  lemma {:induction false} OperationRespects(lib: Library, op: Operation, now: real)
    requires !IsByUser(op)
    ensures Respects(lib, Apply(lib, op, now))
  {
    hide Changed, Strip, Find, Store, IsSovereign, NewCandidate;
    match Target(op) {
      case None =>
      case Some(id) =>
        FindIs(lib.rows, id);
        match Find(lib.rows, id) {
          case None =>
          case Some(s) =>
            if Changed(s, op, now).Some? {
              var t := Changed(s, op, now).value;
              ChangeKeepsId(s, op, now);
              StoreFirst(lib.rows, s, t);
              if IsSovereign(s) {
                ChangeRespectsUser(s, op, now);
              }
            }
        }
    }
  }

  lemma {:induction false} ChangeKeepsId(s: Sample, op: Operation, now: real)
    ensures Changed(s, op, now).Some? ==> Changed(s, op, now).value.id == s.id
  {
    hide Strip;
  }

  /** Only the row that was found is replaced. */
  lemma {:induction false} StoreFirst(rows: seq<Sample>, s: Sample, t: Sample)
    requires Find(rows, s.id) == Some(s) && t.id == s.id
    ensures |Store(rows, t)| == |rows|
    ensures forall k :: 0 <= k < |rows| ==> Store(rows, t)[k] == rows[k] || (Store(rows, t)[k] == t && rows[k] == s)
  {
    if rows[0].id == s.id {
    } else {
      StoreFirst(rows[1..], s, t);
    }
  }

  lemma {:induction false} RespectsOn(a: Library, b: Library, c: Library)
    requires Respects(a, b) && Respects(b, c)
    ensures Respects(a, c)
  {
    forall k | 0 <= k < |a.rows| && IsSovereign(a.rows[k])
      ensures SameVerdict(a.rows[k], c.rows[k])
    {
      SovereignStays(a.rows[k], b.rows[k]);
    }
  }

  lemma {:induction false} SovereignStays(s: Sample, t: Sample)
    requires IsSovereign(s) && SameVerdict(s, t)
    ensures IsSovereign(t)
  {
  }

  /** No sequence of operations without the user, refused ones among them, changes the state, the
      verification or the content of a sample that the user verified or rejected. */
  lemma {:induction false} UserSovereignty(lib: Library, events: seq<Event>)
    requires forall k :: 0 <= k < |events| ==> !IsByUser(events[k].op)
    ensures Respects(lib, ApplyAll(lib, events))
  {
    hide Respects, Apply;
    if events == [] {
      RespectsSame(lib);
    } else {
      var e := events[|events| - 1];
      var before := ApplyAll(lib, events[..|events| - 1]);
      UserSovereignty(lib, events[..|events| - 1]);
      OperationRespects(before, e.op, e.now);
      RespectsOn(lib, before, ApplyAll(lib, events));
    }
  }

  lemma {:induction false} RespectsSame(lib: Library)
    ensures Respects(lib, lib)
  {
  }

  // ----- identifiers

  lemma {:induction false} OperationOrdered(lib: Library, op: Operation, now: real)
    requires Ordered(lib)
    ensures Ordered(Apply(lib, op, now))
  {
    hide Changed, Strip, Find, Store, Remove;
    match Target(op) {
      case None =>
      case Some(id) =>
        FindIs(lib.rows, id);
        if op.Delete? {
          RemoveOrdered(lib.rows, id, lib.nextId);
        } else if Find(lib.rows, id).Some? && Changed(Find(lib.rows, id).value, op, now).Some? {
          ChangeKeepsId(Find(lib.rows, id).value, op, now);
          StoreIs(lib.rows, Changed(Find(lib.rows, id).value, op, now).value);
        }
    }
  }

  lemma {:induction false} OrderedSplit(rows: seq<Sample>, nextId: int)
    requires rows != []
    ensures Ordered(Library(rows, nextId)) <==>
      Ordered(Library(rows[1..], nextId)) && rows[0].id < nextId && forall x :: x in rows[1..] ==> rows[0].id < x.id
  {
    var tail := rows[1..];
    assert forall k :: 0 <= k < |tail| ==> tail[k] == rows[k + 1];
    if Ordered(Library(tail, nextId)) && rows[0].id < nextId && forall x :: x in tail ==> rows[0].id < x.id {
      forall i, j | 0 <= i < j < |rows|
        ensures rows[i].id < rows[j].id
      {
        assert rows[j] == tail[j - 1] && rows[j] in tail;
        assert i > 0 ==> rows[i] == tail[i - 1];
      }
      forall i | 0 <= i < |rows|
        ensures rows[i].id < nextId
      {
        assert i > 0 ==> rows[i] == tail[i - 1];
      }
    }
  }

  lemma {:induction false} RemoveOrdered(rows: seq<Sample>, id: int, nextId: int)
    requires Ordered(Library(rows, nextId))
    ensures Ordered(Library(Remove(rows, id), nextId))
  {
    hide Ordered;
    if rows == [] {
    } else {
      OrderedSplit(rows, nextId);
      if rows[0].id != id {
        RemoveOrdered(rows[1..], id, nextId);
        RemoveIs(rows[1..], id);
        var after := [rows[0]] + Remove(rows[1..], id);
        assert after[1..] == Remove(rows[1..], id);
        OrderedSplit(after, nextId);
      }
    }
  }

  /** In every reachable library the rows stand in the order of their identifiers. */
  lemma {:induction false} RowsStayOrdered(events: seq<Event>)
    ensures Ordered(ApplyAll(Library([], 1), events))
  {
    hide Ordered, Apply;
    if events == [] {
      EmptyOrdered();
    } else {
      var e := events[|events| - 1];
      RowsStayOrdered(events[..|events| - 1]);
      OperationOrdered(ApplyAll(Library([], 1), events[..|events| - 1]), e.op, e.now);
    }
  }

  lemma {:induction false} EmptyOrdered()
    ensures Ordered(Library([], 1))
  {
  }

  // ----- what an operation does, spelled out

  /** Whether a change of `s` goes through. */
  ghost predicate IsAccepted(s: Sample, op: Operation) {
    match op
    case CreateCandidate(_, _, _, duplicate) => duplicate.Some?
    case AssignPlanId(_, plan) => !IsBlank(plan)
    case RecordInjection(_, _, _) => true
    case RecordPlanOutcome(_, _) => true
    case AutoVerifyCandidate(_) => true
    case AutoVerify(_) => s.state == Candidate
    case Confirm(_, actor) => Trims(actor, "user")
    case Edit(_, content, actor) => Trims(actor, "user") && !IsBlank(content.description) && content.steps != []
    case Reject(_, actor) => Trims(actor, "user") && s.state != Rejected
    case Restore(_, actor) => Trims(actor, "user") && (s.state == Rejected || s.state == Archived || s.state == Stale)
    case MarkStale(_, reason, actor) =>
      Trims(actor, "auto") && !IsBlank(reason) && (s.state == Candidate || (s.state == Verified && s.verifyKind == Some(Auto)))
    case Archive(_, reason, actor) =>
      && (Trims(actor, "auto") || Trims(actor, "system")) && !IsBlank(reason)
      && (s.state == Candidate || s.state == Stale || (s.state == Verified && s.verifyKind != Some(User)))
    case Delete(_) => false
  }

  function Unmarked(s: Sample, actor: string, now: real): Sample {
    s.(verifyKind := None, staleReason := None, rejectedBy := None, rowStatus := Active, lastActor := actor, updatedAt := now)
  }

  /** The counters after one more outcome. */
  predicate CountsOutcome(u: Usage, v: Usage, completed: bool) {
    && v.planCompleted == u.planCompleted + (if completed then 1 else 0)
    && v.planFailed == u.planFailed + (if completed then 0 else 1)
    && v.consecutiveFailures == (if completed then 0 else u.consecutiveFailures + 1)
    && v.injectedCount == u.injectedCount && v.lastInjectedAt == u.lastInjectedAt
    && v.similaritySum == u.similaritySum && v.similarityCount == u.similarityCount
  }

  predicate CountsSimilarity(u: Usage, v: Usage, similarity: Option<real>) {
    && v.similaritySum == u.similaritySum + (if similarity.Some? then similarity.value else 0.0)
    && v.similarityCount == u.similarityCount + (if similarity.Some? then 1 else 0)
    && v.planCompleted == u.planCompleted && v.planFailed == u.planFailed && v.consecutiveFailures == u.consecutiveFailures
  }

  /** `t` is what the operation makes of `s`. */
  ghost predicate HasEffect(s: Sample, t: Sample, op: Operation, now: real) {
    match op
    case CreateCandidate(_, _, _, duplicate) =>
      && t == s.(usage := t.usage, updatedAt := now) && duplicate.Some?
      && CountsSimilarity(s.usage, t.usage, Some(duplicate.value.1))
      && t.usage.injectedCount == s.usage.injectedCount && t.usage.lastInjectedAt == s.usage.lastInjectedAt
    case AssignPlanId(_, plan) => t == s.(planId := t.planId, updatedAt := now) && Trims(plan, t.planId)
    case RecordInjection(_, hitAt, similarity) =>
      && t == s.(usage := t.usage, updatedAt := now)
      && t.usage.injectedCount == s.usage.injectedCount + 1 && t.usage.lastInjectedAt == Some(hitAt)
      && CountsSimilarity(s.usage, t.usage, similarity)
    case RecordPlanOutcome(_, completed) =>
      && CountsOutcome(s.usage, t.usage, completed)
      && (if !completed && s.usage.injectedCount >= 3 && s.usage.consecutiveFailures >= 2
             && (s.state == Candidate || (s.state == Verified && s.verifyKind == Some(Auto)))
          then t == Unmarked(s, "auto", now).(usage := t.usage, state := Stale, staleReason := Some("consecutive_failure"))
          else t == s.(usage := t.usage, updatedAt := now))
    case AutoVerifyCandidate(_) =>
      if s.state == Candidate && s.usage.planCompleted >= 2
      then t == Unmarked(s, "auto", now).(state := Verified, verifyKind := Some(Auto)) else t == s
    case AutoVerify(_) => t == Unmarked(s, "auto", now).(state := Verified, verifyKind := Some(Auto))
    case Confirm(_, actor) =>
      if s.state == Verified && s.verifyKind == Some(User) then t == s
      else t == Unmarked(s, actor, now).(state := Verified, verifyKind := Some(User))
    case Edit(_, content, actor) =>
      && t == Unmarked(s, actor, now).(content := t.content, state := Verified, verifyKind := Some(User), source := "user_edit",
                                       usage := Usage(0, None, 0.0, 0, 0, 0, 0), version := s.version + 1)
      && Trims(content.description, t.content.description) && t.content.steps == content.steps
    case Reject(_, actor) => t == Unmarked(s, actor, now).(state := Rejected, rejectedBy := Some(actor))
    case Restore(_, actor) => t == Unmarked(s, actor, now).(state := Candidate)
    case MarkStale(_, reason, actor) =>
      && t.staleReason.Some? && Trims(reason, t.staleReason.value)
      && t == Unmarked(s, actor, now).(state := Stale, staleReason := t.staleReason)
    case Archive(_, _, actor) => t == Unmarked(s, actor, now).(state := Archived, rowStatus := Cancelled)
    case Delete(_) => false
  }

  /** A fresh candidate: trimmed texts, nothing counted yet. */
  ghost predicate IsNewCandidate(t: Sample, id: int, content: Content, source: string, plan: string, now: real) {
    && t == Sample(id, t.content, Candidate, None, t.source, t.planId, Usage(0, None, 0.0, 0, 0, 0, 0), 1, Active, None, None,
                   "system", now)
    && Trims(content.description, t.content.description) && t.content.steps == content.steps
    && Trims(source, t.source) && (t.source == "llm" || t.source == "rule" || t.source == "user_edit")
    && Trims(plan, t.planId)
  }

  lemma {:induction false} BlankIff(s: string)
    ensures Strip(s) == "" <==> IsBlank(s)
  {
    hide Strip, WhiteSpace;
    StripIs(s, "");
    if IsBlank(s) {
      assert IsBlank("") && s == s + "" + "";
    }
  }

  lemma {:induction false} TextsAre(op: Operation)
    ensures op.AssignPlanId? ==> Trims(op.plan, Strip(op.plan)) && (Strip(op.plan) == "" <==> IsBlank(op.plan))
    ensures op.MarkStale? || op.Archive? ==> Trims(op.reason, Strip(op.reason)) && (Strip(op.reason) == "" <==> IsBlank(op.reason))
    ensures op.Confirm? || op.Edit? || op.Reject? || op.Restore? ==> (Strip(op.actor) == "user" <==> Trims(op.actor, "user"))
    ensures op.MarkStale? || op.Archive? ==> (Strip(op.actor) == "auto" <==> Trims(op.actor, "auto"))
    ensures op.MarkStale? || op.Archive? ==> (Strip(op.actor) == "system" <==> Trims(op.actor, "system"))
    ensures op.Edit? || op.CreateCandidate? ==>
      Trims(op.content.description, Strip(op.content.description))
      && (Strip(op.content.description) == "" <==> IsBlank(op.content.description))
  {
    hide Strip, Trims, IsBlank;
    if op.AssignPlanId? {
      StripIs(op.plan, Strip(op.plan));
      BlankIff(op.plan);
    }
    if op.MarkStale? || op.Archive? {
      StripIs(op.reason, Strip(op.reason));
      BlankIff(op.reason);
      StripIs(op.actor, "auto");
      StripIs(op.actor, "system");
    }
    if op.Confirm? || op.Edit? || op.Reject? || op.Restore? {
      StripIs(op.actor, "user");
    }
    if op.Edit? || op.CreateCandidate? {
      StripIs(op.content.description, Strip(op.content.description));
      BlankIff(op.content.description);
    }
  }

  /** What becomes of a record, and when it is refused. */
  lemma {:induction false} ChangeIs(s: Sample, op: Operation, now: real)
    ensures Changed(s, op, now).Some? <==> IsAccepted(s, op)
    ensures Changed(s, op, now).Some? ==> HasEffect(s, Changed(s, op, now).value, op, now)
  {
    hide Strip, Trims, IsBlank;
    TextsAre(op);
  }

  /** An operation on one sample stores its effect in the row of the sample, and changes nothing
      at all where it is refused. */
  lemma {:induction false} OperationStores(lib: Library, op: Operation, now: real)
    requires Target(op).Some? && !op.CreateCandidate? && !op.Delete?
    ensures var id := Target(op).value; var found := Find(lib.rows, id); var after := Apply(lib, op, now);
      if found.None? || !IsAccepted(found.value, op) then after == lib
      else
        && after.nextId == lib.nextId && OnlyRow(lib.rows, after.rows, id)
        && Find(after.rows, id).Some? && HasEffect(found.value, Find(after.rows, id).value, op, now)
  {
    hide Changed, Strip, Find, Store, IsAccepted, HasEffect;
    var id := Target(op).value;
    FindIs(lib.rows, id);
    if Find(lib.rows, id).Some? {
      var s := Find(lib.rows, id).value;
      ChangeIs(s, op, now);
      ChangeKeepsId(s, op, now);
      if Changed(s, op, now).Some? {
        StoreOnlyRow(lib.rows, Changed(s, op, now).value);
      }
    }
  }

  /** Deleting takes out the row of the sample and no other. */
  lemma {:induction false} DeleteRemoves(lib: Library, id: int, now: real)
    requires Ordered(lib)
    ensures var after := Apply(lib, Delete(id), now);
      && after.nextId == lib.nextId && Ordered(after)
      && forall x :: x in after.rows <==> x in lib.rows && x.id != id
  {
    hide Remove, Ordered;
    RemoveOrdered(lib.rows, id, lib.nextId);
    RemoveIs(lib.rows, id);
    RemovedIsGone(lib.rows, id, lib.nextId);
  }

  lemma {:induction false} RemovedIsGone(rows: seq<Sample>, id: int, nextId: int)
    requires Ordered(Library(rows, nextId))
    ensures forall x :: x in Remove(rows, id) ==> x.id != id
  {
    hide Ordered;
    if rows == [] {
    } else {
      OrderedSplit(rows, nextId);
      if rows[0].id != id {
        RemovedIsGone(rows[1..], id, nextId);
      }
    }
  }

  /** A candidate is refused for blank texts, no steps or an unknown source. A duplicate counts
      another similarity; anything else is stored at the end under a new identifier. */
  lemma {:induction false} CreateStores(lib: Library, op: Operation, now: real)
    requires op.CreateCandidate?
    ensures var after := Apply(lib, op, now);
      if IsBlank(op.content.description) || op.content.steps == []
         || !(Trims(op.source, "llm") || Trims(op.source, "rule") || Trims(op.source, "user_edit")) then after == lib
      else
        match op.duplicate
        case None =>
          && after.nextId == lib.nextId + 1 && |after.rows| == |lib.rows| + 1 && after.rows[..|lib.rows|] == lib.rows
          && IsNewCandidate(after.rows[|lib.rows|], lib.nextId, op.content, op.source, op.plan, now)
        case Some((id, _)) =>
          var found := Find(lib.rows, id);
          if found.None? then after == lib
          else
            && after.nextId == lib.nextId && OnlyRow(lib.rows, after.rows, id)
            && Find(after.rows, id).Some? && HasEffect(found.value, Find(after.rows, id).value, op, now)
  {
    hide Strip, Find, Store, Trims, IsBlank;
    TextsAre(op);
    StripIs(op.source, "llm");
    StripIs(op.source, "rule");
    StripIs(op.source, "user_edit");
    StripIs(op.source, Strip(op.source));
    StripIs(op.plan, Strip(op.plan));
    if op.duplicate.Some? {
      var (id, similarity) := op.duplicate.value;
      FindIs(lib.rows, id);
      if Find(lib.rows, id).Some? {
        StoreOnlyRow(lib.rows, Merged(Find(lib.rows, id).value, similarity, now));
      }
    }
  }

  // ----- what one operation answers

  /** The record an operation gives back; `None` where it raises. */
  function AnswerOf(rows: seq<Sample>, id: int, op: Operation, now: real): Option<Sample> {
    match Find(rows, id)
    case None => None
    case Some(s) => Changed(s, op, now)
  }

  /** Only the row with this identifier may differ. */
  ghost predicate OnlyRow(rows: seq<Sample>, after: seq<Sample>, id: int) {
    && |after| == |rows|
    && forall k :: 0 <= k < |rows| ==> after[k].id == rows[k].id && (rows[k].id != id ==> after[k] == rows[k])
  }

  /** What a caller of an operation on one sample may rely on: it raises exactly when the sample
      is missing or the change is refused, and then nothing has changed; otherwise the record it
      gives back is the stored one, holds the effect of the operation and the marks of its state,
      and no other row is touched. */
  ghost predicate Answers(before: Library, op: Operation, id: int, now: real, after: Library, result: Option<Sample>) {
    && after == Apply(before, op, now) && after.nextId == before.nextId
    && (result.Some? <==> Find(before.rows, id).Some? && IsAccepted(Find(before.rows, id).value, op))
    && (result.Some? ==> HasEffect(Find(before.rows, id).value, result.value, op, now))
    && (result.None? ==> after == before)
    && (result.Some? ==> result.value.id == id && Find(after.rows, id) == result)
    && (result.Some? && IsConsistent(Find(before.rows, id).value) ==> IsConsistent(result.value))
    && OnlyRow(before.rows, after.rows, id)
  }

  lemma {:induction false} StoreOnlyRow(rows: seq<Sample>, t: Sample)
    ensures OnlyRow(rows, Store(rows, t), t.id)
    ensures Find(rows, t.id).Some? ==> Find(Store(rows, t), t.id) == Some(t)
  {
    if rows == [] || rows[0].id == t.id {
    } else {
      StoreOnlyRow(rows[1..], t);
      assert Store(rows, t)[1..] == Store(rows[1..], t);
    }
  }

  lemma {:induction false} AnswerIs(before: Library, op: Operation, id: int, now: real)
    requires Target(op) == Some(id) && !op.CreateCandidate? && !op.Delete?
    ensures Answers(before, op, id, now, Apply(before, op, now), AnswerOf(before.rows, id, op, now))
  {
    hide Changed, Find, Store, IsConsistent, Strip, IsAccepted, HasEffect;
    FindIs(before.rows, id);
    if Find(before.rows, id).Some? {
      ChangeIs(Find(before.rows, id).value, op, now);
    }
    var result := AnswerOf(before.rows, id, op, now);
    if result.Some? {
      var s := Find(before.rows, id).value;
      ChangeKeepsId(s, op, now);
      StoreOnlyRow(before.rows, result.value);
      if IsConsistent(s) {
        ChangeConsistent(s, op, now);
      }
    }
  }
}
