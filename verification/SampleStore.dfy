/** The repository, the lifecycle manager and the maintenance service as objects.

    The table is a sequence of rows; the search for duplicates, the clock, the eviction score and
    the failed-plan provider are arguments. */
module SampleStore {
  import opened SampleRecord
  import opened SampleLibrary
  import opened SampleMaintenance

  const PAGE: nat := 500

  class SampleRepository {
    var rows: seq<Sample>
    var nextId: int

    function Value(): Library
      reads this
    {
      Library(rows, nextId)
    }

    constructor ()
      ensures Value() == Library([], 1)
    {
      rows, nextId := [], 1;
    }

    method Get(id: int) returns (sample: Option<Sample>)
      ensures sample == Find(rows, id)
      ensures sample.Some? ==> sample.value.id == id
    {
      FindIs(rows, id);
      sample := Find(rows, id);
    }

    method Save(s: Sample)
      modifies this`rows
      ensures rows == Store(old(rows), s)
    {
      rows := Store(rows, s);
    }

    method Delete(id: int) returns (deleted: bool)
      modifies this`rows
      ensures Value() == Apply(old(Value()), SampleLibrary.Delete(id), 0.0)
      ensures deleted == Find(old(rows), id).Some?
      ensures Ordered(old(Value())) ==> Ordered(Value()) && forall x :: x in rows <==> x in old(rows) && x.id != id
    {
      hide Remove, Ordered;
      if Ordered(Value()) {
        DeleteRemoves(Value(), id, 0.0);
      }
      deleted := Find(rows, id).Some?;
      rows := Remove(rows, id);
    }

    /** A page of the listing, newest first. */
    method ListSamples(verifiedOnly: bool, offset: nat) returns (page: seq<Sample>)
      ensures var all := if verifiedOnly then VerifiedSamples(rows) else Listing(rows);
        page == if offset >= |all| then [] else if offset + PAGE < |all| then all[offset..offset + PAGE] else all[offset..]
    {
      var all := if verifiedOnly then VerifiedSamples(rows) else Listing(rows);
      page := if offset >= |all| then [] else if offset + PAGE < |all| then all[offset..offset + PAGE] else all[offset..];
    }

    /** Page by page until one is not full. */
    method AllSamples(verifiedOnly: bool) returns (samples: seq<Sample>)
      ensures samples == if verifiedOnly then VerifiedSamples(rows) else Listing(rows)
    {
      hide VerifiedSamples, Listing;
      ghost var all := if verifiedOnly then VerifiedSamples(rows) else Listing(rows);
      samples := [];
      var offset := 0;
      while true
        invariant offset == |samples| <= |all| && samples == all[..offset]
        decreases |all| - offset
      {
        var page := ListSamples(verifiedOnly, offset);
        samples := samples + page;
        if |page| < PAGE {
          return;
        }
        offset := offset + |page|;
      }
    }

    method RecordInjection(id: int, hitAt: real, similarity: Option<real>, now: real) returns (updated: Option<Sample>)
      modifies this
      ensures Answers(old(Value()), SampleLibrary.RecordInjection(id, hitAt, similarity), id, now, Value(), updated)
      ensures updated.Some? <==> Find(old(rows), id).Some?
      ensures updated.Some? ==>
        var u, v := Find(old(rows), id).value.usage, updated.value.usage;
        && v.injectedCount == u.injectedCount + 1 && v.lastInjectedAt == Some(hitAt)
        && CountsSimilarity(u, v, similarity)
    {
      hide Find, Store, Answers;
      AnswerIs(Value(), SampleLibrary.RecordInjection(id, hitAt, similarity), id, now);
      var current := Get(id);
      if current.None? {
        return None;
      }
      var s := current.value;
      var usage := s.usage.(injectedCount := s.usage.injectedCount + 1, lastInjectedAt := Some(hitAt));
      if similarity.Some? {
        usage := usage.(similaritySum := usage.similaritySum + similarity.value, similarityCount := usage.similarityCount + 1);
      }
      updated := Some(s.(usage := usage, updatedAt := now));
      Save(updated.value);
    }

    method AssignPlanId(id: int, plan: string, now: real) returns (updated: Option<Sample>)
      modifies this
      ensures Answers(old(Value()), SampleLibrary.AssignPlanId(id, plan), id, now, Value(), updated)
      ensures updated.Some? <==> Find(old(rows), id).Some? && Strip(plan) != ""
    {
      hide Find, Store, Strip, Answers;
      AnswerIs(Value(), SampleLibrary.AssignPlanId(id, plan), id, now);
      var current := Get(id);
      if Strip(plan) == "" || current.None? {
        return None;
      }
      updated := Some(current.value.(planId := Strip(plan), updatedAt := now));
      Save(updated.value);
    }

    /** `duplicate` is the answer of the search for an equal or nearly equal sample. `None` is an
        exception: the content or the source is refused, or the duplicate is gone. */
    method CreateCandidate(content: Content, source: string, plan: string, duplicate: Option<(int, real)>, now: real)
      returns (sample: Option<Sample>)
      modifies this
      ensures Value() == Apply(old(Value()), SampleLibrary.CreateCandidate(content, source, plan, duplicate), now)
      ensures sample.None? <==>
        !IsContent(content) || !IsSource(Strip(source)) || (duplicate.Some? && Find(old(rows), duplicate.value.0).None?)
      ensures sample.None? ==> Value() == old(Value())
      ensures sample.Some? && duplicate.None? ==>
        && rows == old(rows) + [sample.value] && nextId == old(nextId) + 1 && IsConsistent(sample.value)
        && IsNewCandidate(sample.value, old(nextId), content, source, plan, now)
      ensures sample.Some? && duplicate.Some? ==>
        var id := duplicate.value.0;
        && nextId == old(nextId) && OnlyRow(old(rows), rows, id)
        && Find(rows, id) == sample && SameVerdict(Find(old(rows), id).value, sample.value)
        && HasEffect(Find(old(rows), id).value, sample.value, SampleLibrary.CreateCandidate(content, source, plan, duplicate), now)
    {
      hide Find, Store, Strip, Trims, IsBlank;
      CreateStores(Value(), SampleLibrary.CreateCandidate(content, source, plan, duplicate), now);
      if Strip(content.description) == "" || content.steps == [] || !IsSource(Strip(source)) {
        return None;
      }
      if duplicate.Some? {
        var current := Get(duplicate.value.0);
        if current.None? {
          return None;
        }
        var usage := current.value.usage;
        sample := Some(current.value.(
          usage := usage.(similaritySum := usage.similaritySum + duplicate.value.1, similarityCount := usage.similarityCount + 1),
          updatedAt := now));
        StoreOnlyRow(rows, sample.value);
        Save(sample.value);
        return;
      }
      sample := Some(NewCandidate(nextId, content, Strip(source), plan, now));
      rows := rows + [sample.value];
      nextId := nextId + 1;
    }
  }

  class SampleLifecycleManager {
    const repository: SampleRepository

    constructor (repository: SampleRepository)
      ensures this.repository == repository
    {
      this.repository := repository;
    }

    /** The one way a state changes: the marks of the new state are set, those of the others are
        cleared, and no other row is touched. */
    method MoveTo(s: Sample, target: SampleState, actor: string, reason: Option<string>, kind: Option<VerifyKind>, now: real)
      returns (updated: Sample)
      modifies repository
      ensures updated == Transition(s, target, actor, reason, kind, now)
      ensures repository.rows == Store(old(repository.rows), updated) && repository.nextId == old(repository.nextId)
      ensures OnlyRow(old(repository.rows), repository.rows, s.id)
      ensures Find(old(repository.rows), s.id).Some? ==> Find(repository.rows, s.id) == Some(updated)
      ensures updated.state == target && updated.id == s.id && updated.content == s.content && updated.usage == s.usage
      ensures (target == Verified ==> kind.Some?) && (target == Stale ==> reason.Some?) ==> IsConsistent(updated)
    {
      hide Find, Store;
      updated := s.(
        state := target,
        verifyKind := if target == Verified then kind else None,
        staleReason := if target == Stale then reason else None,
        rejectedBy := if target == Rejected then Some(actor) else None,
        lastActor := actor,
        rowStatus := if target == Archived then Cancelled else Active,
        updatedAt := now);
      StoreOnlyRow(repository.rows, updated);
      repository.Save(updated);
    }

    // A handler gives back the stored record; `None` is an exception.

    method Confirm(id: int, actor: string, now: real) returns (result: Option<Sample>)
      modifies repository
      ensures Answers(old(repository.Value()), SampleLibrary.Confirm(id, actor), id, now, repository.Value(), result)
      ensures result.Some? <==> Strip(actor) == "user" && Find(old(repository.rows), id).Some?
      ensures result.Some? ==> IsUserVerified(result.value)
    {
      hide Find, Store, Strip, Answers, OnlyRow, IsConsistent;
      AnswerIs(repository.Value(), SampleLibrary.Confirm(id, actor), id, now);
      if Strip(actor) != "user" {
        return None;
      }
      var current := repository.Get(id);
      if current.None? {
        return None;
      }
      if IsUserVerified(current.value) {
        StoreSame(repository.rows, current.value);
        return current;
      }
      var updated := MoveTo(current.value, Verified, actor, None, Some(User), now);
      return Some(updated);
    }

    method AutoVerify(id: int, now: real) returns (result: Option<Sample>)
      modifies repository
      ensures Answers(old(repository.Value()), SampleLibrary.AutoVerify(id), id, now, repository.Value(), result)
      ensures result.Some? <==> Find(old(repository.rows), id).Some? && Find(old(repository.rows), id).value.state == Candidate
      ensures result.Some? ==> IsAutoVerified(result.value)
      ensures result == AnswerOf(old(repository.rows), id, SampleLibrary.AutoVerify(id), now)
    {
      hide Find, Store, Answers, OnlyRow, IsConsistent;
      AnswerIs(repository.Value(), SampleLibrary.AutoVerify(id), id, now);
      var current := repository.Get(id);
      if current.None? || current.value.state != Candidate {
        return None;
      }
      var updated := MoveTo(current.value, Verified, "auto", None, Some(Auto), now);
      return Some(updated);
    }

    method AutoVerifyCandidate(id: int, now: real) returns (result: Option<Sample>)
      modifies repository
      ensures Answers(old(repository.Value()), SampleLibrary.AutoVerifyCandidate(id), id, now, repository.Value(), result)
      ensures result.Some? <==> Find(old(repository.rows), id).Some?
      ensures result.Some? ==>
        var s := Find(old(repository.rows), id).value;
        if s.state == Candidate && s.usage.planCompleted >= 2 then IsAutoVerified(result.value) else result.value == s
    {
      hide Find, Store, Answers, OnlyRow, IsConsistent;
      AnswerIs(repository.Value(), SampleLibrary.AutoVerifyCandidate(id), id, now);
      AnswerIs(repository.Value(), SampleLibrary.AutoVerify(id), id, now);
      var current := repository.Get(id);
      if current.None? {
        return None;
      }
      if current.value.state != Candidate || current.value.usage.planCompleted < 2 {
        StoreSame(repository.rows, current.value);
        return current;
      }
      result := AutoVerify(id, now);
      SameApply(old(repository.Value()), id, now, repository.Value(), result);
    }

    method Edit(id: int, content: Content, actor: string, now: real) returns (result: Option<Sample>)
      modifies repository
      ensures Answers(old(repository.Value()), SampleLibrary.Edit(id, content, actor), id, now, repository.Value(), result)
      ensures result.Some? <==> Strip(actor) == "user" && Find(old(repository.rows), id).Some? && IsContent(content)
      ensures result.Some? ==> IsUserVerified(result.value) && result.value.usage == Usage(0, None, 0.0, 0, 0, 0, 0)
      ensures result.Some? ==> result.value.version == Find(old(repository.rows), id).value.version + 1
      ensures result.Some? ==>
        && result.value.content.steps == content.steps && Trims(content.description, result.value.content.description)
        && result.value.source == "user_edit" && result.value.planId == Find(old(repository.rows), id).value.planId
    {
      hide Find, Store, Strip, Answers, IsConsistent, Trims;
      AnswerIs(repository.Value(), SampleLibrary.Edit(id, content, actor), id, now);
      TextsAre(SampleLibrary.Edit(id, content, actor));
      var current := repository.Get(id);
      if Strip(actor) != "user" || current.None? || Strip(content.description) == "" || content.steps == [] {
        return None;
      }
      var s := current.value;
      result := Some(s.(
        content := Content(Strip(content.description), content.steps), state := Verified, verifyKind := Some(User),
        source := "user_edit", usage := EMPTY_USAGE, version := s.version + 1, staleReason := None, rejectedBy := None,
        lastActor := actor, rowStatus := Active, updatedAt := now));
      repository.Save(result.value);
    }

    method Reject(id: int, actor: string, now: real) returns (result: Option<Sample>)
      modifies repository
      ensures Answers(old(repository.Value()), SampleLibrary.Reject(id, actor), id, now, repository.Value(), result)
      ensures result.Some? <==>
        Strip(actor) == "user" && Find(old(repository.rows), id).Some? && Find(old(repository.rows), id).value.state != Rejected
      ensures result.Some? ==> result.value.state == Rejected
    {
      hide Find, Store, Strip, Answers, OnlyRow, IsConsistent;
      AnswerIs(repository.Value(), SampleLibrary.Reject(id, actor), id, now);
      var current := repository.Get(id);
      if Strip(actor) != "user" || current.None? || current.value.state == Rejected {
        return None;
      }
      var updated := MoveTo(current.value, Rejected, actor, None, None, now);
      return Some(updated);
    }

    method Restore(id: int, actor: string, now: real) returns (result: Option<Sample>)
      modifies repository
      ensures Answers(old(repository.Value()), SampleLibrary.Restore(id, actor), id, now, repository.Value(), result)
      ensures result.Some? <==>
        && Strip(actor) == "user" && Find(old(repository.rows), id).Some?
        && var state := Find(old(repository.rows), id).value.state; state == Rejected || state == Archived || state == Stale
      ensures result.Some? ==> result.value.state == Candidate
    {
      hide Find, Store, Strip, Answers, OnlyRow, IsConsistent;
      AnswerIs(repository.Value(), SampleLibrary.Restore(id, actor), id, now);
      var current := repository.Get(id);
      if Strip(actor) != "user" || current.None? {
        return None;
      }
      if current.value.state != Rejected && current.value.state != Archived && current.value.state != Stale {
        return None;
      }
      var updated := MoveTo(current.value, Candidate, actor, None, None, now);
      return Some(updated);
    }

    method MarkStale(id: int, reason: string, actor: string, now: real) returns (result: Option<Sample>)
      modifies repository
      ensures Answers(old(repository.Value()), SampleLibrary.MarkStale(id, reason, actor), id, now, repository.Value(), result)
      ensures result.Some? <==>
        && Strip(actor) == "auto" && Strip(reason) != "" && Find(old(repository.rows), id).Some?
        && var s := Find(old(repository.rows), id).value; s.state == Candidate || IsAutoVerified(s)
      ensures result == AnswerOf(old(repository.rows), id, SampleLibrary.MarkStale(id, reason, actor), now)
    {
      hide Find, Store, Strip, Answers, OnlyRow, IsConsistent;
      AnswerIs(repository.Value(), SampleLibrary.MarkStale(id, reason, actor), id, now);
      var current := repository.Get(id);
      if Strip(actor) != "auto" || Strip(reason) == "" || current.None? {
        return None;
      }
      if current.value.state != Candidate && !IsAutoVerified(current.value) {
        return None;
      }
      var updated := MoveTo(current.value, Stale, actor, Some(Strip(reason)), None, now);
      return Some(updated);
    }

    method Archive(id: int, reason: string, actor: string, now: real) returns (result: Option<Sample>)
      modifies repository
      ensures Answers(old(repository.Value()), SampleLibrary.Archive(id, reason, actor), id, now, repository.Value(), result)
      ensures repository.Value() == Apply(old(repository.Value()), SampleLibrary.Archive(id, reason, actor), now)
      ensures result == AnswerOf(old(repository.rows), id, SampleLibrary.Archive(id, reason, actor), now)
      ensures result.Some? ==> result.value.state == Archived && !IsSovereign(Find(old(repository.rows), id).value)
    {
      hide Find, Store, Strip, Answers, OnlyRow, IsConsistent;
      AnswerIs(repository.Value(), SampleLibrary.Archive(id, reason, actor), id, now);
      var current := repository.Get(id);
      if (Strip(actor) != "auto" && Strip(actor) != "system") || Strip(reason) == "" || current.None? {
        return None;
      }
      if current.value.state == Rejected || current.value.state == Archived || IsUserVerified(current.value) {
        return None;
      }
      var updated := MoveTo(current.value, Archived, actor, Some(Strip(reason)), None, now);
      return Some(updated);
    }

    /** Counts first, then stales after the third failure in a row. */
    method RecordPlanOutcome(id: int, completed: bool, now: real) returns (result: Option<Sample>)
      modifies repository
      ensures Answers(old(repository.Value()), SampleLibrary.RecordPlanOutcome(id, completed), id, now, repository.Value(), result)
      ensures result.Some? <==> Find(old(repository.rows), id).Some?
      ensures result.Some? ==>
        var s := Find(old(repository.rows), id).value;
        && CountsOutcome(s.usage, result.value.usage, completed) && result.value.content == s.content
        && (result.value.state != s.state <==>
              && !completed && result.value.usage.injectedCount >= 3 && result.value.usage.consecutiveFailures >= 3
              && (s.state == Candidate || IsAutoVerified(s)))
        && (result.value.state != s.state ==> result.value.state == Stale && result.value.staleReason == Some("consecutive_failure"))
    {
      hide Find, Store, Strip, Answers, OnlyRow, IsConsistent;
      AnswerIs(repository.Value(), SampleLibrary.RecordPlanOutcome(id, completed), id, now);
      var current := repository.Get(id);
      if current.None? {
        return None;
      }
      var s := current.value;
      var u := s.usage;
      if completed {
        result := Some(s.(usage := u.(planCompleted := u.planCompleted + 1, consecutiveFailures := 0), updatedAt := now));
        repository.Save(result.value);
        return;
      }
      u := u.(planFailed := u.planFailed + 1, consecutiveFailures := u.consecutiveFailures + 1);
      var updated := s.(usage := u, updatedAt := now);
      StoredThenFound(repository.rows, s, updated);
      repository.Save(updated);
      if u.injectedCount >= 3 && u.consecutiveFailures >= 3 && (updated.state == Candidate || IsAutoVerified(updated)) {
        StaleActor();
        StoreTwice(old(repository.rows), updated, Transition(updated, Stale, "auto", Some("consecutive_failure"), None, now));
        ghost var counted := repository.Value();
        result := MarkStale(updated.id, "consecutive_failure", "auto", now);
        AnswerApplies(counted, SampleLibrary.MarkStale(updated.id, "consecutive_failure", "auto"), id, now, repository.Value(), result);
        return;
      }
      return Some(updated);
    }
  }

  /** Archives through the lifecycle manager only, and gathers refusals instead of raising. */
  class SampleMaintenanceService {
    const lifecycle: SampleLifecycleManager
    const repository: SampleRepository
    const limit: nat
    var actions: seq<(int, string)>
    var errors: nat

    constructor (lifecycle: SampleLifecycleManager, verifiedLimit: int)
      ensures this.lifecycle == lifecycle && repository == lifecycle.repository
      ensures limit == if verifiedLimit > 1 then verifiedLimit else 1
    {
      this.lifecycle := lifecycle;
      repository := lifecycle.repository;
      limit := if verifiedLimit > 1 then verifiedLimit else 1;
      actions, errors := [], 0;
    }

    function Value(): Progress
      reads this, repository
    {
      Progress(repository.rows, actions, errors)
    }

    method ArchiveOne(id: int, reason: string, clock: Clock)
      requires repository == lifecycle.repository
      modifies this, repository
      ensures Value() == ArchiveStep(old(Value()), id, reason, clock) && repository.nextId == old(repository.nextId)
    {
      hide Find, Store, ArchivedFor;
      FindIs(repository.rows, id);
      var archived := lifecycle.Archive(id, reason, "system", clock(|actions|));
      if archived.Some? {
        actions := actions + [(id, reason)];
      } else {
        errors := errors + 1;
      }
    }

    method ArchiveListed(list: seq<(int, string)>, clock: Clock)
      requires repository == lifecycle.repository
      modifies this, repository
      ensures Value() == ArchiveEach(old(Value()), list, clock) && repository.nextId == old(repository.nextId)
    {
      hide ArchiveStep;
      ghost var start := Value();
      for k := 0 to |list|
        invariant Value() == ArchiveEach(start, list[..k], clock) && repository.nextId == old(repository.nextId)
      {
        assert list[..k + 1][..k] == list[..k];
        ArchiveOne(list[k].0, list[k].1, clock);
      }
      assert list[..|list|] == list;
    }

    method EnforceVerifiedLimit(now: real, score: Score, clock: Clock)
      requires repository == lifecycle.repository
      modifies this, repository
      ensures Value() == ArchiveEach(old(Value()), CapacityList(old(repository.rows), limit, score, now), clock)
      ensures repository.nextId == old(repository.nextId)
    {
      hide VerifiedSamples, ArchiveEach, Where, SortBy;
      var verified := repository.AllSamples(true);
      if |verified| <= limit {
        NothingArchived(Value(), clock);
        return;
      }
      var eligible := SortBy(Where(verified, OfEligible()), ByScore(score, now));
      var excess := |verified| - limit;
      var victims := if excess <= |eligible| then eligible[..excess] else eligible;
      ArchiveListed(Reasoned(victims, ForCapacity()), clock);
    }

    method ArchiveColdAndAbandoned(now: real, failed: PlanFailed, clock: Clock)
      requires repository == lifecycle.repository
      modifies this, repository
      ensures Value() == ArchiveEach(old(Value()), ColdList(old(repository.rows), now, failed), clock)
      ensures repository.nextId == old(repository.nextId)
    {
      hide ArchiveStep, Listing, ColdReason;
      ghost var start := Value();
      var samples := repository.AllSamples(false);
      var why := ForCold(now, failed);
      assert samples[..0] == [];
      for k := 0 to |samples|
        invariant Value() == ArchiveEach(start, Reasoned(samples[..k], why), clock) && repository.nextId == old(repository.nextId)
      {
        var reason := ColdReason(samples[k], now, failed);
        ReasonedNext(samples, why, k);
        ArchiveNext(start, Reasoned(samples[..k], why), samples[k].id, if reason.Some? then reason.value else "", clock);
        if reason.Some? {
          ArchiveOne(samples[k].id, reason.value, clock);
        }
      }
      assert samples[..|samples|] == samples;
    }

    /** One run. `raised` stands for the error at its end; it never comes to that. */
    method Run(now: real, score: Score, failed: PlanFailed, clock: Clock) returns (raised: bool)
      requires repository == lifecycle.repository && DistinctRows(repository.rows)
      modifies this, repository
      ensures Value() == Governed(old(repository.rows), limit, score, failed, now, clock)
      ensures !raised && repository.nextId == old(repository.nextId)
    {
      hide CapacityList, ColdList, ArchiveEach;
      GovernanceNeverFails(repository.rows, limit, score, failed, now, clock);
      actions, errors := [], 0;
      EnforceVerifiedLimit(now, score, clock);
      ArchiveColdAndAbandoned(now, failed, clock);
      return errors > 0;
    }
  }

  lemma {:induction false} AnswerApplies(before: Library, op: Operation, id: int, now: real, after: Library, result: Option<Sample>)
    requires Answers(before, op, id, now, after, result)
    ensures after == Apply(before, op, now)
  {
  }

  /** Verifying a candidate after two completed plans is verifying it. */
  lemma {:induction false} SameApply(before: Library, id: int, now: real, after: Library, result: Option<Sample>)
    requires Answers(before, SampleLibrary.AutoVerify(id), id, now, after, result)
    requires Find(before.rows, id).Some?
    requires var s := Find(before.rows, id).value; s.state == Candidate && s.usage.planCompleted >= 2
    ensures Answers(before, SampleLibrary.AutoVerifyCandidate(id), id, now, after, result)
  {
    hide Find, Store, OnlyRow, IsConsistent;
  }

  lemma {:induction false} NothingArchived(p: Progress, clock: Clock)
    ensures ArchiveEach(p, [], clock) == p
  {
  }

  lemma {:induction false} ReasonedUnfold(xs: seq<Sample>, why: Sample -> Option<string>)
    ensures Reasoned([], why) == []
    ensures xs != [] ==>
      Reasoned(xs, why) == (if why(xs[0]).Some? then [(xs[0].id, why(xs[0]).value)] else []) + Reasoned(xs[1..], why)
  {
  }

  lemma {:induction false} ReasonedJoin(xs: seq<Sample>, ys: seq<Sample>, why: Sample -> Option<string>)
    ensures Reasoned(xs + ys, why) == Reasoned(xs, why) + Reasoned(ys, why)
  {
    hide Reasoned;
    ReasonedUnfold(xs, why);
    if xs == [] {
      assert xs + ys == ys;
    } else {
      ReasonedJoin(xs[1..], ys, why);
      ReasonedUnfold(xs + ys, why);
      assert (xs + ys)[0] == xs[0] && (xs + ys)[1..] == xs[1..] + ys;
    }
  }

  lemma {:induction false} ReasonedNext(xs: seq<Sample>, why: Sample -> Option<string>, k: nat)
    requires k < |xs|
    ensures Reasoned(xs[..k + 1], why) ==
      Reasoned(xs[..k], why) + (if why(xs[k]).Some? then [(xs[k].id, why(xs[k]).value)] else [])
  {
    assert xs[..k + 1] == xs[..k] + [xs[k]];
    ReasonedJoin(xs[..k], [xs[k]], why);
    assert [xs[k]][1..] == [];
  }

  lemma {:induction false} ArchiveNext(p: Progress, list: seq<(int, string)>, id: int, reason: string, clock: Clock)
    ensures ArchiveEach(p, list + [(id, reason)], clock) == ArchiveStep(ArchiveEach(p, list, clock), id, reason, clock)
    ensures ArchiveEach(p, list + [], clock) == ArchiveEach(p, list, clock)
  {
    hide ArchiveStep;
    assert (list + [(id, reason)])[..|list|] == list;
    assert list + [] == list;
  }

  lemma {:induction false} StaleActor()
    ensures Strip("auto") == "auto" && Strip("consecutive_failure") == "consecutive_failure"
  {
  }

  lemma {:induction false} StoreSame(rows: seq<Sample>, s: Sample)
    requires Find(rows, s.id) == Some(s)
    ensures Store(rows, s) == rows
  {
    if rows[0].id == s.id {
    } else {
      StoreSame(rows[1..], s);
    }
  }

  lemma {:induction false} StoredThenFound(rows: seq<Sample>, s: Sample, t: Sample)
    requires Find(rows, s.id) == Some(s) && t.id == s.id
    ensures Find(Store(rows, t), t.id) == Some(t)
  {
    if rows[0].id == s.id {
    } else {
      StoredThenFound(rows[1..], s, t);
    }
  }

  lemma {:induction false} StoreTwice(rows: seq<Sample>, s: Sample, t: Sample)
    requires s.id == t.id
    ensures Store(Store(rows, s), t) == Store(rows, t)
  {
    if rows == [] || rows[0].id == s.id {
    } else {
      StoreTwice(rows[1..], s, t);
    }
  }
}
