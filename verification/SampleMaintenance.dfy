/** Governance of the sample library: capacity, cold and abandoned samples.

    The eviction score is any function of a sample and the time; so are the provider that tells
    whether a plan failed and the clock that stamps the rows. */
module SampleMaintenance {
  import opened SampleRecord
  import opened SampleLibrary

  type Score = (Sample, real) -> real
  type PlanFailed = string -> bool
  type Clock = nat -> real
  type Order = (Sample, Sample) -> bool

  // ----- sorting

  function Insert(x: Sample, sorted: seq<Sample>, before: Order): seq<Sample> {
    if sorted == [] || before(x, sorted[0]) then [x] + sorted else [sorted[0]] + Insert(x, sorted[1..], before)
  }

  /** Stable. */
  function SortBy(xs: seq<Sample>, before: Order): seq<Sample> {
    if xs == [] then [] else Insert(xs[0], SortBy(xs[1..], before), before)
  }

  ghost predicate IsTotal(before: Order) {
    && (forall a, b :: before(a, b) || before(b, a))
    && (forall a, b, c :: before(a, b) && before(b, c) ==> before(a, c))
  }

  ghost predicate IsSorted(xs: seq<Sample>, before: Order) {
    forall i, j :: 0 <= i < j < |xs| ==> before(xs[i], xs[j])
  }

  lemma {:induction false} InsertIs(x: Sample, sorted: seq<Sample>, before: Order)
    ensures multiset(Insert(x, sorted, before)) == multiset{x} + multiset(sorted)
  {
    if sorted == [] || before(x, sorted[0]) {
    } else {
      InsertIs(x, sorted[1..], before);
      assert sorted == [sorted[0]] + sorted[1..];
    }
  }

  lemma {:induction false} InsertSorted(x: Sample, sorted: seq<Sample>, before: Order)
    requires IsTotal(before) && IsSorted(sorted, before)
    ensures IsSorted(Insert(x, sorted, before), before)
  {
    if sorted == [] {
    } else {
      if before(x, sorted[0]) {
        assert forall j :: 0 <= j < |sorted| ==> before(x, sorted[j]);
      } else {
        var rest := Insert(x, sorted[1..], before);
        InsertSorted(x, sorted[1..], before);
        InsertIs(x, sorted[1..], before);
        forall j | 0 <= j < |rest|
          ensures before(sorted[0], rest[j])
        {
          assert rest[j] in multiset(rest);
          assert rest[j] == x || rest[j] in sorted[1..];
        }
      }
    }
  }

  lemma {:induction false} SortIs(xs: seq<Sample>, before: Order)
    ensures multiset(SortBy(xs, before)) == multiset(xs)
    ensures IsTotal(before) ==> IsSorted(SortBy(xs, before), before)
  {
    hide IsTotal, IsSorted;
    if xs == [] {
      EmptySorted(before);
    } else {
      SortIs(xs[1..], before);
      InsertIs(xs[0], SortBy(xs[1..], before), before);
      if IsTotal(before) {
        InsertSorted(xs[0], SortBy(xs[1..], before), before);
      }
      assert xs == [xs[0]] + xs[1..];
    }
  }

  /** `a` stands before `b`. */
  ghost predicate Earlier(xs: seq<Sample>, a: Sample, b: Sample) {
    exists i, j :: 0 <= i < j < |xs| && xs[i] == a && xs[j] == b
  }

  lemma {:induction false} EarlierBehind(x: Sample, xs: seq<Sample>, a: Sample, b: Sample)
    ensures Earlier([x] + xs, a, b) <==> Earlier(xs, a, b) || (a == x && b in xs)
  {
    var ys := [x] + xs;
    if Earlier(ys, a, b) {
      var i, j :| 0 <= i < j < |ys| && ys[i] == a && ys[j] == b;
      assert xs[j - 1] == b;
      if i > 0 {
        assert xs[i - 1] == a;
      }
    }
    if Earlier(xs, a, b) {
      var i, j :| 0 <= i < j < |xs| && xs[i] == a && xs[j] == b;
      assert ys[i + 1] == a && ys[j + 1] == b;
    }
    if a == x && b in xs {
      var j :| 0 <= j < |xs| && xs[j] == b;
      assert ys[0] == a && ys[j + 1] == b;
    }
  }

  lemma {:induction false} InInsert(x: Sample, sorted: seq<Sample>, before: Order, s: Sample)
    ensures s in Insert(x, sorted, before) <==> s == x || s in sorted
  {
    InsertIs(x, sorted, before);
    assert s in Insert(x, sorted, before) <==> s in multiset(Insert(x, sorted, before));
    assert s in sorted <==> s in multiset(sorted);
  }

  /** A new element goes before its equals. */
  lemma {:induction false} InsertStable(x: Sample, sorted: seq<Sample>, before: Order, a: Sample, b: Sample)
    requires IsTotal(before) && IsSorted(sorted, before) && Earlier(Insert(x, sorted, before), a, b) && before(b, a)
    ensures Earlier(sorted, a, b) || (a == x && b in sorted)
  {
    hide Earlier;
    if sorted == [] || before(x, sorted[0]) {
      EarlierBehind(x, sorted, a, b);
    } else {
      var rest := Insert(x, sorted[1..], before);
      assert sorted == [sorted[0]] + sorted[1..];
      EarlierBehind(sorted[0], rest, a, b);
      EarlierBehind(sorted[0], sorted[1..], a, b);
      if Earlier(rest, a, b) {
        InsertStable(x, sorted[1..], before, a, b);
      } else {
        InInsert(x, sorted[1..], before, b);
      }
    }
  }

  /** Equals keep their order. */
  lemma {:induction false} SortIsStable(xs: seq<Sample>, before: Order, a: Sample, b: Sample)
    requires IsTotal(before) && Earlier(SortBy(xs, before), a, b) && before(b, a)
    ensures Earlier(xs, a, b)
  {
    hide Earlier, IsTotal, IsSorted, Insert;
    if xs == [] {
      NothingEarlier(a, b);
    } else {
      var rest := SortBy(xs[1..], before);
      SortIs(xs[1..], before);
      InsertStable(xs[0], rest, before, a, b);
      assert xs == [xs[0]] + xs[1..];
      EarlierBehind(xs[0], xs[1..], a, b);
      if Earlier(rest, a, b) {
        SortIsStable(xs[1..], before, a, b);
      } else {
        assert b in rest <==> b in multiset(rest);
        assert b in xs[1..] <==> b in multiset(xs[1..]);
      }
    }
  }

  lemma {:induction false} NothingEarlier(a: Sample, b: Sample)
    ensures !Earlier([], a, b)
  {
  }

  lemma {:induction false} EmptySorted(before: Order)
    ensures IsSorted([], before)
  {
  }

  // ----- lists of samples

  /** Newest first; the later row first among equals. */
  function Newest(): Order {
    (a: Sample, b: Sample) => a.updatedAt > b.updatedAt || (a.updatedAt == b.updatedAt && a.id >= b.id)
  }

  function OfVerified(): Sample -> bool {
    (s: Sample) => s.state == Verified
  }

  function OfEligible(): Sample -> bool {
    (s: Sample) => IsEligible(s)
  }

  function Listing(rows: seq<Sample>): seq<Sample> {
    SortBy(rows, Newest())
  }

  function Where(xs: seq<Sample>, p: Sample -> bool): seq<Sample> {
    if xs == [] then [] else (if p(xs[0]) then [xs[0]] else []) + Where(xs[1..], p)
  }

  function VerifiedSamples(rows: seq<Sample>): seq<Sample> {
    Where(Listing(rows), OfVerified())
  }

  predicate IsEligible(s: Sample) {
    IsAutoVerified(s) && s.rowStatus == Active
  }

  /** Lowest score first, then least recently changed. */
  function ByScore(score: Score, now: real): Order {
    (a: Sample, b: Sample) => score(a, now) < score(b, now) || (score(a, now) == score(b, now) && a.updatedAt <= b.updatedAt)
  }

  function Eligible(rows: seq<Sample>, score: Score, now: real): seq<Sample> {
    SortBy(Where(VerifiedSamples(rows), OfEligible()), ByScore(score, now))
  }

  function Excess(rows: seq<Sample>, limit: nat): nat {
    if |VerifiedSamples(rows)| > limit then |VerifiedSamples(rows)| - limit else 0
  }

  function Victims(rows: seq<Sample>, limit: nat, score: Score, now: real): seq<Sample> {
    var eligible := Eligible(rows, score, now);
    if Excess(rows, limit) <= |eligible| then eligible[..Excess(rows, limit)] else eligible
  }

  const DAY := 86400.0

  predicate IsCold(s: Sample, now: real) {
    s.usage.lastInjectedAt.Some? && s.usage.lastInjectedAt.value < now - 90.0 * DAY
  }

  predicate IsAbandoned(s: Sample, now: real, failed: PlanFailed) {
    s.state == Candidate && s.updatedAt < now - 30.0 * DAY && s.planId != "" && failed(s.planId)
  }

  /** Why a listed sample is archived, if it is. */
  function ColdReason(s: Sample, now: real, failed: PlanFailed): Option<string> {
    if s.state == Rejected || s.state == Archived || IsUserVerified(s) then None
    else if IsCold(s, now) then Some("cold")
    else if IsAbandoned(s, now, failed) then Some("abandoned")
    else None
  }

  function ForCapacity(): Sample -> Option<string> {
    (s: Sample) => Some("capacity")
  }

  function ForCold(now: real, failed: PlanFailed): Sample -> Option<string> {
    (s: Sample) => ColdReason(s, now, failed)
  }

  // ----- archiving one after the other

  datatype Progress = Progress(rows: seq<Sample>, actions: seq<(int, string)>, errors: nat)

  /** The program looks the sample up again; a refusal is counted, not raised. */
  function ArchiveStep(p: Progress, id: int, reason: string, clock: Clock): Progress {
    match Find(p.rows, id)
    case None => p.(errors := p.errors + 1)
    case Some(s) =>
      match ArchivedFor(s, reason, "system", clock(|p.actions|))
      case None => p.(errors := p.errors + 1)
      case Some(t) => Progress(Store(p.rows, t), p.actions + [(id, reason)], p.errors)
  }

  function Reasoned(xs: seq<Sample>, why: Sample -> Option<string>): seq<(int, string)> {
    if xs == [] then []
    else (if why(xs[0]).Some? then [(xs[0].id, why(xs[0]).value)] else []) + Reasoned(xs[1..], why)
  }

  function ArchiveEach(p: Progress, list: seq<(int, string)>, clock: Clock): Progress {
    if list == [] then p
    else ArchiveStep(ArchiveEach(p, list[..|list| - 1], clock), list[|list| - 1].0, list[|list| - 1].1, clock)
  }

  function CapacityList(rows: seq<Sample>, limit: nat, score: Score, now: real): seq<(int, string)> {
    Reasoned(Victims(rows, limit, score, now), ForCapacity())
  }

  function ColdList(rows: seq<Sample>, now: real, failed: PlanFailed): seq<(int, string)> {
    Reasoned(Listing(rows), ForCold(now, failed))
  }

  function Governed(rows: seq<Sample>, limit: nat, score: Score, failed: PlanFailed, now: real, clock: Clock): Progress {
    var first := ArchiveEach(Progress(rows, [], 0), CapacityList(rows, limit, score, now), clock);
    ArchiveEach(first, ColdList(first.rows, now, failed), clock)
  }

  // ----- rows and lists

  ghost predicate DistinctRows(rows: seq<Sample>) {
    forall i, j :: 0 <= i < j < |rows| ==> rows[i].id != rows[j].id
  }

  lemma {:induction false} InListing(rows: seq<Sample>, s: Sample)
    ensures s in Listing(rows) <==> s in rows
    ensures |Listing(rows)| == |rows|
  {
    hide SortBy;
    var before := Newest();
    SortIs(rows, before);
    assert s in Listing(rows) <==> s in multiset(Listing(rows));
    assert s in rows <==> s in multiset(rows);
    assert |multiset(Listing(rows))| == |multiset(rows)|;
  }

  lemma {:induction false} InWhere(xs: seq<Sample>, p: Sample -> bool, s: Sample)
    ensures s in Where(xs, p) <==> s in xs && p(s)
  {
    if xs == [] {
    } else {
      InWhere(xs[1..], p, s);
      assert s in xs <==> s == xs[0] || s in xs[1..];
    }
  }

  lemma {:induction false} InVerified(rows: seq<Sample>, s: Sample)
    ensures s in VerifiedSamples(rows) <==> s in rows && s.state == Verified
  {
    hide Listing, Where;
    InListing(rows, s);
    InWhere(Listing(rows), OfVerified(), s);
  }

  lemma {:induction false} InEligible(rows: seq<Sample>, score: Score, now: real, s: Sample)
    ensures s in Eligible(rows, score, now) <==> s in rows && IsEligible(s)
  {
    hide VerifiedSamples, Where, SortBy, ByScore;
    var chosen := Where(VerifiedSamples(rows), OfEligible());
    SortIs(chosen, ByScore(score, now));
    InWhere(VerifiedSamples(rows), OfEligible(), s);
    InVerified(rows, s);
    assert s in Eligible(rows, score, now) <==> s in multiset(SortBy(chosen, ByScore(score, now)));
    assert s in chosen <==> s in multiset(chosen);
  }

  // ----- distinct rows

  lemma {:induction false} OnceEach(xs: seq<Sample>, x: Sample)
    requires DistinctRows(xs)
    ensures multiset(xs)[x] <= 1
  {
    if xs == [] {
    } else {
      DistinctTail(xs);
      OnceEach(xs[1..], x);
      assert xs == [xs[0]] + xs[1..];
      assert xs[0] !in xs[1..];
      assert xs[0] !in multiset(xs[1..]);
    }
  }

  lemma {:induction false} DistinctTail(xs: seq<Sample>)
    requires DistinctRows(xs) && xs != []
    ensures DistinctRows(xs[1..]) && forall k :: 0 <= k < |xs[1..]| ==> xs[1..][k].id != xs[0].id
  {
    assert forall k :: 0 <= k < |xs[1..]| ==> xs[1..][k] == xs[k + 1];
  }

  lemma {:induction false} TwiceIn(xs: seq<Sample>, i: nat, j: nat)
    requires i < j < |xs| && xs[i] == xs[j]
    ensures multiset(xs)[xs[i]] >= 2
  {
    assert xs == xs[..j] + ([xs[j]] + xs[j + 1..]);
    assert xs[..j][i] == xs[i];
    assert xs[i] in multiset(xs[..j]);
  }

  /** Sorting keeps rows distinct. */
  lemma {:induction false} SortDistinct(xs: seq<Sample>, before: Order)
    requires DistinctRows(xs)
    ensures DistinctRows(SortBy(xs, before))
  {
    hide SortBy;
    var ys := SortBy(xs, before);
    SortIs(xs, before);
    forall i, j | 0 <= i < j < |ys|
      ensures ys[i].id != ys[j].id
    {
      assert ys[i] in multiset(ys) && ys[j] in multiset(ys);
      assert ys[i] in xs && ys[j] in xs;
      OnceEach(xs, ys[i]);
      if ys[i] == ys[j] {
        TwiceIn(ys, i, j);
      }
    }
  }

  lemma {:induction false} WhereDistinct(xs: seq<Sample>, p: Sample -> bool)
    requires DistinctRows(xs)
    ensures DistinctRows(Where(xs, p))
  {
    if xs == [] {
    } else {
      DistinctTail(xs);
      WhereDistinct(xs[1..], p);
      var rest := Where(xs[1..], p);
      forall k | 0 <= k < |rest|
        ensures rest[k].id != xs[0].id
      {
        InWhere(xs[1..], p, rest[k]);
      }
    }
  }

  lemma {:induction false} VerifiedDistinct(rows: seq<Sample>)
    requires DistinctRows(rows)
    ensures DistinctRows(Listing(rows)) && DistinctRows(VerifiedSamples(rows))
  {
    hide SortBy, Where;
    SortDistinct(rows, Newest());
    WhereDistinct(Listing(rows), OfVerified());
  }

  lemma {:induction false} EligibleDistinct(rows: seq<Sample>, score: Score, now: real)
    requires DistinctRows(rows)
    ensures DistinctRows(Eligible(rows, score, now))
  {
    hide SortBy, Where, VerifiedSamples;
    VerifiedDistinct(rows);
    WhereDistinct(VerifiedSamples(rows), OfEligible());
    SortDistinct(Where(VerifiedSamples(rows), OfEligible()), ByScore(score, now));
  }

  lemma {:induction false} VictimsDistinct(rows: seq<Sample>, limit: nat, score: Score, now: real)
    requires DistinctRows(rows)
    ensures DistinctRows(Victims(rows, limit, score, now))
  {
    hide Eligible, VerifiedSamples;
    EligibleDistinct(rows, score, now);
  }

  // ----- capacity

  lemma {:induction false} ByScoreTotal(score: Score, now: real)
    ensures IsTotal(ByScore(score, now))
  {
  }

  lemma {:induction false} EligibleSorted(rows: seq<Sample>, score: Score, now: real)
    ensures IsSorted(Eligible(rows, score, now), ByScore(score, now))
  {
    hide VerifiedSamples, Where, SortBy, ByScore, IsTotal;
    ByScoreTotal(score, now);
    SortIs(Where(VerifiedSamples(rows), OfEligible()), ByScore(score, now));
  }

  lemma {:induction false} NewestTotal()
    ensures IsTotal(Newest())
  {
  }

  /** The listing has the newest change first, and the later row first among equals. */
  lemma {:induction false} ListingIsNewestFirst(rows: seq<Sample>, a: Sample, b: Sample)
    requires DistinctRows(rows) && Earlier(Listing(rows), a, b)
    ensures a.updatedAt > b.updatedAt || (a.updatedAt == b.updatedAt && a.id > b.id)
  {
    hide SortBy, IsTotal;
    NewestTotal();
    SortIs(rows, Newest());
    SortDistinct(rows, Newest());
    var i, j :| 0 <= i < j < |Listing(rows)| && Listing(rows)[i] == a && Listing(rows)[j] == b;
    assert Newest()(a, b);
  }

  lemma {:induction false} WhereKeepsOrder(xs: seq<Sample>, p: Sample -> bool, a: Sample, b: Sample)
    requires Earlier(Where(xs, p), a, b)
    ensures Earlier(xs, a, b)
  {
    hide Earlier;
    if xs == [] {
      NothingEarlier(a, b);
    } else {
      assert xs == [xs[0]] + xs[1..];
      EarlierBehind(xs[0], xs[1..], a, b);
      var rest := Where(xs[1..], p);
      if p(xs[0]) {
        EarlierBehind(xs[0], rest, a, b);
        InWhere(xs[1..], p, b);
      } else {
        assert [] + rest == rest;
      }
      if Earlier(rest, a, b) {
        WhereKeepsOrder(xs[1..], p, a, b);
      }
    }
  }

  /** Goes first: the lower score, then the older change, then the later row. */
  predicate GoesFirst(a: Sample, b: Sample, score: Score, now: real) {
    || score(a, now) < score(b, now)
    || (score(a, now) == score(b, now) && (a.updatedAt < b.updatedAt || (a.updatedAt == b.updatedAt && a.id > b.id)))
  }

  lemma {:induction false} EligibleInOrder(rows: seq<Sample>, score: Score, now: real, a: Sample, b: Sample)
    requires DistinctRows(rows) && Earlier(Eligible(rows, score, now), a, b)
    ensures GoesFirst(a, b, score, now)
  {
    hide SortBy, Where, IsTotal, Listing;
    var chosen := Where(VerifiedSamples(rows), OfEligible());
    ByScoreTotal(score, now);
    SortIs(chosen, ByScore(score, now));
    var i, j :| 0 <= i < j < |Eligible(rows, score, now)| && Eligible(rows, score, now)[i] == a && Eligible(rows, score, now)[j] == b;
    assert ByScore(score, now)(a, b);
    if ByScore(score, now)(b, a) {
      SortIsStable(chosen, ByScore(score, now), a, b);
      WhereKeepsOrder(VerifiedSamples(rows), OfEligible(), a, b);
      WhereKeepsOrder(Listing(rows), OfVerified(), a, b);
      ListingIsNewestFirst(rows, a, b);
    }
  }

  /** Capacity takes exactly as many samples as are too many, or all there are to take; they are
      automatically verified ones, and none that stays has a lower score. */
  lemma {:induction false} CapacityIsExact(rows: seq<Sample>, limit: nat, score: Score, now: real)
    ensures var victims := Victims(rows, limit, score, now);
      && |victims| == (if Excess(rows, limit) <= |Eligible(rows, score, now)| then Excess(rows, limit) else |Eligible(rows, score, now)|)
      && (forall x :: x in victims ==> x in rows && IsEligible(x))
      && (forall x, e :: x in victims && e in rows && IsEligible(e) && e !in victims ==> ByScore(score, now)(x, e))
  {
    hide Eligible, VerifiedSamples, ByScore;
    var all, victims := Eligible(rows, score, now), Victims(rows, limit, score, now);
    EligibleSorted(rows, score, now);
    forall x | x in victims
      ensures x in rows && IsEligible(x)
    {
      InEligible(rows, score, now, x);
    }
    forall x, e | x in victims && e in rows && IsEligible(e) && e !in victims
      ensures ByScore(score, now)(x, e)
    {
      InEligible(rows, score, now, e);
      var j :| 0 <= j < |all| && all[j] == e;
      var i :| 0 <= i < |victims| && victims[i] == x;
      assert j >= |victims|;
      assert all[i] == x;
    }
  }

  // ----- archiving

  ghost predicate DistinctFirst(list: seq<(int, string)>) {
    forall i, j :: 0 <= i < j < |list| ==> list[i].0 != list[j].0
  }

  ghost predicate Listed(list: seq<(int, string)>, id: int) {
    exists k :: 0 <= k < |list| && list[k].0 == id
  }

  predicate IsArchivable(s: Sample) {
    s.state != Rejected && s.state != Archived && !IsUserVerified(s)
  }

  predicate IsReason(reason: string) {
    reason == "capacity" || reason == "cold" || reason == "abandoned"
  }

  /** The row after the system has archived it. */
  function ArchivedRow(s: Sample, now: real): Sample {
    s.(state := Archived, verifyKind := None, staleReason := None, rejectedBy := None, rowStatus := Cancelled, lastActor := "system",
       updatedAt := now)
  }

  /** `t` is the archived `s`. */
  predicate IsArchive(s: Sample, t: Sample) {
    t == ArchivedRow(s, t.updatedAt)
  }

  ghost predicate HasArchivable(rows: seq<Sample>, id: int) {
    exists i :: 0 <= i < |rows| && rows[i].id == id && IsArchivable(rows[i])
  }

  ghost predicate AllArchivable(rows: seq<Sample>, list: seq<(int, string)>) {
    forall k :: 0 <= k < |list| ==> IsReason(list[k].1) && HasArchivable(rows, list[k].0)
  }

  /** Exactly the listed rows are archived. */
  ghost predicate Archives(rows: seq<Sample>, list: seq<(int, string)>, after: seq<Sample>) {
    && |after| == |rows|
    && forall k :: 0 <= k < |rows| ==>
         if Listed(list, rows[k].id) then IsArchive(rows[k], after[k]) else after[k] == rows[k]
  }

  lemma {:induction false} ReasonsStrip()
    ensures Strip("capacity") == "capacity" && Strip("cold") == "cold" && Strip("abandoned") == "abandoned"
    ensures Strip("system") == "system"
  {
  }

  lemma {:induction false} FindRow(rows: seq<Sample>, k: nat)
    requires DistinctRows(rows) && k < |rows|
    ensures Find(rows, rows[k].id) == Some(rows[k])
  {
    if k == 0 {
    } else {
      DistinctTail(rows);
      FindRow(rows[1..], k - 1);
    }
  }

  lemma {:induction false} StoreRow(rows: seq<Sample>, t: Sample)
    requires DistinctRows(rows)
    ensures |Store(rows, t)| == |rows|
    ensures forall k :: 0 <= k < |rows| ==> Store(rows, t)[k] == if rows[k].id == t.id then t else rows[k]
  {
    if rows == [] {
    } else {
      DistinctTail(rows);
      assert forall k :: 0 < k < |rows| ==> rows[k] == rows[1..][k - 1];
      if rows[0].id != t.id {
        StoreRow(rows[1..], t);
      }
    }
  }

  lemma {:induction false} ArchivesDistinct(rows: seq<Sample>, list: seq<(int, string)>, after: seq<Sample>)
    requires Archives(rows, list, after)
    ensures forall k :: 0 <= k < |rows| ==> after[k].id == rows[k].id
    ensures DistinctRows(rows) ==> DistinctRows(after)
  {
    hide Listed;
    forall k | 0 <= k < |rows|
      ensures after[k].id == rows[k].id
    {
    }
  }

  lemma {:induction false} ListedMore(list: seq<(int, string)>, id: int)
    requires list != []
    ensures Listed(list, id) <==> Listed(list[..|list| - 1], id) || list[|list| - 1].0 == id
  {
    var n := |list| - 1;
    if Listed(list, id) {
      var k :| 0 <= k < |list| && list[k].0 == id;
      assert k < n ==> list[..n][k].0 == id;
    }
    if Listed(list[..n], id) {
      var k :| 0 <= k < n && list[..n][k].0 == id;
      assert list[k].0 == id;
    }
  }

  /** Archiving a list of different samples that may be archived never fails. */
  lemma {:induction false} ArchiveEachIs(p: Progress, list: seq<(int, string)>, clock: Clock)
    requires DistinctRows(p.rows) && DistinctFirst(list) && AllArchivable(p.rows, list)
    ensures var q := ArchiveEach(p, list, clock);
      q.errors == p.errors && q.actions == p.actions + list && Archives(p.rows, list, q.rows)
  {
    hide Find, Store, ArchivedFor, IsArchivable, Listed;
    if list == [] {
      NoneListed(p.rows);
      assert p.actions + list == p.actions;
    } else {
      var n := |list| - 1;
      ArchiveEachIs(p, list[..n], clock);
      var rest := ArchiveEach(p, list[..n], clock);
      var (id, reason) := list[n];
      assert list[n].0 == id && list[n].1 == reason && HasArchivable(p.rows, list[n].0);
      var i :| 0 <= i < |p.rows| && p.rows[i].id == id && IsArchivable(p.rows[i]);
      ArchivesDistinct(p.rows, list[..n], rest.rows);
      LastNotListed(list);
      assert rest.rows[i] == p.rows[i];
      FindRow(rest.rows, i);
      ArchivedIs(rest.rows[i], reason, clock(|rest.actions|));
      var t := ArchivedFor(rest.rows[i], reason, "system", clock(|rest.actions|)).value;
      StoreRow(rest.rows, t);
      ArchiveLast(p.rows, list, rest.rows, i, t);
      assert list[..n] + [list[n]] == list;
      assert p.actions + list[..n] + [list[n]] == p.actions + list;
    }
  }

  lemma {:induction false} NoneListed(rows: seq<Sample>)
    ensures Archives(rows, [], rows)
  {
  }

  lemma {:induction false} LastNotListed(list: seq<(int, string)>)
    requires DistinctFirst(list) && list != []
    ensures !Listed(list[..|list| - 1], list[|list| - 1].0)
  {
  }

  lemma {:induction false} ArchivedIs(s: Sample, reason: string, now: real)
    requires IsArchivable(s) && IsReason(reason)
    ensures ArchivedFor(s, reason, "system", now).Some?
    ensures IsArchive(s, ArchivedFor(s, reason, "system", now).value) && ArchivedFor(s, reason, "system", now).value.id == s.id
  {
    hide Strip;
    ReasonsStrip();
  }

  lemma {:induction false} ArchiveLast(rows: seq<Sample>, list: seq<(int, string)>, mid: seq<Sample>, i: nat, t: Sample)
    requires list != [] && DistinctRows(rows) && Archives(rows, list[..|list| - 1], mid)
    requires i < |rows| && rows[i].id == list[|list| - 1].0 && mid[i] == rows[i] && IsArchive(rows[i], t) && t.id == rows[i].id
    requires |Store(mid, t)| == |mid| && forall k :: 0 <= k < |mid| ==> Store(mid, t)[k] == if mid[k].id == t.id then t else mid[k]
    ensures Archives(rows, list, Store(mid, t))
  {
    hide Store, Listed, IsArchive;
    ArchivesDistinct(rows, list[..|list| - 1], mid) by {
      assert Archives(rows, list[..|list| - 1], mid);
    }
    forall k | 0 <= k < |rows|
      ensures if Listed(list, rows[k].id) then IsArchive(rows[k], Store(mid, t)[k]) else Store(mid, t)[k] == rows[k]
    {
      ListedMore(list, rows[k].id);
      assert k != i ==> rows[k].id != rows[i].id;
    }
  }

  // ----- one run

  lemma {:induction false} ReasonedIs(xs: seq<Sample>, why: Sample -> Option<string>, k: nat) returns (x: Sample)
    requires k < |Reasoned(xs, why)|
    ensures x in xs && x.id == Reasoned(xs, why)[k].0 && why(x) == Some(Reasoned(xs, why)[k].1)
  {
    if why(xs[0]).Some? && k == 0 {
      x := xs[0];
    } else {
      x := ReasonedIs(xs[1..], why, if why(xs[0]).Some? then k - 1 else k);
      assert x in xs[1..];
    }
  }

  lemma {:induction false} ReasonedLists(xs: seq<Sample>, why: Sample -> Option<string>, x: Sample)
    requires x in xs && why(x).Some?
    ensures Listed(Reasoned(xs, why), x.id)
  {
    var list := Reasoned(xs, why);
    if why(xs[0]).Some? && x == xs[0] {
      assert list[0].0 == x.id;
    } else {
      ReasonedLists(xs[1..], why, x);
      var k :| 0 <= k < |Reasoned(xs[1..], why)| && Reasoned(xs[1..], why)[k].0 == x.id;
      assert list[if why(xs[0]).Some? then k + 1 else k].0 == x.id;
    }
  }

  lemma {:induction false} ReasonedDistinct(xs: seq<Sample>, why: Sample -> Option<string>)
    requires DistinctRows(xs)
    ensures DistinctFirst(Reasoned(xs, why))
  {
    if xs == [] {
    } else {
      DistinctTail(xs);
      ReasonedDistinct(xs[1..], why);
      var rest := Reasoned(xs[1..], why);
      forall k | 0 <= k < |rest|
        ensures rest[k].0 != xs[0].id
      {
        var x := ReasonedIs(xs[1..], why, k);
      }
    }
  }

  lemma {:induction false} RowOf(rows: seq<Sample>, s: Sample) returns (k: nat)
    requires s in rows
    ensures k < |rows| && rows[k] == s
  {
    k :| 0 <= k < |rows| && rows[k] == s;
  }

  lemma {:induction false} CapacityArchives(rows: seq<Sample>, limit: nat, score: Score, now: real, clock: Clock)
    requires DistinctRows(rows)
    ensures var list := CapacityList(rows, limit, score, now); var p := ArchiveEach(Progress(rows, [], 0), list, clock);
      p.errors == 0 && p.actions == list && Archives(rows, list, p.rows) && AllArchivable(rows, list)
  {
    hide Victims, Reasoned, ArchiveEach, Archives;
    var victims := Victims(rows, limit, score, now);
    var list := CapacityList(rows, limit, score, now);
    VictimsDistinct(rows, limit, score, now);
    ReasonedDistinct(victims, ForCapacity());
    CapacityIsExact(rows, limit, score, now);
    forall k | 0 <= k < |list|
      ensures IsReason(list[k].1) && HasArchivable(rows, list[k].0)
    {
      var x := ReasonedIs(victims, ForCapacity(), k);
      var i := RowOf(rows, x);
      assert rows[i].id == list[k].0 && IsArchivable(rows[i]);
    }
    ArchiveEachIs(Progress(rows, [], 0), list, clock);
  }

  lemma {:induction false} ColdArchives(p: Progress, now: real, failed: PlanFailed, clock: Clock)
    requires DistinctRows(p.rows)
    ensures var list := ColdList(p.rows, now, failed); var q := ArchiveEach(p, list, clock);
      q.errors == p.errors && q.actions == p.actions + list && Archives(p.rows, list, q.rows) && AllArchivable(p.rows, list)
  {
    hide Listing, Reasoned, ArchiveEach, Archives, IsCold, IsAbandoned;
    var list := ColdList(p.rows, now, failed);
    VerifiedDistinct(p.rows);
    ReasonedDistinct(Listing(p.rows), ForCold(now, failed));
    forall k | 0 <= k < |list|
      ensures IsReason(list[k].1) && HasArchivable(p.rows, list[k].0)
    {
      var x := ReasonedIs(Listing(p.rows), ForCold(now, failed), k);
      InListing(p.rows, x);
      var i := RowOf(p.rows, x);
      assert p.rows[i].id == list[k].0 && IsArchivable(p.rows[i]);
    }
    ArchiveEachIs(p, list, clock);
  }

  lemma {:induction false} ListedJoin(a: seq<(int, string)>, b: seq<(int, string)>, id: int)
    ensures Listed(a + b, id) <==> Listed(a, id) || Listed(b, id)
  {
    if Listed(a + b, id) {
      var k :| 0 <= k < |a + b| && (a + b)[k].0 == id;
      assert if k < |a| then a[k].0 == id else b[k - |a|].0 == id;
    }
    if Listed(a, id) {
      var k :| 0 <= k < |a| && a[k].0 == id;
      assert (a + b)[k].0 == id;
    }
    if Listed(b, id) {
      var k :| 0 <= k < |b| && b[k].0 == id;
      assert (a + b)[|a| + k].0 == id;
    }
  }

  lemma {:induction false} ListedArchivable(rows: seq<Sample>, list: seq<(int, string)>, k: nat)
    requires DistinctRows(rows) && AllArchivable(rows, list) && k < |rows| && Listed(list, rows[k].id)
    ensures IsArchivable(rows[k])
  {
    hide IsArchivable;
    var j :| 0 <= j < |list| && list[j].0 == rows[k].id;
    assert HasArchivable(rows, list[j].0);
    var i :| 0 <= i < |rows| && rows[i].id == list[j].0 && IsArchivable(rows[i]);
    assert i == k;
  }

  lemma {:induction false} ArchivesJoin(rows: seq<Sample>, a: seq<(int, string)>, mid: seq<Sample>, b: seq<(int, string)>, after: seq<Sample>)
    requires DistinctRows(rows) && Archives(rows, a, mid) && Archives(mid, b, after) && AllArchivable(mid, b)
    ensures Archives(rows, a + b, after)
  {
    hide Listed;
    ArchivesDistinct(rows, a, mid);
    forall k | 0 <= k < |rows|
      ensures if Listed(a + b, rows[k].id) then IsArchive(rows[k], after[k]) else after[k] == rows[k]
    {
      ListedJoin(a, b, rows[k].id);
      if Listed(b, mid[k].id) {
        ListedArchivable(mid, b, k);
      }
    }
  }

  /** One run never fails. It archives exactly the samples it reports, each once, and changes no
      other row. */
  lemma {:induction false} GovernanceNeverFails(rows: seq<Sample>, limit: nat, score: Score, failed: PlanFailed, now: real, clock: Clock)
    requires DistinctRows(rows)
    ensures var q := Governed(rows, limit, score, failed, now, clock);
      q.errors == 0 && Archives(rows, q.actions, q.rows)
  {
    hide ArchiveEach, CapacityList, ColdList, Archives, AllArchivable;
    CapacityArchives(rows, limit, score, now, clock);
    var first := ArchiveEach(Progress(rows, [], 0), CapacityList(rows, limit, score, now), clock);
    ArchivesDistinct(rows, CapacityList(rows, limit, score, now), first.rows);
    ColdArchives(first, now, failed, clock);
    var q := ArchiveEach(first, ColdList(first.rows, now, failed), clock);
    ArchivesJoin(rows, CapacityList(rows, limit, score, now), first.rows, ColdList(first.rows, now, failed), q.rows);
  }

  /** What the user verified or rejected is left alone. */
  lemma {:induction false} GovernanceRespectsUser(rows: seq<Sample>, limit: nat, score: Score, failed: PlanFailed, now: real, clock: Clock, k: nat)
    requires DistinctRows(rows) && k < |rows| && IsSovereign(rows[k])
    ensures var after := Governed(rows, limit, score, failed, now, clock).rows; k < |after| && after[k] == rows[k]
  {
    hide ArchiveEach, CapacityList, ColdList, Listed;
    CapacityArchives(rows, limit, score, now, clock);
    var first := ArchiveEach(Progress(rows, [], 0), CapacityList(rows, limit, score, now), clock);
    ArchivesDistinct(rows, CapacityList(rows, limit, score, now), first.rows);
    ColdArchives(first, now, failed, clock);
    if Listed(CapacityList(rows, limit, score, now), rows[k].id) {
      ListedArchivable(rows, CapacityList(rows, limit, score, now), k);
    }
    if Listed(ColdList(first.rows, now, failed), first.rows[k].id) {
      ListedArchivable(first.rows, ColdList(first.rows, now, failed), k);
    }
  }

  // ----- the cold pass, row by row

  lemma {:induction false} InReasoned(xs: seq<Sample>, why: Sample -> Option<string>, x: Sample, reason: string)
    requires DistinctRows(xs) && x in xs
    ensures (x.id, reason) in Reasoned(xs, why) <==> why(x) == Some(reason)
  {
    var list := Reasoned(xs, why);
    var rest := Reasoned(xs[1..], why);
    DistinctTail(xs);
    assert (x.id, reason) in list <==> (why(xs[0]) == Some(reason) && x.id == xs[0].id) || (x.id, reason) in rest;
    if x == xs[0] {
      if (x.id, reason) in rest {
        var k :| 0 <= k < |rest| && rest[k] == (x.id, reason);
        var y := ReasonedIs(xs[1..], why, k);
      }
    } else {
      assert x in xs[1..];
      InReasoned(xs[1..], why, x, reason);
    }
  }

  /** The rows and actions the first pass of a run leaves. */
  function AfterCapacity(rows: seq<Sample>, limit: nat, score: Score, now: real, clock: Clock): Progress {
    ArchiveEach(Progress(rows, [], 0), CapacityList(rows, limit, score, now), clock)
  }

  /** Last injected more than ninety days ago, and neither settled nor the user's. */
  predicate HasGoneCold(s: Sample, now: real) {
    && s.state != Rejected && s.state != Archived && !(s.state == Verified && s.verifyKind == Some(User))
    && s.usage.lastInjectedAt.Some? && now - s.usage.lastInjectedAt.value > 7_776_000.0
  }

  /** A candidate of a failed plan, unchanged for more than thirty days. */
  predicate IsLeftBehind(s: Sample, now: real, failed: PlanFailed) {
    !HasGoneCold(s, now) && s.state == Candidate && now - s.updatedAt > 2_592_000.0 && s.planId != "" && failed(s.planId)
  }

  lemma {:induction false} ColdReasonIs(s: Sample, now: real, failed: PlanFailed)
    ensures ColdReason(s, now, failed) ==
      if HasGoneCold(s, now) then Some("cold") else if IsLeftBehind(s, now, failed) then Some("abandoned") else None
  {
  }

  /** The second pass archives exactly the cold and the abandoned rows that the first pass left,
      each with its reason, and leaves every other row as it was. */
  lemma {:induction false} ColdPassIsExact(rows: seq<Sample>, limit: nat, score: Score, failed: PlanFailed, now: real, clock: Clock, k: nat)
    requires DistinctRows(rows) && k < |rows|
    ensures var first := AfterCapacity(rows, limit, score, now, clock);
      var run := Governed(rows, limit, score, failed, now, clock);
      && |first.rows| == |run.rows| == |rows| && first.actions <= run.actions
      && var r := first.rows[k]; var added := run.actions[|first.actions|..];
      && r.id == rows[k].id
      && ((r.id, "cold") in added <==> HasGoneCold(r, now))
      && ((r.id, "abandoned") in added <==> IsLeftBehind(r, now, failed))
      && (forall reason :: (r.id, reason) in added ==> reason == "cold" || reason == "abandoned")
      && run.rows[k] ==
           if HasGoneCold(r, now) || IsLeftBehind(r, now, failed)
           then ArchivedRow(r, run.rows[k].updatedAt) else r
  {
    hide ArchiveEach, CapacityList, Reasoned, Listing, ColdReason, HasGoneCold, DistinctRows;
    var first := AfterCapacity(rows, limit, score, now, clock);
    CapacityArchives(rows, limit, score, now, clock);
    ArchivesDistinct(rows, CapacityList(rows, limit, score, now), first.rows);
    ColdArchives(first, now, failed, clock);
    var r, why, list := first.rows[k], ForCold(now, failed), ColdList(first.rows, now, failed);
    var added := Governed(rows, limit, score, failed, now, clock).actions[|first.actions|..];
    assert added == list;
    InListing(first.rows, r);
    VerifiedDistinct(first.rows);
    ColdReasonIs(r, now, failed);
    InReasoned(Listing(first.rows), why, r, "cold");
    InReasoned(Listing(first.rows), why, r, "abandoned");
    forall reason | (r.id, reason) in added
      ensures reason == "cold" || reason == "abandoned"
    {
      InReasoned(Listing(first.rows), why, r, reason);
    }
    ListedIff(Listing(first.rows), why, r);
  }

  lemma {:induction false} ListedIff(xs: seq<Sample>, why: Sample -> Option<string>, x: Sample)
    requires DistinctRows(xs) && x in xs
    ensures Listed(Reasoned(xs, why), x.id) <==> why(x).Some?
  {
    hide Reasoned;
    var list := Reasoned(xs, why);
    if why(x).Some? {
      ReasonedLists(xs, why, x);
    }
    if Listed(list, x.id) {
      var k :| 0 <= k < |list| && list[k].0 == x.id;
      assert list[k] == (x.id, list[k].1);
      InReasoned(xs, why, x, list[k].1);
    }
  }

  // ----- the verified pool

  ghost function VerifiedSet(rows: seq<Sample>): set<Sample> {
    set s | s in rows && s.state == Verified
  }

  lemma {:induction false} SeqAsSet(xs: seq<Sample>)
    requires DistinctRows(xs)
    ensures |set x | x in xs| == |xs|
  {
    if xs == [] {
    } else {
      DistinctTail(xs);
      SeqAsSet(xs[1..]);
      assert (set x | x in xs) == {xs[0]} + (set x | x in xs[1..]);
      assert xs[0] !in xs[1..];
    }
  }

  lemma {:induction false} PoolSize(rows: seq<Sample>)
    requires DistinctRows(rows)
    ensures |VerifiedSamples(rows)| == |VerifiedSet(rows)|
  {
    hide VerifiedSamples;
    VerifiedDistinct(rows);
    SeqAsSet(VerifiedSamples(rows));
    assert (set x | x in VerifiedSamples(rows)) == VerifiedSet(rows) by {
      forall x
        ensures x in VerifiedSamples(rows) <==> x in rows && x.state == Verified
      {
        InVerified(rows, x);
      }
    }
  }

  /** Archiving can only shrink the pool. */
  lemma {:induction false} PoolShrinks(rows: seq<Sample>, list: seq<(int, string)>, after: seq<Sample>)
    requires Archives(rows, list, after)
    ensures VerifiedSet(after) <= VerifiedSet(rows)
  {
    hide Listed;
    forall s | s in after && s.state == Verified
      ensures s in rows
    {
      var k := RowOf(after, s);
      assert after[k] == rows[k];
    }
  }

  lemma {:induction false} PoolAfterCapacity(rows: seq<Sample>, limit: nat, score: Score, now: real, after: seq<Sample>)
    requires DistinctRows(rows) && Archives(rows, CapacityList(rows, limit, score, now), after)
    ensures VerifiedSet(after) == VerifiedSet(rows) - (set x | x in Victims(rows, limit, score, now))
  {
    hide Victims, Reasoned, Listed;
    var victims := Victims(rows, limit, score, now);
    var list := CapacityList(rows, limit, score, now);
    CapacityIsExact(rows, limit, score, now);
    PoolShrinks(rows, list, after);
    forall s | s in VerifiedSet(rows)
      ensures s in VerifiedSet(after) <==> s !in victims
    {
      var k := RowOf(rows, s);
      VictimListed(rows, limit, score, now, s);
      if s in VerifiedSet(after) {
        var j := RowOf(after, s);
        assert after[j] == rows[j] && !Listed(list, rows[j].id);
      }
      if s !in victims {
        assert after[k] == rows[k];
      }
    }
  }

  lemma {:induction false} VictimListed(rows: seq<Sample>, limit: nat, score: Score, now: real, s: Sample)
    requires DistinctRows(rows) && s in rows
    ensures s in Victims(rows, limit, score, now) <==> Listed(CapacityList(rows, limit, score, now), s.id)
  {
    hide Victims, Reasoned;
    var victims := Victims(rows, limit, score, now);
    var why := ForCapacity();
    CapacityIsExact(rows, limit, score, now);
    if s in victims {
      ReasonedLists(victims, why, s);
    }
    if Listed(CapacityList(rows, limit, score, now), s.id) {
      var k :| 0 <= k < |Reasoned(victims, why)| && Reasoned(victims, why)[k].0 == s.id;
      var x := ReasonedIs(victims, why, k);
      var i := RowOf(rows, s);
      var j := RowOf(rows, x);
      assert i == j;
    }
  }

  lemma {:induction false} AllReasoned(xs: seq<Sample>)
    ensures |Reasoned(xs, ForCapacity())| == |xs|
  {
    if xs == [] {
    } else {
      AllReasoned(xs[1..]);
    }
  }

  /** The samples capacity takes are those that are no longer there as they were. */
  lemma {:induction false} TakenAreVictims(rows: seq<Sample>, limit: nat, score: Score, now: real, after: seq<Sample>, s: Sample)
    requires DistinctRows(rows) && Archives(rows, CapacityList(rows, limit, score, now), after) && s in rows
    ensures s !in after <==> s in Victims(rows, limit, score, now)
  {
    hide Victims, Reasoned, Listed;
    var k := RowOf(rows, s);
    CapacityIsExact(rows, limit, score, now);
    VictimListed(rows, limit, score, now, s);
    ArchivesDistinct(rows, CapacityList(rows, limit, score, now), after);
    if s in after {
      var j := RowOf(after, s);
      assert rows[j].id == rows[k].id;
      assert j == k;
    }
  }

  /** The first pass takes as many samples as the verified pool has too many, or all it may take:
      active automatically verified ones, and all of them go before those that stay. They are
      archived for capacity, and no other row changes. */
  lemma {:induction false} CapacityPassIsExact(rows: seq<Sample>, limit: nat, score: Score, now: real, clock: Clock)
    requires DistinctRows(rows)
    ensures var first := AfterCapacity(rows, limit, score, now, clock);
      var verified := set s | s in rows && s.state == Verified;
      var eligible := set s | s in rows && s.state == Verified && s.verifyKind == Some(Auto) && s.rowStatus == Active;
      var taken := set s | s in rows && s !in first.rows;
      && |first.rows| == |rows| && |first.actions| == |taken|
      && taken <= eligible
      && (|verified| <= limit ==> taken == {})
      && (|verified| > limit ==> |taken| == if |verified| - limit <= |eligible| then |verified| - limit else |eligible|)
      && (forall x, e :: x in taken && e in eligible && e !in taken ==> GoesFirst(x, e, score, now))
      && (forall k :: 0 <= k < |rows| ==> (rows[k] in taken <==> (rows[k].id, "capacity") in first.actions))
      && (forall k :: 0 <= k < |rows| ==>
            first.rows[k] == (if rows[k] in taken then ArchivedRow(rows[k], first.rows[k].updatedAt) else rows[k]))
  {
    hide Victims, CapacityList, ArchiveEach, DistinctRows, Archives, GoesFirst;
    var first := AfterCapacity(rows, limit, score, now, clock);
    var taken := set s | s in rows && s !in first.rows;
    CapacityArchives(rows, limit, score, now, clock);
    TakenSet(rows, limit, score, now, first.rows);
    VictimsCount(rows, limit, score, now);
    VictimsOrdered(rows, limit, score, now);
    CapacityRows(rows, limit, score, now, first.rows);
  }

  lemma {:induction false} TakenSet(rows: seq<Sample>, limit: nat, score: Score, now: real, after: seq<Sample>)
    requires DistinctRows(rows) && Archives(rows, CapacityList(rows, limit, score, now), after)
    ensures (set s | s in rows && s !in after) == (set x | x in Victims(rows, limit, score, now))
  {
    hide Victims, CapacityList, DistinctRows, Archives;
    CapacityIsExact(rows, limit, score, now);
    forall s | s in rows
      ensures s !in after <==> s in Victims(rows, limit, score, now)
    {
      TakenAreVictims(rows, limit, score, now, after, s);
    }
  }

  /** How many capacity takes. */
  lemma {:induction false} VictimsCount(rows: seq<Sample>, limit: nat, score: Score, now: real)
    requires DistinctRows(rows)
    ensures var verified := set s | s in rows && s.state == Verified;
      var eligible := set s | s in rows && s.state == Verified && s.verifyKind == Some(Auto) && s.rowStatus == Active;
      var taken := set x | x in Victims(rows, limit, score, now);
      && taken <= eligible && |CapacityList(rows, limit, score, now)| == |taken|
      && (|verified| <= limit ==> taken == {})
      && (|verified| > limit ==> |taken| == if |verified| - limit <= |eligible| then |verified| - limit else |eligible|)
  {
    hide Victims, Eligible, VerifiedSamples, Reasoned, DistinctRows;
    CapacityIsExact(rows, limit, score, now);
    VictimsDistinct(rows, limit, score, now);
    SeqAsSet(Victims(rows, limit, score, now));
    AllReasoned(Victims(rows, limit, score, now));
    PoolSize(rows);
    EligibleCount(rows, score, now);
  }

  lemma {:induction false} VictimsOrdered(rows: seq<Sample>, limit: nat, score: Score, now: real)
    requires DistinctRows(rows)
    ensures var victims := Victims(rows, limit, score, now);
      forall x, e :: x in victims && e in rows && e.state == Verified && e.verifyKind == Some(Auto) && e.rowStatus == Active && e !in victims ==>
        GoesFirst(x, e, score, now)
  {
    hide Eligible, VerifiedSamples, GoesFirst, DistinctRows;
    var all, victims := Eligible(rows, score, now), Victims(rows, limit, score, now);
    forall x, e | x in victims && e in rows && e.state == Verified && e.verifyKind == Some(Auto) && e.rowStatus == Active && e !in victims
      ensures GoesFirst(x, e, score, now)
    {
      assert IsEligible(e);
      InEligible(rows, score, now, e);
      var j :| 0 <= j < |all| && all[j] == e;
      var i :| 0 <= i < |victims| && victims[i] == x;
      assert j >= |victims| && all[i] == x;
      EligibleInOrder(rows, score, now, x, e);
    }
  }

  /** What the rows come to. */
  lemma {:induction false} CapacityRows(rows: seq<Sample>, limit: nat, score: Score, now: real, after: seq<Sample>)
    requires DistinctRows(rows) && Archives(rows, CapacityList(rows, limit, score, now), after)
    ensures |after| == |rows|
    ensures var list, taken := CapacityList(rows, limit, score, now), set x | x in Victims(rows, limit, score, now);
      forall k :: 0 <= k < |rows| ==>
        && (rows[k] in taken <==> (rows[k].id, "capacity") in list)
        && after[k] == (if rows[k] in taken then ArchivedRow(rows[k], after[k].updatedAt) else rows[k])
  {
    hide Victims, Reasoned, DistinctRows, Listed;
    var list, victims := CapacityList(rows, limit, score, now), Victims(rows, limit, score, now);
    VictimsDistinct(rows, limit, score, now);
    forall k | 0 <= k < |rows|
      ensures rows[k] in victims <==> (rows[k].id, "capacity") in list
      ensures rows[k] in victims <==> Listed(list, rows[k].id)
    {
      VictimListed(rows, limit, score, now, rows[k]);
      CapacityNamed(victims, rows[k]);
    }
  }

  /** Two listed reasons come from two elements in the same order. */
  lemma {:induction false} ReasonedOrder(xs: seq<Sample>, why: Sample -> Option<string>, i: nat, j: nat) returns (a: Sample, b: Sample)
    requires i < j < |Reasoned(xs, why)|
    ensures Earlier(xs, a, b) && a.id == Reasoned(xs, why)[i].0 && b.id == Reasoned(xs, why)[j].0
  {
    hide Earlier;
    var k := if why(xs[0]).Some? then 1 else 0;
    assert xs == [xs[0]] + xs[1..];
    if i < k {
      a := xs[0];
      b := ReasonedIs(xs[1..], why, j - k);
    } else {
      a, b := ReasonedOrder(xs[1..], why, i - k, j - k);
    }
    EarlierBehind(xs[0], xs[1..], a, b);
  }

  lemma {:induction false} PrefixEarlier(xs: seq<Sample>, n: nat, a: Sample, b: Sample)
    requires n <= |xs| && Earlier(xs[..n], a, b)
    ensures Earlier(xs, a, b)
  {
    var i, j :| 0 <= i < j < n && xs[..n][i] == a && xs[..n][j] == b;
    assert xs[i] == a && xs[j] == b;
  }

  /** The report names what capacity takes in the order in which it goes, and then the cold and
      abandoned rows with the newest change first. */
  lemma {:induction false} ReportInOrder(rows: seq<Sample>, limit: nat, score: Score, failed: PlanFailed, now: real, clock: Clock,
                                         i: nat, j: nat) returns (a: Sample, b: Sample)
    requires DistinctRows(rows) && i < j < |Governed(rows, limit, score, failed, now, clock).actions|
    requires j < |AfterCapacity(rows, limit, score, now, clock).actions| <==> i < |AfterCapacity(rows, limit, score, now, clock).actions|
    ensures var first := AfterCapacity(rows, limit, score, now, clock);
      var run := Governed(rows, limit, score, failed, now, clock);
      && a.id == run.actions[i].0 && b.id == run.actions[j].0
      && (if i < |first.actions| then a in rows && b in rows && GoesFirst(a, b, score, now)
          else a in first.rows && b in first.rows && (a.updatedAt > b.updatedAt || (a.updatedAt == b.updatedAt && a.id > b.id)))
  {
    hide ArchiveEach, CapacityList, ColdList, DistinctRows, GoesFirst, Earlier;
    var first := AfterCapacity(rows, limit, score, now, clock);
    CapacityArchives(rows, limit, score, now, clock);
    ArchivesDistinct(rows, CapacityList(rows, limit, score, now), first.rows);
    ColdArchives(first, now, failed, clock);
    var n := |first.actions|;
    if i < n {
      a, b := CapacityInOrder(rows, limit, score, now, i, j);
    } else {
      a, b := ColdInOrder(first.rows, now, failed, i - n, j - n);
    }
  }

  lemma {:induction false} CapacityInOrder(rows: seq<Sample>, limit: nat, score: Score, now: real, i: nat, j: nat) returns (a: Sample, b: Sample)
    requires DistinctRows(rows) && i < j < |CapacityList(rows, limit, score, now)|
    ensures a.id == CapacityList(rows, limit, score, now)[i].0 && b.id == CapacityList(rows, limit, score, now)[j].0
    ensures a in rows && b in rows && GoesFirst(a, b, score, now)
  {
    hide Reasoned, Eligible, VerifiedSamples, DistinctRows, GoesFirst, Earlier;
    var victims := Victims(rows, limit, score, now);
    a, b := ReasonedOrder(victims, ForCapacity(), i, j);
    assert victims == Eligible(rows, score, now)[..|victims|];
    PrefixEarlier(Eligible(rows, score, now), |victims|, a, b);
    EligibleInOrder(rows, score, now, a, b);
    EarlierIn(Eligible(rows, score, now), a, b);
    InEligible(rows, score, now, a);
    InEligible(rows, score, now, b);
  }

  lemma {:induction false} ColdInOrder(rows: seq<Sample>, now: real, failed: PlanFailed, i: nat, j: nat) returns (a: Sample, b: Sample)
    requires DistinctRows(rows) && i < j < |ColdList(rows, now, failed)|
    ensures a.id == ColdList(rows, now, failed)[i].0 && b.id == ColdList(rows, now, failed)[j].0
    ensures a in rows && b in rows && (a.updatedAt > b.updatedAt || (a.updatedAt == b.updatedAt && a.id > b.id))
  {
    hide Reasoned, Listing, DistinctRows, Earlier;
    a, b := ReasonedOrder(Listing(rows), ForCold(now, failed), i, j);
    EarlierIn(Listing(rows), a, b);
    InListing(rows, a);
    InListing(rows, b);
    ListingIsNewestFirst(rows, a, b);
  }

  lemma {:induction false} EarlierIn(xs: seq<Sample>, a: Sample, b: Sample)
    requires Earlier(xs, a, b)
    ensures a in xs && b in xs
  {
  }

  lemma {:induction false} CapacityNamed(victims: seq<Sample>, s: Sample)
    requires DistinctRows(victims)
    ensures s in victims ==> (s.id, "capacity") in Reasoned(victims, ForCapacity())
    ensures (s.id, "capacity") in Reasoned(victims, ForCapacity()) ==> Listed(Reasoned(victims, ForCapacity()), s.id)
  {
    hide Reasoned;
    var list := Reasoned(victims, ForCapacity());
    if s in victims {
      InReasoned(victims, ForCapacity(), s, "capacity");
    }
    if (s.id, "capacity") in list {
      var k :| 0 <= k < |list| && list[k] == (s.id, "capacity");
    }
  }

  lemma {:induction false} EligibleCount(rows: seq<Sample>, score: Score, now: real)
    requires DistinctRows(rows)
    ensures |Eligible(rows, score, now)| ==
      |set s | s in rows && s.state == Verified && s.verifyKind == Some(Auto) && s.rowStatus == Active|
  {
    hide Eligible;
    EligibleDistinct(rows, score, now);
    SeqAsSet(Eligible(rows, score, now));
    var eligible := set s | s in rows && s.state == Verified && s.verifyKind == Some(Auto) && s.rowStatus == Active;
    assert eligible == (set x | x in Eligible(rows, score, now)) by {
      forall x
        ensures x in Eligible(rows, score, now) <==> x in eligible
      {
        InEligible(rows, score, now, x);
      }
    }
  }

  /** After a run the pool is within its limit, or nothing in it may be taken. */
  lemma {:induction false} PoolBounded(rows: seq<Sample>, limit: nat, score: Score, failed: PlanFailed, now: real, clock: Clock)
    requires DistinctRows(rows)
    ensures var after := Governed(rows, limit, score, failed, now, clock).rows;
      |VerifiedSamples(after)| <= limit || forall s :: s in after && s.state == Verified ==> !IsEligible(s)
  {
    hide ArchiveEach, CapacityList, ColdList, VerifiedSamples, Archives, Eligible, IsEligible, DistinctRows;
    CapacityArchives(rows, limit, score, now, clock);
    var first := ArchiveEach(Progress(rows, [], 0), CapacityList(rows, limit, score, now), clock);
    ArchivesDistinct(rows, CapacityList(rows, limit, score, now), first.rows);
    ColdArchives(first, now, failed, clock);
    var after := ArchiveEach(first, ColdList(first.rows, now, failed), clock).rows;
    ArchivesDistinct(first.rows, ColdList(first.rows, now, failed), after);
    PoolAfterCapacity(rows, limit, score, now, first.rows);
    PoolShrinks(first.rows, ColdList(first.rows, now, failed), after);
    PoolSize(rows);
    PoolSize(after);
    var v, taken := VerifiedSet(rows), set x | x in Victims(rows, limit, score, now);
    VictimsSet(rows, limit, score, now);
    SubsetSize(VerifiedSet(after), v - taken);
    if Excess(rows, limit) > |Eligible(rows, score, now)| {
      forall s | s in after && s.state == Verified
        ensures !IsEligible(s)
      {
        assert s in VerifiedSet(after);
        NotTaken(rows, limit, score, now, s);
      }
    }
  }

  lemma {:induction false} NotTaken(rows: seq<Sample>, limit: nat, score: Score, now: real, s: Sample)
    requires Excess(rows, limit) > |Eligible(rows, score, now)| && s in rows && s !in Victims(rows, limit, score, now)
    ensures !IsEligible(s)
  {
    hide Eligible, IsEligible, VerifiedSamples;
    InEligible(rows, score, now, s);
  }

  lemma {:induction false} SubsetSize(a: set<Sample>, b: set<Sample>)
    requires a <= b
    ensures |a| <= |b|
  {
    assert b == a + (b - a);
  }

  lemma {:induction false} VictimsSet(rows: seq<Sample>, limit: nat, score: Score, now: real)
    requires DistinctRows(rows)
    ensures var taken := set x | x in Victims(rows, limit, score, now);
      taken <= VerifiedSet(rows) && |taken| == |Victims(rows, limit, score, now)|
      && |VerifiedSet(rows) - taken| == |VerifiedSet(rows)| - |taken|
  {
    hide Victims;
    CapacityIsExact(rows, limit, score, now);
    VictimsDistinct(rows, limit, score, now);
    SeqAsSet(Victims(rows, limit, score, now));
    var taken := set x | x in Victims(rows, limit, score, now);
    assert VerifiedSet(rows) == taken + (VerifiedSet(rows) - taken);
  }

  /** With consistent records, nothing may be taken means that all verified samples are the
      user's. */
  lemma {:induction false} NothingToTakeIsUsers(lib: Library, s: Sample)
    requires AllConsistent(lib) && s in lib.rows && s.state == Verified
    ensures !IsEligible(s) <==> IsUserVerified(s)
  {
    var k := RowOf(lib.rows, s);
    assert IsConsistent(lib.rows[k]);
    match s.verifyKind
    case None =>
    case Some(User) =>
    case Some(Auto) =>
  }

  // ----- a second run

  lemma {:induction false} NothingReasoned(xs: seq<Sample>, why: Sample -> Option<string>)
    requires forall x :: x in xs ==> why(x).None?
    ensures Reasoned(xs, why) == []
  {
    if xs == [] {
    } else {
      assert forall x :: x in xs[1..] ==> x in xs;
      NothingReasoned(xs[1..], why);
    }
  }

  lemma {:induction false} NoMoreCold(rows: seq<Sample>, now: real, failed: PlanFailed, after: seq<Sample>)
    requires DistinctRows(rows) && Archives(rows, ColdList(rows, now, failed), after)
    ensures ColdList(after, now, failed) == []
  {
    hide Listing, Listed, Reasoned, IsCold, IsAbandoned;
    var why := ForCold(now, failed);
    forall x | x in Listing(after)
      ensures why(x).None?
    {
      InListing(after, x);
      var k := RowOf(after, x);
      if why(rows[k]).Some? {
        InListing(rows, rows[k]);
        ReasonedLists(Listing(rows), why, rows[k]);
        assert IsArchive(rows[k], after[k]);
      }
    }
    NothingReasoned(Listing(after), why);
  }

  lemma {:induction false} NoMoreCapacity(rows: seq<Sample>, limit: nat, score: Score, failed: PlanFailed, now: real, clock: Clock)
    requires DistinctRows(rows)
    ensures CapacityList(Governed(rows, limit, score, failed, now, clock).rows, limit, score, now) == []
  {
    hide Governed, VerifiedSamples, Eligible, IsEligible;
    var after := Governed(rows, limit, score, failed, now, clock).rows;
    PoolBounded(rows, limit, score, failed, now, clock);
    if Excess(after, limit) > 0 {
      if Eligible(after, score, now) != [] {
        var e := Eligible(after, score, now)[0];
        InEligible(after, score, now, e);
        EligibleVerified(e);
      }
    }
  }

  lemma {:induction false} EligibleVerified(s: Sample)
    ensures IsEligible(s) ==> s.state == Verified
  {
  }

  /** A second run at the same time does nothing. */
  lemma {:induction false} GovernanceIsIdempotent(rows: seq<Sample>, limit: nat, score: Score, failed: PlanFailed,
    now: real, clock: Clock, later: Clock)
    requires DistinctRows(rows)
    ensures var after := Governed(rows, limit, score, failed, now, clock).rows;
      Governed(after, limit, score, failed, now, later) == Progress(after, [], 0)
  {
    hide CapacityList, ColdList, Archives;
    CapacityArchives(rows, limit, score, now, clock);
    var first := ArchiveEach(Progress(rows, [], 0), CapacityList(rows, limit, score, now), clock);
    ArchivesDistinct(rows, CapacityList(rows, limit, score, now), first.rows);
    ColdArchives(first, now, failed, clock);
    var after := Governed(rows, limit, score, failed, now, clock).rows;
    NoMoreCold(first.rows, now, failed, after);
    NoMoreCapacity(rows, limit, score, failed, now, clock);
  }

  // ----- a run among the other operations

  function ArchiveEvents(list: seq<(int, string)>, from: nat, clock: Clock): seq<Event> {
    if list == [] then []
    else
      var n := |list| - 1;
      ArchiveEvents(list[..n], from, clock) + [Event(Archive(list[n].0, list[n].1, "system"), clock(from + n))]
  }

  lemma {:induction false} ArchiveEventsAre(list: seq<(int, string)>, from: nat, clock: Clock)
    ensures |ArchiveEvents(list, from, clock)| == |list|
    ensures forall k :: 0 <= k < |list| ==> ArchiveEvents(list, from, clock)[k].op.Archive?
  {
    if list == [] {
    } else {
      ArchiveEventsAre(list[..|list| - 1], from, clock);
    }
  }

  lemma {:induction false} StepIsOperation(p: Progress, nextId: int, id: int, reason: string, clock: Clock)
    ensures Apply(Library(p.rows, nextId), Archive(id, reason, "system"), clock(|p.actions|)) ==
            Library(ArchiveStep(p, id, reason, clock).rows, nextId)
  {
    hide ArchivedFor, Strip, Find, Store;
  }

  /** Archiving a list is a sequence of archive operations of the system. */
  lemma {:induction false} ArchivingIsOperations(p: Progress, nextId: int, list: seq<(int, string)>, clock: Clock)
    requires DistinctRows(p.rows) && DistinctFirst(list) && AllArchivable(p.rows, list)
    ensures ApplyAll(Library(p.rows, nextId), ArchiveEvents(list, |p.actions|, clock)) == Library(ArchiveEach(p, list, clock).rows, nextId)
  {
    hide Apply, ArchiveStep, Archives, IsArchivable, IsReason;
    if list == [] {
    } else {
      var n := |list| - 1;
      var before := ArchiveEach(p, list[..n], clock);
      ArchivingIsOperations(p, nextId, list[..n], clock);
      ArchiveEachIs(p, list[..n], clock);
      StepIsOperation(before, nextId, list[n].0, list[n].1, clock);
      var events := ArchiveEvents(list, |p.actions|, clock);
      ArchiveEventsAre(list[..n], |p.actions|, clock);
      assert events[..|events| - 1] == ArchiveEvents(list[..n], |p.actions|, clock);
    }
  }

  // ----- reachable libraries

  lemma {:induction false} OrderedIsDistinct(lib: Library)
    requires Ordered(lib)
    ensures DistinctRows(lib.rows)
  {
    forall i, j | 0 <= i < j < |lib.rows|
      ensures lib.rows[i].id != lib.rows[j].id
    {
      assert lib.rows[i].id < lib.rows[j].id;
    }
  }

  lemma {:induction false} ArchivesConsistent(lib: Library, list: seq<(int, string)>, after: seq<Sample>)
    requires AllConsistent(lib) && Archives(lib.rows, list, after)
    ensures AllConsistent(Library(after, lib.nextId))
  {
    hide Listed;
    forall k | 0 <= k < |after|
      ensures IsConsistent(after[k])
    {
      assert IsConsistent(lib.rows[k]);
    }
  }

  /** What one run of governance comes to in every library that any operations have led to: it
      never fails and reports what it archives, leaves the verified pool within its limit or made
      of user-verified samples only, keeps every row the user decided on, keeps the marks, and a
      second run at the same time does nothing. */
  lemma {:induction false} ReachableGovernance(events: seq<Event>, limit: nat, score: Score, failed: PlanFailed,
    now: real, clock: Clock, later: Clock)
    ensures var lib := ApplyAll(Library([], 1), events);
      var run := Governed(lib.rows, limit, score, failed, now, clock);
      && run.errors == 0 && Archives(lib.rows, run.actions, run.rows)
      && (|VerifiedSamples(run.rows)| <= limit || forall s :: s in run.rows && s.state == Verified ==> IsUserVerified(s))
      && (forall k :: 0 <= k < |lib.rows| && IsSovereign(lib.rows[k]) ==> run.rows[k] == lib.rows[k])
      && AllConsistent(Library(run.rows, lib.nextId))
      && Governed(run.rows, limit, score, failed, now, later) == Progress(run.rows, [], 0)
  {
    hide Governed, AllConsistent, VerifiedSamples, Ordered, DistinctRows, IsSovereign, IsEligible, Listed, ApplyAll;
    var lib := ApplyAll(Library([], 1), events);
    RowsStayOrdered(events);
    RecordsStayConsistent(events);
    OrderedIsDistinct(lib);
    var run := Governed(lib.rows, limit, score, failed, now, clock);
    GovernanceNeverFails(lib.rows, limit, score, failed, now, clock);
    ArchivesConsistent(lib, run.actions, run.rows);
    PoolBounded(lib.rows, limit, score, failed, now, clock);
    forall s | s in run.rows && s.state == Verified
      ensures !IsEligible(s) <==> IsUserVerified(s)
    {
      NothingToTakeIsUsers(Library(run.rows, lib.nextId), s);
    }
    forall k | 0 <= k < |lib.rows| && IsSovereign(lib.rows[k])
      ensures run.rows[k] == lib.rows[k]
    {
      GovernanceRespectsUser(lib.rows, limit, score, failed, now, clock, k);
    }
    GovernanceIsIdempotent(lib.rows, limit, score, failed, now, clock, later);
  }
}
