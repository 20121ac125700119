/** One decomposition sample and the transitions its lifecycle allows.

    A transition gives the new record, or `None` where the program raises. */
module SampleRecord {
  datatype Option<+T> = None | Some(value: T)

  datatype SampleState = Candidate | Verified | Stale | Rejected | Archived

  datatype VerifyKind = User | Auto

  /** The status column of the row. */
  datatype RowStatus = Active | Cancelled

  datatype Usage = Usage(
    injectedCount: nat,
    lastInjectedAt: Option<real>,
    similaritySum: real,
    similarityCount: nat,
    planCompleted: nat,
    planFailed: nat,
    consecutiveFailures: nat)

  /** Task description and serialized steps; what they say does not matter here. */
  datatype Content = Content(description: string, steps: seq<string>)

  datatype Sample = Sample(
    id: int,
    content: Content,
    state: SampleState,
    verifyKind: Option<VerifyKind>,
    source: string,
    planId: string,
    usage: Usage,
    version: nat,
    rowStatus: RowStatus,
    staleReason: Option<string>,
    rejectedBy: Option<string>,
    lastActor: string,
    updatedAt: real)

  const EMPTY_USAGE := Usage(0, None, 0.0, 0, 0, 0, 0)

  // ----- texts

  /** White space as `str.strip` takes it. */
  predicate IsSpace(c: char) {
    var n := c as int;
    || 0x09 <= n <= 0x0D || 0x1C <= n <= 0x20 || n == 0x85 || n == 0xA0 || n == 0x1680 || 0x2000 <= n <= 0x200A
    || n == 0x2028 || n == 0x2029 || n == 0x202F || n == 0x205F || n == 0x3000
  }

  function StripLeft(s: string): string {
    if s != "" && IsSpace(s[0]) then StripLeft(s[1..]) else s
  }

  function StripRight(s: string): string {
    if s != "" && IsSpace(s[|s| - 1]) then StripRight(s[..|s| - 1]) else s
  }

  function Strip(s: string): string {
    StripRight(StripLeft(s))
  }

  /** The characters `str.strip` takes off. */
  function WhiteSpace(): string {
    "\t\n\U{0B}\U{0C}\r\U{1C}\U{1D}\U{1E}\U{1F} \U{85}\U{A0}\U{1680}\U{2000}\U{2001}\U{2002}\U{2003}\U{2004}\U{2005}"
    + "\U{2006}\U{2007}\U{2008}\U{2009}\U{200A}\U{2028}\U{2029}\U{202F}\U{205F}\U{3000}"
  }

  predicate IsBlank(s: string) {
    forall k :: 0 <= k < |s| ==> s[k] in WhiteSpace()
  }

  predicate HasBareEnds(t: string) {
    t != "" ==> t[0] !in WhiteSpace() && t[|t| - 1] !in WhiteSpace()
  }

  /** `s` is `t` between two runs of white space, and `t` has none at its own ends. */
  ghost predicate Trims(s: string, t: string) {
    HasBareEnds(t) && exists before: string, after: string :: IsBlank(before) && IsBlank(after) && s == before + t + after
  }

  lemma {:induction false} SpacesAre(c: char)
    ensures IsSpace(c) <==> c in WhiteSpace()
  {
  }

  lemma {:induction false} StripLeftIs(s: string) returns (before: string)
    ensures IsBlank(before) && s == before + StripLeft(s)
    ensures StripLeft(s) != "" ==> StripLeft(s)[0] !in WhiteSpace()
  {
    hide IsSpace, WhiteSpace;
    before := "";
    if s != "" {
      SpacesAre(s[0]);
      if IsSpace(s[0]) {
        var rest := StripLeftIs(s[1..]);
        before := [s[0]] + rest;
      }
    }
  }

  lemma {:induction false} StripRightIs(s: string) returns (after: string)
    ensures IsBlank(after) && s == StripRight(s) + after
    ensures StripRight(s) != "" ==> StripRight(s)[|StripRight(s)| - 1] !in WhiteSpace()
  {
    hide IsSpace, WhiteSpace;
    after := "";
    if s != "" {
      SpacesAre(s[|s| - 1]);
      if IsSpace(s[|s| - 1]) {
        var rest := StripRightIs(s[..|s| - 1]);
        after := rest + [s[|s| - 1]];
      }
    }
  }

  /** What stripping leaves, and that nothing else is left so. */
  lemma {:induction false} StripIs(s: string, t: string)
    ensures t == Strip(s) <==> Trims(s, t)
  {
    hide StripLeft, StripRight, WhiteSpace;
    var u := Strip(s);
    var before := StripLeftIs(s);
    var after := StripRightIs(StripLeft(s));
    assert u != "" ==> StripLeft(s)[0] == u[0];
    assert s == before + u + after;
    assert Trims(s, u);
    if Trims(s, t) {
      var b, a: string :| IsBlank(b) && IsBlank(a) && s == b + t + a;
      SameTrim(s, before, u, after, b, t, a);
    }
  }

  /** Around a trim there is only white space. */
  lemma {:induction false} Around(s: string, before: string, t: string, after: string, k: nat)
    requires s == before + t + after && IsBlank(before) && IsBlank(after) && k < |s|
    ensures |before| <= k < |before| + |t| || s[k] in WhiteSpace()
  {
    hide WhiteSpace;
    if k < |before| {
      assert s[k] == before[k];
    } else if k >= |before| + |t| {
      assert s[k] == after[k - |before| - |t|];
    }
  }

  lemma {:induction false} SameTrim(s: string, before: string, t: string, after: string, b: string, u: string, a: string)
    requires s == before + t + after && IsBlank(before) && IsBlank(after) && HasBareEnds(t)
    requires s == b + u + a && IsBlank(b) && IsBlank(a) && HasBareEnds(u)
    ensures t == u
  {
    hide WhiteSpace, IsBlank;
    if t != "" {
      assert s[|before|] == t[0] && s[|before| + |t| - 1] == t[|t| - 1];
      Around(s, b, u, a, |before|);
      Around(s, b, u, a, |before| + |t| - 1);
    }
    if u != "" {
      assert s[|b|] == u[0] && s[|b| + |u| - 1] == u[|u| - 1];
      Around(s, before, t, after, |b|);
      Around(s, before, t, after, |b| + |u| - 1);
    }
    assert t != "" ==> t == s[|before|..|before| + |t|];
    assert u != "" ==> u == s[|b|..|b| + |u|];
  }

  // ----- transitions

  predicate IsUserVerified(s: Sample) {
    s.state == Verified && s.verifyKind == Some(User)
  }

  predicate IsAutoVerified(s: Sample) {
    s.state == Verified && s.verifyKind == Some(Auto)
  }

  function Transition(s: Sample, target: SampleState, actor: string, reason: Option<string>, kind: Option<VerifyKind>, now: real): Sample {
    s.(state := target,
       verifyKind := if target == Verified then kind else None,
       staleReason := if target == Stale then reason else None,
       rejectedBy := if target == Rejected then Some(actor) else None,
       lastActor := actor,
       rowStatus := if target == Archived then Cancelled else Active,
       updatedAt := now)
  }

  function Confirmed(s: Sample, actor: string, now: real): Option<Sample> {
    if Strip(actor) != "user" then None
    else if IsUserVerified(s) then Some(s)
    else Some(Transition(s, Verified, actor, None, Some(User), now))
  }

  function AutoVerified(s: Sample, now: real): Option<Sample> {
    if s.state != Candidate then None else Some(Transition(s, Verified, "auto", None, Some(Auto), now))
  }

  /** Verified only after two completed plans. */
  function AutoVerifiedCandidate(s: Sample, now: real): Sample {
    if s.state == Candidate && s.usage.planCompleted >= 2 then Transition(s, Verified, "auto", None, Some(Auto), now) else s
  }

  predicate IsContent(c: Content) {
    Strip(c.description) != "" && c.steps != []
  }

  function Edited(s: Sample, content: Content, actor: string, now: real): Option<Sample> {
    if Strip(actor) != "user" || !IsContent(content) then None
    else
      Some(s.(content := Content(Strip(content.description), content.steps), state := Verified, verifyKind := Some(User),
              source := "user_edit", usage := EMPTY_USAGE, version := s.version + 1, staleReason := None,
              rejectedBy := None, lastActor := actor, rowStatus := Active, updatedAt := now))
  }

  function RejectedBy(s: Sample, actor: string, now: real): Option<Sample> {
    if Strip(actor) != "user" || s.state == Rejected then None
    else Some(Transition(s, Rejected, actor, None, None, now))
  }

  function Restored(s: Sample, actor: string, now: real): Option<Sample> {
    if Strip(actor) != "user" || !(s.state == Rejected || s.state == Archived || s.state == Stale) then None
    else Some(Transition(s, Candidate, actor, None, None, now))
  }

  function Staled(s: Sample, reason: string, actor: string, now: real): Option<Sample> {
    if Strip(actor) != "auto" || Strip(reason) == "" || !(s.state == Candidate || IsAutoVerified(s)) then None
    else Some(Transition(s, Stale, actor, Some(Strip(reason)), None, now))
  }

  function ArchivedFor(s: Sample, reason: string, actor: string, now: real): Option<Sample> {
    if !(Strip(actor) == "auto" || Strip(actor) == "system") || Strip(reason) == "" then None
    else if s.state == Rejected || s.state == Archived || IsUserVerified(s) then None
    else Some(Transition(s, Archived, actor, Some(Strip(reason)), None, now))
  }

  // ----- counters

  function Injected(s: Sample, hitAt: real, similarity: Option<real>, now: real): Sample {
    var u := s.usage.(injectedCount := s.usage.injectedCount + 1, lastInjectedAt := Some(hitAt));
    var v := match similarity
      case None => u
      case Some(x) => u.(similaritySum := u.similaritySum + x, similarityCount := u.similarityCount + 1);
    s.(usage := v, updatedAt := now)
  }

  function Merged(s: Sample, similarity: real, now: real): Sample {
    s.(usage := s.usage.(similaritySum := s.usage.similaritySum + similarity, similarityCount := s.usage.similarityCount + 1),
       updatedAt := now)
  }

  function PlanAssigned(s: Sample, planId: string, now: real): Option<Sample> {
    if Strip(planId) == "" then None else Some(s.(planId := Strip(planId), updatedAt := now))
  }

  function Outcome(s: Sample, completed: bool, now: real): Sample {
    var u := s.usage;
    s.(usage := if completed then u.(planCompleted := u.planCompleted + 1, consecutiveFailures := 0)
                else u.(planFailed := u.planFailed + 1, consecutiveFailures := u.consecutiveFailures + 1),
       updatedAt := now)
  }

  /** A failure counts, and the third in a row stales an injected sample that the user does not
      vouch for. */
  function OutcomeRecorded(s: Sample, completed: bool, now: real): Sample {
    var t := Outcome(s, completed, now);
    if !completed && t.usage.injectedCount >= 3 && t.usage.consecutiveFailures >= 3 && (t.state == Candidate || IsAutoVerified(t)) then
      Transition(t, Stale, "auto", Some("consecutive_failure"), None, now)
    else t
  }

  function NewCandidate(id: int, content: Content, source: string, planId: string, now: real): Sample {
    Sample(id, Content(Strip(content.description), content.steps), Candidate, None, source, Strip(planId), EMPTY_USAGE, 1,
           Active, None, None, "system", now)
  }

  // ----- what every record keeps

  /** The marks of a state are set exactly in that state. */
  predicate IsConsistent(s: Sample) {
    && (s.verifyKind.Some? <==> s.state == Verified)
    && (s.staleReason.Some? <==> s.state == Stale)
    && (s.rejectedBy.Some? <==> s.state == Rejected)
    && (s.rowStatus == Cancelled <==> s.state == Archived)
  }

  /** The user has the last word on these. */
  predicate IsSovereign(s: Sample) {
    IsUserVerified(s) || s.state == Rejected
  }

  /** Nothing that the user decided has changed. */
  predicate SameVerdict(s: Sample, t: Sample) {
    t.id == s.id && t.content == s.content && t.state == s.state && t.verifyKind == s.verifyKind
    && t.rejectedBy == s.rejectedBy && t.rowStatus == s.rowStatus && t.version == s.version
  }
}
