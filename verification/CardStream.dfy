/** The promises of `parse_partial_card` about a stream of growing buffers. */
module CardStream {
  import opened JsonText
  import opened PartialReader
  import opened CardScanner
  import opened ScanRefinement
  import opened Truncation
  import opened PartialCard
  import opened CardTheorems
  import opened JsonGrammar
  import opened GrammarSoundness
  import opened JsonMeaning

  /** The node the parser read, for buffers it accepts. */
  function NodeRead(buffer: Text): (node: Node)
    requires ReadCard(buffer).Ok?
    ensures node.Obj?
  {
    ReadCard(buffer).value
  }

  predicate HoldsBrace(t: Text, s: Text) {
    RunEnd(s, 0, Blanks) < |t|
  }

  lemma {:induction false} AcceptedMeans(buffer: Text)
    ensures ParseOf(buffer).value.Some? <==> ScanOf(buffer).valid && ReadCard(buffer).Ok?
    ensures ParseOf(buffer).value.Some? ==>
      ParseOf(buffer) == PartialParse(Some(ValueOf(NodeRead(buffer))), ScanOf(buffer).closed,
                                      ScanOf(buffer).lexicalComplete && ScanOf(buffer).openStack == [])
  {
  }

  /** What the scan reports, on an untorn buffer, in terms of what the parser read. */
  lemma {:induction false} ScanReports(buffer: Text)
    requires ReadCard(buffer).Ok? && !IsTorn(buffer)
    ensures var node := NodeRead(buffer);
            ScanOf(buffer) == StructuralScan(MembersClosed(node.members, []), OpenNest(node), HasStepsArray(node.members),
                                             true, ReadCard(buffer).halt == BetweenTokens)
  {
    hide Scan, ReadCard, MembersClosed, OpenNest;
    AgreesUnlessTorn(buffer);
  }

  // ----- nothing is taken back

  /** For every buffer whose scan is valid: its prefixes scan validly, and report a first
      part of the same list of closed cards. */
  lemma {:induction false} ClosedOnlyGrows(t: Text, s: Text)
    requires t <= s && ScanOf(s).valid
    ensures ScanOf(t).valid && ScanOf(t).closed <= ScanOf(s).closed
  {
    hide Scan;
    ScanCut(t, s, 0, INITIAL);
  }

  /** A prefix of an accepted buffer that holds the opening brace is accepted, and its closed
      cards come first in the longer report. */
  lemma {:induction false} PrefixAccepted(t: Text, s: Text)
    requires t <= s && HoldsBrace(t, s) && ParseOf(s).value.Some?
    ensures ReadCard(s).Ok? && ReadCard(t).Ok? && ParseOf(t).value == Some(ValueOf(NodeRead(t)))
    ensures ParseOf(t).closed <= ParseOf(s).closed
    ensures Grows(NodeRead(t), NodeRead(s))
  {
    hide ReadCard, ScanOf, ParseOf;
    AcceptedMeans(s);
    ClosedOnlyGrows(t, s);
    CutCard(t, s);
    AcceptedMeans(t);
  }

  /** What a prefix shows is kept: its closed cards come first in the longer report, and its
      value only grows, in an object whose repeated keys do no harm. */
  lemma {:induction false} ShownOnlyGrows(t: Text, s: Text)
    requires t <= s && HoldsBrace(t, s) && ParseOf(s).value.Some?
    requires ReadCard(s).Ok? && Harmless(NodeRead(s))
    ensures ReadCard(t).Ok? && ParseOf(t).value == Some(ValueOf(NodeRead(t)))
    ensures ParseOf(t).closed <= ParseOf(s).closed
    ensures Keeps(NodeRead(t), ParseOf(s).value.value)
  {
    hide ReadCard, ScanOf, Keeps, Harmless, ParseOf;
    PrefixAccepted(t, s);
    AcceptedMeans(s);
    GrowingValue(NodeRead(t), NodeRead(s));
  }

  // ----- completeness

  /** On an untorn buffer `complete` says that the parser saw the closing brace. */
  lemma {:induction false} CompleteIffFinished(buffer: Text)
    requires ReadCard(buffer).Ok? && !IsTorn(buffer)
    ensures ParseOf(buffer).value == Some(ValueOf(NodeRead(buffer)))
    ensures ParseOf(buffer).complete <==> NodeRead(buffer).done
  {
    hide ReadCard, ScanOf, MembersClosed, ParseOf;
    ScanReports(buffer);
    AcceptedMeans(buffer);
    var node := NodeRead(buffer);
    assert OpenNest(node) == [] <==> node.done;
  }

  /** Where the parser stopped reading the object. */
  function ObjectEnd(buffer: Text): nat
    requires ReadCard(buffer).Ok?
  {
    ReadObject(buffer, RunEnd(buffer, 0, Blanks)).next
  }

  /** In a stream that comes to a complete card, the prefixes that hold the closing brace are
      complete, with the final value, and the others are not. */
  lemma {:induction false} CompleteFromTheBraceOn(t: Text, s: Text)
    requires t <= s && HoldsBrace(t, s)
    requires ReadCard(s).Ok? && NodeRead(s).done
    ensures ReadCard(t).Ok? && !IsTorn(t)
    ensures ParseOf(t).value.Some?
    ensures ParseOf(t).complete <==> ObjectEnd(s) <= |t|
    ensures ParseOf(t).complete ==> ParseOf(t).value == ParseOf(s).value
  {
    hide ReadObject, ParseOf;
    var i := RunEnd(s, 0, Blanks);
    RunEndCut(t, s, 0, Blanks);
    CutObject(t, s, i);
    CutCard(t, s);
    CompleteIffFinished(t);
    CompleteIffFinished(s);
    ObjectCut(t, s, i);
  }

  /** A finished object ends at its brace, so a buffer that holds the brace reads it whole. */
  lemma {:induction false} ObjectCut(t: Text, s: Text, i: nat)
    requires t <= s && i < |t| && s[i] == OPEN_BRACE
    requires ReadObject(s, i).Ok? && ReadObject(s, i).value.done
    ensures ReadObject(t, i).Ok?
    ensures ReadObject(t, i).value.done <==> ReadObject(s, i).next <= |t|
  {
    hide ReadMembers;
    CutObject(t, s, i);
    var j := RunEnd(s, i + 1, Blanks);
    RunEndCut(t, s, i + 1, Blanks);
    if ReadObject(s, i).next <= |t| && s[j] != CLOSE_BRACE {
      MembersCut(t, s, j, []);
    }
  }

  lemma {:induction false} MembersCut(t: Text, s: Text, i: nat, members: seq<Member>)
    requires t <= s && i <= |t|
    requires ReadMembers(s, i, members).Ok? && ReadMembers(s, i, members).value.done
    requires ReadMembers(s, i, members).next <= |t|
    ensures ReadMembers(t, i, members) == ReadMembers(s, i, members)
    decreases |t| - i
  {
    hide ReadMembers, ReadKey, AfterTurn, ReadTurn;
    var a, b := ReadKey(t, i), ReadKey(s, i);
    CutKey(t, s, i);
    MembersTurn(t, i, members, a);
    MembersTurn(s, i, members, b);
    var x, y := ReadTurn(t, b.colon + 1, CLOSE_BRACE), ReadTurn(s, b.colon + 1, CLOSE_BRACE);
    MemberAdded(s, b.colon + 1, members, b.key, y);
    TurnCut(t, s, b.colon + 1, CLOSE_BRACE);
    MemberAdded(t, b.colon + 1, members, b.key, x);
    if y.More? {
      MembersCut(t, s, y.next, members + [TurnMember(b.key, y)]);
    }
  }

  lemma {:induction false} TurnCut(t: Text, s: Text, i: nat, closer: Code)
    requires t <= s && i <= |t|
    requires var b := ReadTurn(s, i, closer); b.More? || (b.Last? && b.closed)
    requires ReadTurn(s, i, closer).next <= |t|
    ensures ReadTurn(t, i, closer) == ReadTurn(s, i, closer)
  {
    hide ReadValue;
    var start := RunEnd(s, i, Blanks);
    RunEndCut(t, s, i, Blanks);
    CutValue(t, s, start);
    RunEndCut(t, s, ReadValue(s, start).next, Blanks);
  }

  // ----- closed cards

  /** On an untorn buffer the closed list is exactly the finished object elements of the
      top-level `steps` array, in order, if and only if nothing in it forges a card path. */
  lemma {:induction false} ClosedExactlyIff(buffer: Text)
    requires ReadCard(buffer).Ok? && !IsTorn(buffer)
    ensures ParseOf(buffer).closed == CardsOf(NodeRead(buffer).members) <==> !Forges(NodeRead(buffer).members)
  {
    hide ReadCard, ScanOf, ParseOf, Forges, CardsOf, MembersClosed;
    ScanReports(buffer);
    AcceptedMeans(buffer);
    ClosedAreCardsIff(NodeRead(buffer).members);
  }

  /** `value.steps[j]`, if there is such a card. */
  function CardAt(value: Json, j: nat): Option<Json> {
    if !value.JObject? then None
    else
      var k := IndexOf(value.entries, STEPS);
      if k < |value.entries| && value.entries[k].val.JArray? && j < |value.entries[k].val.items|
      then Some(value.entries[k].val.items[j])
      else None
  }

  lemma {:induction false} DecimalInjective(m: nat, n: nat)
    requires Decimal(m) == Decimal(n)
    ensures m == n
    decreases m
  {
    DecimalDigits(m / 10);
    DecimalDigits(n / 10);
    var k := |Decimal(m)| - 1;
    assert Decimal(m)[k] == 0x30 + m % 10 && Decimal(n)[k] == 0x30 + n % 10;
    if m >= 10 && n >= 10 {
      assert Decimal(m / 10) == Decimal(m)[..k] && Decimal(n / 10) == Decimal(n)[..k];
      DecimalInjective(m / 10, n / 10);
    }
  }

  lemma {:induction false} ItemPathInjective(m: nat, n: nat)
    requires ItemPath(STEPS, m) == ItemPath(STEPS, n)
    ensures m == n
  {
    var p, q := ItemPath(STEPS, m), ItemPath(STEPS, n);
    assert p[6..|p| - 1] == Decimal(m) && q[6..|q| - 1] == Decimal(n);
    DecimalInjective(m, n);
  }

  lemma {:induction false} FinishedCardAt(items: seq<Node>, j: nat)
    requires ItemPath(STEPS, j) in FinishedCards(items)
    ensures j < |items| && items[j].Obj? && items[j].done
  {
    var k := |items| - 1;
    if ItemPath(STEPS, j) in FinishedCards(items[..k]) {
      FinishedCardAt(items[..k], j);
    } else {
      ItemPathInjective(j, k);
    }
  }

  /** The card behind a closed path. */
  lemma {:induction false} CardPosition(members: seq<Member>, j: nat) returns (m: nat)
    requires ItemPath(STEPS, j) in CardsOf(members)
    ensures m < |members| && IsStepsArray(members[m])
    ensures var items := members[m].val.value.items; j < |items| && items[j].Obj? && items[j].done
  {
    var k := |members| - 1;
    if ItemPath(STEPS, j) in CardsOf(members[..k]) {
      m := CardPosition(members[..k], j);
    } else {
      m := k;
      FinishedCardAt(StepsItems(members[k]), j);
    }
  }

  lemma {:induction false} StepsPosition(members: seq<Member>, m: nat)
    requires Distinct(members) && m < |members| && members[m].key == STEPS
    ensures |EntriesOf(members)| == |members|
    ensures EntriesOf(members)[m] == Entry(STEPS, MemberValue(members[m]))
    ensures IndexOf(EntriesOf(members), STEPS) == m
  {
    hide EntriesOf;
    EntriesAt(members);
    var entries := EntriesOf(members);
    forall i | 0 <= i < |entries|
      ensures entries[i].key == STEPS <==> i == m
    {
      assert entries[i].key == members[i].key;
    }
  }

  lemma {:induction false} CardShown(members: seq<Member>, m: nat, j: nat)
    requires Distinct(members) && m < |members| && IsStepsArray(members[m])
    requires j < |members[m].val.value.items|
    ensures CardAt(JObject(EntriesOf(members)), j) == Some(ValueOf(members[m].val.value.items[j]))
  {
    hide EntriesOf, ValuesOf, IndexOf;
    StepsPosition(members, m);
    ValuesAt(members[m].val.value.items);
    assert MemberValue(members[m]) == JArray(ValuesOf(members[m].val.value.items));
  }

  /** A finished card of the shorter reading is the same card of the longer one. */
  lemma {:induction false} CardKept(a: Node, b: Node, m: nat, j: nat)
    requires a.Obj? && b.Obj? && Grows(a, b)
    requires m < |a.members| && IsStepsArray(a.members[m])
    requires j < |a.members[m].val.value.items| && a.members[m].val.value.items[j].done
    ensures m < |b.members| && IsStepsArray(b.members[m])
    ensures j < |b.members[m].val.value.items|
    ensures b.members[m].val.value.items[j] == a.members[m].val.value.items[j]
  {
    if !a.done && m == |a.members| - 1 {
      var x, y := a.members[m].val.value, b.members[m].val.value;
      assert Grows(x, y);
      if !x.done && j == |x.items| - 1 {
        assert Grows(x.items[j], y.items[j]);
      }
    }
  }

  lemma {:induction false} KeysGrow(a: Node, b: Node)
    requires a.Obj? && b.Obj? && Grows(a, b)
    ensures |a.members| <= |b.members|
    ensures forall k :: 0 <= k < |a.members| ==> a.members[k].key == b.members[k].key
    ensures Distinct(b.members) ==> Distinct(a.members)
  {
  }

  /** Once `steps[j]` is reported closed, its value never changes again. The keys of the top-level
      object must be distinct and nothing may forge a card path. It is there already, unless the
      string that ends the short buffer is torn. */
  lemma {:induction false} ClosedCardIsStable(t: Text, s: Text, j: nat)
    requires t <= s && HoldsBrace(t, s) && ParseOf(s).value.Some?
    requires ReadCard(s).Ok? && Distinct(NodeRead(s).members) && !Forges(NodeRead(s).members)
    requires ItemPath(STEPS, j) in ParseOf(t).closed
    ensures ParseOf(t).value.Some?
    ensures CardAt(ParseOf(s).value.value, j) == CardAt(ParseOf(t).value.value, j)
    ensures !IsTorn(t) ==> CardAt(ParseOf(t).value.value, j).Some?
  {
    hide ReadCard, ScanOf, Grows, CardAt, ParseOf, Forges;
    PrefixAccepted(t, s);
    AcceptedMeans(s);
    CutCard(t, s);
    var a, b := NodeRead(t), NodeRead(s);
    if !IsTorn(t) {
      KeysGrow(a, b);
      if Forges(a.members) {
        ForgesGrows(a, b);
      }
      ClosedExactlyIff(t);
      var m := CardPosition(a.members, j);
      CardKept(a, b, m, j);
      CardShown(a.members, m, j);
      CardShown(b.members, m, j);
    }
  }

  // ----- against the grammar

  /** Every text of an object gives back what it means, complete. */
  lemma {:induction false} PrintedCardIsParsed(before: Text, x: Syntax, after: Text)
    requires Valid(x) && x.SObject? && AllBlank(before) && AllBlank(after)
    ensures ParseOf(before + TextOf(x) + after) == PartialParse(Some(Meaning(x)), MembersClosed(NodeOf(x).members, []), true)
  {
    hide ReadCard, ScanOf, MembersClosed, ParseOf, Valid, NodeOf, Meaning, TextOf;
    MeaningIs(x);
    NodeIsObject(x);
    var s := before + TextOf(x) + after;
    ReadsCard(before, x, after);
    ScanReports(s);
    AcceptedMeans(s);
    CompleteIffFinished(s);
  }

  lemma {:induction false} NodeIsObject(x: Syntax)
    ensures x.SObject? ==> NodeOf(x).Obj?
  {
  }

  /** `complete` means a whole JSON object exactly when no string is torn and no literal or
      number is cut short in the middle. */
  lemma {:induction false} CompleteIsGrammaticalIff(buffer: Text)
    requires ParseOf(buffer).value.Some? && ParseOf(buffer).complete
    ensures IsCardText(buffer) <==> !IsTorn(buffer) && Whole(NodeRead(buffer))
  {
    hide ReadCard, ScanOf, Whole, ParseOf;
    AcceptedMeans(buffer);
    GrammarIff(buffer);
    if !IsTorn(buffer) {
      CompleteIffFinished(buffer);
    }
  }

  /** The buffers reported complete that are texts of the grammar are all of those texts. */
  lemma {:induction false} GrammaticalIsComplete(buffer: Text)
    requires IsCardText(buffer)
    ensures ParseOf(buffer).value.Some? && ParseOf(buffer).complete
  {
    hide ReadCard, ScanOf, ParseOf, Valid;
    var before, x, after :| IsCardTextOf(buffer, before, x, after);
    PrintedCardIsParsed(before, x, after);
  }
}
