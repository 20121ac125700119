/** Buffers on which `parse_partial_card` misses what it promises: a torn string, a literal cut
    short in the middle, keys that forge a card path, and a repeated key. */
module CardFaults {
  import opened JsonText
  import opened PartialReader
  import opened CardScanner
  import opened ScanRefinement
  import opened Truncation
  import opened PartialCard
  import opened CardTheorems
  import opened JsonGrammar
  import opened GrammarSoundness
  import opened JsonMeaning
  import opened CardStream

  const KEY_A: Text := [QUOTE, 0x61, QUOTE, COLON]

  /** `{"a":"\u1"}` */
  const TORN: Text := [OPEN_BRACE, QUOTE, 0x61, QUOTE, COLON, QUOTE, BACKSLASH, LOWER_U, 0x31, QUOTE, CLOSE_BRACE]

  /** The key `a` at index 1 of a buffer that begins with `{"a":`. */
  lemma {:induction false} ReadsKeyA(s: Text)
    requires [OPEN_BRACE] + KEY_A <= s
    ensures s[0] == OPEN_BRACE && RunEnd(s, 0, Blanks) == 0 && RunEnd(s, 1, Blanks) == 1 && s[1] == QUOTE
    ensures ReadKey(s, 1) == Key([0x61], 4)
  {
    var u := [OPEN_BRACE] + KEY_A;
    assert s[0] == u[0] && s[1] == u[1] && s[2] == u[2] && s[3] == u[3] && s[4] == u[4];
    assert ReadCharacters(s, 3, [0x61]) == StringOk(StringToken([0x61], true, false), 4);
    assert ReadCharacters(s, 2, []) == ReadCharacters(s, 3, [] + [s[2]]);
    assert [] + [s[2]] == [0x61];
    assert RunEnd(s, 4, Blanks) == 4;
  }

  lemma {:induction false} TornString()
    ensures ReadString(TORN, 5) == StringOk(StringToken([], false, true), 11)
  {
    assert ClosesString(TORN, 9);
    assert ClosesString(TORN, 8);
  }

  lemma {:induction false} TornIsRead()
    ensures ReadCard(TORN) == Ok(Obj([Member([0x61], Some(Str([], false)))], false), 11, InString(5, true))
  {
    hide ReadString, ReadKey, ReadMembers, AfterTurn;
    ReadsKeyA(TORN);
    TornString();
    assert RunEnd(TORN, 5, Blanks) == 5 && RunEnd(TORN, 11, Blanks) == 11;
    assert ReadTurn(TORN, 5, CLOSE_BRACE) == Last(Str([], false), 11, false, InString(5, true));
    MembersTurn(TORN, 1, [], ReadKey(TORN, 1));
    MemberAdded(TORN, 5, [], [0x61], ReadTurn(TORN, 5, CLOSE_BRACE));
    assert [] + [Member([0x61], Some(Str([], false)))] == [Member([0x61], Some(Str([], false)))];
  }

  /** From the torn string on, the scanner sees a closed string and a closing brace. */
  lemma {:induction false} TornIsScanned()
    ensures ScanOf(TORN).valid && ScanOf(TORN).lexicalComplete && ScanOf(TORN).openStack == []
  {
    hide Scan, ReadCard, ReadString;
    TornIsRead();
    var fin := FollowCard(TORN);
    var closed := fin.(mode := Outside);
    ScanUnrolled(TORN, 6, fin);
    ScanUnrolled(TORN, 7, fin.(mode := Inside(5, true)));
    ScanUnrolled(TORN, 8, fin);
    ScanUnrolled(TORN, 9, fin);
    assert RunEnd(TORN, 10, Blanks) == 10;
    ScanUnrolled(TORN, 10, closed);
    assert MembersNest([Member([0x61], Some(Str([], false)))]) == [];
    assert Kinds(fin.frames) == [Object];
    assert fin.frames[0].kind == Kinds(fin.frames)[0];
    ScanAtEnd(TORN, CloseContainer(Object, closed).value);
  }

  /** A torn buffer is reported complete, though it is no JSON text and the parser never
      saw the brace. */
  lemma {:induction false} CompleteWithoutTheBrace()
    ensures ParseOf(TORN).value.Some? && ParseOf(TORN).complete
    ensures IsTorn(TORN) && !NodeRead(TORN).done && !IsCardText(TORN)
  {
    hide ReadCard, ScanOf, ParseOf;
    TornIsRead();
    TornIsScanned();
    AcceptedMeans(TORN);
    CompleteIsGrammaticalIff(TORN);
  }

  /** `{"a":tru}` */
  const CUT_LITERAL: Text := [OPEN_BRACE, QUOTE, 0x61, QUOTE, COLON, 0x74, 0x72, 0x75, CLOSE_BRACE]

  lemma {:induction false} CutLiteralIsRead()
    ensures ReadCard(CUT_LITERAL) ==
              Ok(Obj([Member([0x61], Some(Literal([0x74, 0x72, 0x75], true)))], true), 9, BetweenTokens)
  {
    hide ReadString, ReadKey, ReadMembers, AfterTurn;
    ReadsKeyA(CUT_LITERAL);
    RunEndIs(CUT_LITERAL, 5, Letters, 8);
    assert CUT_LITERAL[5..8] == [0x74, 0x72, 0x75];
    assert RunEnd(CUT_LITERAL, 5, Blanks) == 5 && RunEnd(CUT_LITERAL, 8, Blanks) == 8 && RunEnd(CUT_LITERAL, 9, Blanks) == 9;
    assert ReadTurn(CUT_LITERAL, 5, CLOSE_BRACE) == Last(Literal([0x74, 0x72, 0x75], true), 9, true, BetweenTokens);
    MembersTurn(CUT_LITERAL, 1, [], ReadKey(CUT_LITERAL, 1));
    MemberAdded(CUT_LITERAL, 5, [], [0x61], ReadTurn(CUT_LITERAL, 5, CLOSE_BRACE));
    var member := Member([0x61], Some(Literal([0x74, 0x72, 0x75], true)));
    assert [] + [member] == [member];
  }

  /** A literal cut short in the middle is shown as null, and the card as complete. */
  lemma {:induction false} CompleteWithCutLiteral()
    ensures ParseOf(CUT_LITERAL) == PartialParse(Some(JObject([Entry([0x61], JNull)])), [], true)
    ensures !IsCardText(CUT_LITERAL)
  {
    hide ReadCard, ScanOf, ParseOf;
    CutLiteralIsRead();
    CompleteIffFinished(CUT_LITERAL);
    ScanReports(CUT_LITERAL);
    AcceptedMeans(CUT_LITERAL);
    var member := Member([0x61], Some(Literal([0x74, 0x72, 0x75], true)));
    OneMember(member);
    assert MembersClosed([member], []) == [];
    assert !Whole(NodeRead(CUT_LITERAL)) by {
      assert NodeRead(CUT_LITERAL).members[0] == member;
    }
    CompleteIsGrammaticalIff(CUT_LITERAL);
  }

  /** The characters of a text, none escaped. */
  function Unescaped(t: Text): seq<Character> {
    if t == [] then [] else [Plain(t[0])] + Unescaped(t[1..])
  }

  lemma {:induction false} UnescapedValue(t: Text)
    requires forall k :: 0 <= k < |t| ==> ValidCharacter(Plain(t[k]))
    ensures ValidCharacters(Unescaped(t)) && CharactersValue(Unescaped(t)) == t
  {
    if t == [] {
    } else {
      UnescapedValue(t[1..]);
      assert Unescaped(t)[1..] == Unescaped(t[1..]);
    }
  }

  /** `{"steps[0]":{}}` as a tree */
  const FORGED: Syntax := SObject([], [Pair([], Unescaped(ItemPath(STEPS, 0)), [], Item([], SObject([], []), []))])

  /** A key with a bracket forges the path of a card that is not there. */
  lemma {:induction false} BracketKeyForges()
    ensures var buffer := TextOf(FORGED);
            && ParseOf(buffer).closed == [ItemPath(STEPS, 0)]
            && ParseOf(buffer).value.Some? && CardAt(ParseOf(buffer).value.value, 0) == None
  {
    hide ReadCard, ScanOf, ParseOf, TextOf;
    var path := ItemPath(STEPS, 0);
    ForgedKey();
    assert ValidItem(FORGED.members[0].item);
    assert ValidPair(FORGED.members[0]);
    assert [] + TextOf(FORGED) + [] == TextOf(FORGED);
    PrintedCardIsParsed([], FORGED, []);
    MeaningIs(FORGED);
    var member := Member(path, Some(Obj([], true)));
    assert NodeOf(SObject([], [])) == Obj([], true);
    assert MemberOf(FORGED.members[0]) == member;
    assert FORGED.members[1..] == [];
    assert MembersOf(FORGED.members) == [member];
    CardPath(0);
    OneMember(member);
    assert MembersClosed([], path) == [];
    assert ClosedIn(Obj([], true), path) == [path];
  }

  /** `{"steps":[{}]}` as a tree, and the same behind an empty key */
  const BARE: Syntax :=
    SObject([], [Pair([], Unescaped(STEPS), [], Item([], SArray([], [Item([], SObject([], []), [])]), []))])
  const BEHIND_EMPTY: Syntax := SObject([], [Pair([], [], [], Item([], BARE, []))])

  lemma {:induction false} BareNode()
    ensures Valid(BARE) && NodeOf(BARE) == Obj([Member(STEPS, Some(Arr([Obj([], true)], true)))], true)
  {
    var inner := Item([], SObject([], []), []);
    var pair := BARE.members[0];
    UnescapedValue(STEPS);
    assert ValidItem(inner) && [inner][1..] == [];
    assert NodesOf([inner]) == [Obj([], true)];
    assert ValidItem(pair.item) && ValidPair(pair) && BARE.members[1..] == [];
    assert MemberOf(pair) == Member(STEPS, Some(Arr([Obj([], true)], true)));
    assert MembersOf(BARE.members) == [MemberOf(pair)];
  }

  lemma {:induction false} EmptyKeyNode()
    ensures Valid(BEHIND_EMPTY) && NodeOf(BEHIND_EMPTY) == Obj([Member([], Some(NodeOf(BARE)))], true)
  {
    hide Valid, NodeOf;
    BareNode();
    var pair := BEHIND_EMPTY.members[0];
    assert ValidItem(pair.item) && ValidPair(pair) && BEHIND_EMPTY.members[1..] == [];
    assert CharactersValue([]) == [];
    assert MemberOf(pair) == Member([], Some(NodeOf(BARE)));
    assert MembersOf(BEHIND_EMPTY.members) == [MemberOf(pair)];
    EmptyKeyUnfold();
  }

  lemma {:induction false} EmptyKeyUnfold()
    ensures Valid(BEHIND_EMPTY) <==> ValidPair(BEHIND_EMPTY.members[0])
    ensures NodeOf(BEHIND_EMPTY) == Obj(MembersOf(BEHIND_EMPTY.members), true)
  {
  }

  /** Behind an empty key an inner `steps` passes for the one of the card. */
  lemma {:induction false} EmptyKeyForges()
    ensures var buffer := TextOf(BEHIND_EMPTY);
            && ParseOf(buffer).closed == [ItemPath(STEPS, 0)]
            && ParseOf(buffer).value.Some? && CardAt(ParseOf(buffer).value.value, 0) == None
  {
    hide ReadCard, ScanOf, ParseOf, TextOf, NodeOf, Valid;
    BareNode();
    EmptyKeyNode();
    assert [] + TextOf(BEHIND_EMPTY) + [] == TextOf(BEHIND_EMPTY);
    PrintedCardIsParsed([], BEHIND_EMPTY, []);
    MeaningIs(BEHIND_EMPTY);
    var inner, member := Member(STEPS, Some(Arr([Obj([], true)], true))), Member([], Some(NodeOf(BARE)));
    OneMember(member);
    OneMember(inner);
    CardsInItems([Obj([], true)]);
    assert [Obj([], true)][..0] == [] && FinishedCards([]) == [];
    assert MemberClosed(inner, []) == [ItemPath(STEPS, 0)];
    assert MemberClosed(member, []) == MembersClosed([inner], []) + [];
  }

  lemma {:induction false} OneMember(member: Member)
    ensures EntriesOf([member]) == [Entry(member.key, MemberValue(member))]
    ensures MembersClosed([member], []) == MemberClosed(member, [])
  {
    assert [member][..0] == [];
    assert EntriesOf([]) == [];
  }

  lemma {:induction false} ForgedKey()
    ensures var key := FORGED.members[0].key; ValidCharacters(key) && CharactersValue(key) == ItemPath(STEPS, 0)
  {
    assert Decimal(0) == [0x30];
    NamesAre();
    UnescapedValue(ItemPath(STEPS, 0));
  }

  /** `{"a":"x","a":` */
  const REPEATED: Text := [OPEN_BRACE, QUOTE, 0x61, QUOTE, COLON, QUOTE, 0x78, QUOTE, COMMA, QUOTE, 0x61, QUOTE, COLON]

  lemma {:induction false} RepeatedPieces(s: Text)
    requires REPEATED[..8] <= s <= REPEATED
    ensures ReadString(s, 5) == StringOk(StringToken([0x78], true, false), 8)
    ensures RunEnd(s, 5, Blanks) == 5 && RunEnd(s, 8, Blanks) == 8
    ensures [OPEN_BRACE] + KEY_A <= s
  {
    assert forall k :: 0 <= k < 8 ==> s[k] == REPEATED[..8][k];
    assert ReadCharacters(s, 7, [0x78]) == StringOk(StringToken([0x78], true, false), 8);
    assert [] + [s[6]] == [0x78];
  }

  lemma {:induction false} RepeatedIsRead()
    ensures ReadCard(REPEATED).Ok? && !IsTorn(REPEATED)
    ensures NodeRead(REPEATED) == Obj([Member([0x61], Some(Str([0x78], true))), Member([0x61], None)], false)
  {
    hide ReadString, ReadKey, ReadMembers, AfterTurn;
    var s := REPEATED;
    RepeatedPieces(s);
    ReadsKeyA(s);
    SecondKey();
    var first := Member([0x61], Some(Str([0x78], true)));
    assert ReadTurn(s, 5, CLOSE_BRACE) == More(Str([0x78], true), 9);
    assert ReadTurn(s, 13, CLOSE_BRACE) == Nothing(13);
    MembersTurn(s, 1, [], ReadKey(s, 1));
    MemberAdded(s, 5, [], [0x61], ReadTurn(s, 5, CLOSE_BRACE));
    assert [] + [first] == [first];
    MembersTurn(s, 9, [first], ReadKey(s, 9));
    MemberAdded(s, 13, [first], [0x61], ReadTurn(s, 13, CLOSE_BRACE));
    assert RunEnd(s, 13, Blanks) == 13;
  }

  lemma {:induction false} SecondKey()
    ensures ReadKey(REPEATED, 9) == Key([0x61], 12)
  {
    var s := REPEATED;
    assert ReadCharacters(s, 11, [0x61]) == StringOk(StringToken([0x61], true, false), 12);
    assert ReadCharacters(s, 10, []) == ReadCharacters(s, 11, [] + [s[10]]);
    assert [] + [s[10]] == [0x61];
    assert RunEnd(s, 9, Blanks) == 9 && RunEnd(s, 12, Blanks) == 12;
  }

  lemma {:induction false} BeginningIsRead()
    ensures ReadCard(REPEATED[..8]).Ok? && !IsTorn(REPEATED[..8])
    ensures NodeRead(REPEATED[..8]) == Obj([Member([0x61], Some(Str([0x78], true)))], false)
  {
    hide ReadString, ReadKey, ReadMembers, AfterTurn;
    var t := REPEATED[..8];
    RepeatedPieces(t);
    ReadsKeyA(t);
    var first := Member([0x61], Some(Str([0x78], true)));
    assert ReadTurn(t, 5, CLOSE_BRACE) == Last(Str([0x78], true), 8, false, BetweenTokens);
    MembersTurn(t, 1, [], ReadKey(t, 1));
    MemberAdded(t, 5, [], [0x61], ReadTurn(t, 5, CLOSE_BRACE));
    assert [] + [first] == [first];
  }

  /** A repeated key takes back what the shorter buffer showed. */
  lemma {:induction false} RepeatedKeyTakesBack()
    ensures var t := REPEATED[..8];
            && ParseOf(t).value == Some(JObject([Entry([0x61], JString([0x78]))]))
            && ParseOf(REPEATED).value == Some(JObject([Entry([0x61], JNull)]))
            && ReadCard(t).Ok? && !Keeps(NodeRead(t), ParseOf(REPEATED).value.value)
  {
    hide ReadCard, ScanOf, ParseOf;
    BeginningIsRead();
    RepeatedIsRead();
    CompleteIffFinished(REPEATED[..8]);
    CompleteIffFinished(REPEATED);
    var first, second := Member([0x61], Some(Str([0x78], true))), Member([0x61], None);
    OneMember(first);
    assert [first, second][..1] == [first];
    var entry := Entry([0x61], JString([0x78]));
    assert EntriesOf([first, second]) == Put([entry], [0x61], JNull);
    assert [entry][0 := Entry([0x61], JNull)] == [Entry([0x61], JNull)];
  }
}
