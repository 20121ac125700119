/** What the parser finished, and spelled out in full, derives from the grammar. */
module GrammarSoundness {
  import opened JsonText
  import opened NumberToken
  import opened PartialReader
  import opened JsonGrammar

  /** Every literal and number token of the node is whole. */
  predicate Whole(node: Node) {
    match node
    case Literal(token, _) => IsLiteral(token)
    case Number(token, _) => IsNumber(token)
    case Str(_, _) => true
    case Arr(items, _) => ItemsWhole(items)
    case Obj(members, _) => MembersWhole(members)
  }

  predicate ItemsWhole(items: seq<Node>) {
    forall k :: 0 <= k < |items| ==> Whole(items[k])
  }

  predicate MembersWhole(members: seq<Member>) {
    forall k :: 0 <= k < |members| ==> members[k].val.Some? && Whole(members[k].val.value)
  }

  lemma {:induction false} TreeIsWhole(x: Syntax)
    requires Valid(x)
    ensures Whole(NodeOf(x))
    decreases x
  {
    hide Codes, IsNumber, IsLiteral;
    match x
    case SLiteral(token) => LiteralIs(token);
    case SNumber(token) => NumberIsGrammatical(token);
    case SString(_) =>
    case SArray(_, items) => TreesAreWhole(items);
    case SObject(_, members) => PairsAreWhole(members);
  }

  lemma {:induction false} TreesAreWhole(items: seq<Item>)
    requires forall k :: 0 <= k < |items| ==> ValidItem(items[k])
    ensures ItemsWhole(NodesOf(items))
    decreases items
  {
    if items == [] {
    } else {
      assert ValidItem(items[0]);
      TreeIsWhole(items[0].val);
      TreesAreWhole(items[1..]);
    }
  }

  lemma {:induction false} PairsAreWhole(members: seq<Pair>)
    requires forall k :: 0 <= k < |members| ==> ValidPair(members[k])
    ensures MembersWhole(MembersOf(members))
    decreases members
  {
    if members == [] {
    } else {
      assert ValidPair(members[0]) && ValidItem(members[0].item);
      TreeIsWhole(members[0].item.val);
      PairsAreWhole(members[1..]);
    }
  }

  // ----- strings

  lemma {:induction false} CharactersDerive(s: Text, i: nat, text: Text) returns (characters: seq<Character>)
    requires i <= |s|
    requires ReadCharacters(s, i, text).StringOk? && ReadCharacters(s, i, text).token.done
    ensures ValidCharacters(characters)
    ensures Occurs(s, i, CharactersText(characters) + [QUOTE])
    ensures i + |CharactersText(characters)| + 1 == ReadCharacters(s, i, text).next
    ensures ReadCharacters(s, i, text).token.text == text + CharactersValue(characters)
    decreases |s| - i
  {
    if s[i] == QUOTE {
      characters := [];
      OccursOne(s, i, QUOTE);
      assert CharactersText([]) + [QUOTE] == [QUOTE];
    } else {
      var ch := CharacterAt(s, i);
      CharacterOccurs(s, i, text, ch);
      var rest := CharactersDerive(s, i + |CharacterText(ch)|, text + [ch.c]);
      characters := [ch] + rest;
      CharacterPrepended(s, i, ch, rest, text);
    }
  }

  lemma {:induction false} CharacterPrepended(s: Text, i: nat, ch: Character, rest: seq<Character>, text: Text)
    requires Occurs(s, i, CharacterText(ch))
    requires Occurs(s, i + |CharacterText(ch)|, CharactersText(rest) + [QUOTE])
    ensures CharactersText([ch] + rest) == CharacterText(ch) + CharactersText(rest)
    ensures Occurs(s, i, CharactersText([ch] + rest) + [QUOTE])
    ensures text + [ch.c] + CharactersValue(rest) == text + CharactersValue([ch] + rest)
  {
    hide Occurs, CharacterText;
    var characters := [ch] + rest;
    assert characters[0] == ch && characters[1..] == rest;
    OccursSplit(s, i, CharacterText(ch), CharactersText(rest) + [QUOTE]);
    assert CharactersText(characters) + [QUOTE] == CharacterText(ch) + (CharactersText(rest) + [QUOTE]);
  }

  /** The character of a string that starts at `i`. */
  function CharacterAt(s: Text, i: nat): Character
    requires i < |s|
  {
    if s[i] != BACKSLASH then Plain(s[i])
    else if i + 1 == |s| then Plain(s[i])
    else if s[i + 1] != LOWER_U then
      match Unescape(s[i + 1])
      case Some(c) => Escaped(s[i + 1], c)
      case None => Plain(s[i])
    else if i + 6 <= |s| && FourHex(s, i + 2) then
      Unicode(s[i + 2..i + 6], HexValue(s[i + 2], s[i + 3], s[i + 4], s[i + 5]))
    else Plain(s[i])
  }

  lemma {:induction false} CharacterOccurs(s: Text, i: nat, text: Text, ch: Character)
    requires i < |s| && s[i] != QUOTE && ch == CharacterAt(s, i)
    requires ReadCharacters(s, i, text).StringOk? && ReadCharacters(s, i, text).token.done
    ensures ValidCharacter(ch) && Occurs(s, i, CharacterText(ch))
    ensures i + |CharacterText(ch)| <= |s|
    ensures ReadCharacters(s, i, text) == ReadCharacters(s, i + |CharacterText(ch)|, text + [ch.c])
  {
    hide Codes, IsEscape, SpellsHex, Unescape, HexValue, IsHex, ReadCharacters, ClosesString;
    NamesAre();
    if s[i] != BACKSLASH {
      assert s[i..i + 1] == [s[i]];
      ReadsCut(s, i, text);
      ReadsPlain(s, i, text);
    } else {
      ReadsCut(s, i, text);
      if s[i + 1] != LOWER_U {
        ReadsEscape(s, i, text);
        EscapeIs(s[i + 1], ch.c);
        assert s[i..i + 2] == [s[i], s[i + 1]];
      } else {
        ReadsHex(s, i, text);
        SpelledIs(s[i + 2..i + 6], ch.c);
        assert s[i..i + 6] == [s[i], s[i + 1]] + s[i + 2..i + 6];
      }
    }
  }

  /** What stands before the end of a finished string. */
  lemma {:induction false} ReadsCut(s: Text, i: nat, text: Text)
    requires i < |s| && s[i] != QUOTE
    ensures s[i] < 0x20 ==> ReadCharacters(s, i, text) == StringFail
    ensures s[i] == BACKSLASH && i + 1 == |s| ==> ReadCharacters(s, i, text) == StringOk(StringToken(text, false, false), |s|)
  {
  }

  lemma {:induction false} StringDerives(s: Text, i: nat) returns (characters: seq<Character>)
    requires ReadString(s, i).StringOk? && ReadString(s, i).token.done
    ensures ValidCharacters(characters)
    ensures Occurs(s, i, StringText(characters))
    ensures i + |StringText(characters)| == ReadString(s, i).next
    ensures ReadString(s, i).token == StringToken(CharactersValue(characters), true, false)
  {
    hide ReadCharacters;
    characters := CharactersDerive(s, i + 1, []);
    OccursOne(s, i, QUOTE);
    OccursSplit(s, i, [QUOTE], CharactersText(characters) + [QUOTE]);
  }

  // ----- values

  lemma {:induction false} BlankRun(s: Text, i: nat)
    requires i <= |s|
    ensures var t := s[i..RunEnd(s, i, Blanks)]; AllBlank(t) && Occurs(s, i, t)
  {
    hide IsWhite;
    BlanksAre(s, i, RunEnd(s, i, Blanks));
  }

  lemma {:induction false} BlanksAre(s: Text, i: nat, j: nat)
    requires i <= j <= |s| && forall k :: i <= k < j ==> IsBlank(s[k])
    ensures AllBlank(s[i..j])
  {
    hide IsWhite;
    forall k | 0 <= k < j - i
      ensures IsWhite(s[i..j][k])
    {
      WhiteIs(s[i + k]);
    }
  }

  lemma {:induction false} ValueDerives(s: Text, i: nat) returns (x: Syntax)
    requires i < |s|
    requires ReadValue(s, i).Ok? && ReadValue(s, i).value.done && Whole(ReadValue(s, i).value)
    ensures Valid(x) && NodeOf(x) == ReadValue(s, i).value
    ensures Occurs(s, i, TextOf(x)) && i + |TextOf(x)| == ReadValue(s, i).next
    decreases |s| - i, 3
  {
    hide ReadString, ReadArray, ReadObject, Codes;
    if s[i] == OPEN_BRACE {
      x := ObjectDerives(s, i);
    } else if s[i] == OPEN_BRACKET {
      x := ArrayDerives(s, i);
    } else if s[i] == QUOTE {
      var characters := StringDerives(s, i);
      x := SString(characters);
    } else if StartsLiteral(s[i]) {
      x := SLiteral(ReadValue(s, i).value.token);
      LiteralIs(x.token);
    } else {
      x := SNumber(ReadValue(s, i).value.token);
      NumberIsGrammatical(x.token);
    }
  }

  /** A turn that ended with a closer or a comma. */
  lemma {:induction false} TurnDerives(s: Text, i: nat, closer: Code, turn: Turn) returns (item: Item)
    requires i <= |s| && turn == ReadTurn(s, i, closer)
    requires turn.More? || (turn.Last? && turn.closed)
    requires Whole(turn.node)
    ensures ValidItem(item) && NodeOf(item.val) == turn.node
    ensures Occurs(s, i, ItemText(item)) && i + |ItemText(item)| == turn.next - 1
    ensures turn.next - 1 < |s| && s[turn.next - 1] == if turn.More? then COMMA else closer
    decreases |s| - i, 4
  {
    hide ReadValue, Occurs, Valid, Whole;
    var start := RunEnd(s, i, Blanks);
    BlankRun(s, i);
    var x := ValueDerives(s, start);
    var next := ReadValue(s, start).next;
    BlankRun(s, next);
    item := Item(s[i..start], x, s[next..RunEnd(s, next, Blanks)]);
    OccursSplit(s, start, TextOf(x), item.after);
    OccursSplit(s, i, item.before, TextOf(x) + item.after);
  }

  lemma {:induction false} ArrayDerives(s: Text, i: nat) returns (x: Syntax)
    requires i < |s| && s[i] == OPEN_BRACKET
    requires ReadArray(s, i).Ok? && ReadArray(s, i).value.done && Whole(ReadArray(s, i).value)
    ensures Valid(x) && NodeOf(x) == ReadArray(s, i).value
    ensures Occurs(s, i, TextOf(x)) && i + |TextOf(x)| == ReadArray(s, i).next
    decreases |s| - i, 2
  {
    hide ReadItems, Occurs, RunEnd, ItemsText, ItemsRest, ItemText, ValidItem;
    var j := RunEnd(s, i + 1, Blanks);
    OccursOne(s, i, OPEN_BRACKET);
    if s[j] == CLOSE_BRACKET {
      BlankRun(s, i + 1);
      OccursOne(s, j, CLOSE_BRACKET);
      x := SArray(s[i + 1..j], []);
      OccursSplit(s, i + 1, x.blank, [CLOSE_BRACKET]);
      OccursSplit(s, i, [OPEN_BRACKET], x.blank + [CLOSE_BRACKET]);
    } else {
      ItemsFromBlank(s, i + 1, []);
      var items := ItemsDerive(s, i + 1, []);
      x := SArray([], items);
      OccursSplit(s, i, [OPEN_BRACKET], ItemsText(items));
      assert [] + NodesOf(items) == NodesOf(items);
    }
  }

  lemma {:induction false} ItemsDerive(s: Text, i: nat, nodes: seq<Node>) returns (items: seq<Item>)
    requires i <= |s|
    requires ReadItems(s, i, nodes).Ok? && ReadItems(s, i, nodes).value.done
    requires ItemsWhole(ReadItems(s, i, nodes).value.items)
    ensures items != [] && forall k :: 0 <= k < |items| ==> ValidItem(items[k])
    ensures ReadItems(s, i, nodes).value.items == nodes + NodesOf(items)
    ensures Occurs(s, i, ItemsText(items)) && i + |ItemsText(items)| == ReadItems(s, i, nodes).next
    decreases |s| - i, 5
  {
    hide ReadItems, ReadTurn, Occurs, Whole, ValidItem, ItemText, ItemsText, ItemsRest, NodesOf, NodeOf;
    var turn := ReadTurn(s, i, CLOSE_BRACKET);
    ItemAdded(s, i, nodes, turn);
    ItemsKept(s, i, nodes);
    if turn.Last? {
      assert ReadItems(s, i, nodes).value.items[|nodes|] == turn.node;
      var item := TurnDerives(s, i, CLOSE_BRACKET, turn);
      items := [item];
      ItemsUnfold(items);
      OccursOne(s, turn.next - 1, CLOSE_BRACKET);
      OccursSplit(s, i, ItemText(item), [CLOSE_BRACKET]);
    } else {
      ItemsKept(s, turn.next, nodes + [turn.node]);
      assert ReadItems(s, i, nodes).value.items[|nodes|] == turn.node;
      var item := TurnDerives(s, i, CLOSE_BRACKET, turn);
      var rest := ItemsDerive(s, turn.next, nodes + [turn.node]);
      items := [item] + rest;
      ItemsUnfold(items);
      assert items[1..] == rest;
      OccursOne(s, turn.next - 1, COMMA);
      OccursSplit(s, turn.next - 1, [COMMA], ItemsText(rest));
      OccursSplit(s, i, ItemText(item), ItemsRest(items));
      Regroups(nodes, [turn.node], NodesOf(rest));
    }
  }

  lemma {:induction false} EmptyObjectDerives(s: Text, i: nat, j: nat) returns (x: Syntax)
    requires i < |s| && s[i] == OPEN_BRACE
    requires j == RunEnd(s, i + 1, Blanks) && j < |s| && s[j] == CLOSE_BRACE
    ensures Valid(x) && x.SObject? && NodeOf(x) == Obj([], true)
    ensures Occurs(s, i, TextOf(x)) && i + |TextOf(x)| == j + 1
  {
    hide Occurs, RunEnd;
    BlankRun(s, i + 1);
    OccursOne(s, i, OPEN_BRACE);
    OccursOne(s, j, CLOSE_BRACE);
    x := SObject(s[i + 1..j], []);
    OccursSplit(s, i + 1, x.blank, [CLOSE_BRACE]);
    OccursSplit(s, i, [OPEN_BRACE], x.blank + [CLOSE_BRACE]);
  }

  lemma {:induction false} ObjectDerives(s: Text, i: nat) returns (x: Syntax)
    requires i < |s| && s[i] == OPEN_BRACE
    requires ReadObject(s, i).Ok? && ReadObject(s, i).value.done && Whole(ReadObject(s, i).value)
    ensures Valid(x) && x.SObject? && NodeOf(x) == ReadObject(s, i).value
    ensures Occurs(s, i, TextOf(x)) && i + |TextOf(x)| == ReadObject(s, i).next
    decreases |s| - i, 2
  {
    hide ReadMembers, ReadKey, Occurs, RunEnd, PairsText;
    var j := RunEnd(s, i + 1, Blanks);
    OccursOne(s, i, OPEN_BRACE);
    if s[j] == CLOSE_BRACE {
      x := EmptyObjectDerives(s, i, j);
    } else {
      MembersFromBlank(s, i + 1, []);
      var members := MembersDerive(s, i + 1, []);
      x := SObject([], members);
      OccursSplit(s, i, [OPEN_BRACE], PairsText(members));
      assert [] + MembersOf(members) == MembersOf(members);
    }
  }

  /** A key and its colon. */
  lemma {:induction false} KeyDerives(s: Text, i: nat) returns (before: Text, key: seq<Character>, gap: Text)
    requires i <= |s| && ReadKey(s, i).Key?
    ensures AllBlank(before) && ValidCharacters(key) && AllBlank(gap)
    ensures ReadKey(s, i).key == CharactersValue(key)
    ensures var t := before + (StringText(key) + (gap + [COLON]));
            Occurs(s, i, t) && i + |t| == ReadKey(s, i).colon + 1
  {
    hide ReadString, Occurs, StringText;
    var start := RunEnd(s, i, Blanks);
    var next := ReadString(s, start).next;
    var colon := RunEnd(s, next, Blanks);
    BlankRun(s, i);
    before := s[i..start];
    key := StringDerives(s, start);
    BlankRun(s, next);
    gap := s[next..colon];
    OccursOne(s, colon, COLON);
    OccursSplit(s, next, gap, [COLON]);
    OccursSplit(s, start, StringText(key), gap + [COLON]);
    OccursSplit(s, i, before, StringText(key) + (gap + [COLON]));
  }

  /** The text of one member and what stands behind it. */
  lemma {:induction false} PairOccurs(s: Text, i: nat, pair: Pair, mark: Code, rest: Text)
    requires Occurs(s, i, KeyText(pair)) && Occurs(s, i + |KeyText(pair)|, ItemText(pair.item))
    requires var end := i + |KeyText(pair)| + |ItemText(pair.item)|;
      end < |s| && s[end] == mark && Occurs(s, end + 1, rest)
    ensures Occurs(s, i, KeyText(pair) + (ItemText(pair.item) + ([mark] + rest)))
  {
    hide Occurs, KeyText, ItemText;
    var j := i + |KeyText(pair)|;
    var end := j + |ItemText(pair.item)|;
    OccursOne(s, end, mark);
    OccursSplit(s, end, [mark], rest);
    OccursSplit(s, j, ItemText(pair.item), [mark] + rest);
    OccursSplit(s, i, KeyText(pair), ItemText(pair.item) + ([mark] + rest));
  }

  lemma {:induction false} NothingOccurs(s: Text, i: nat, c: Code)
    ensures i <= |s| ==> Occurs(s, i, [])
    ensures [c] + [] == [c]
  {
  }

  lemma {:induction false} MembersDerive(s: Text, i: nat, nodes: seq<Member>) returns (members: seq<Pair>)
    requires i <= |s|
    requires ReadMembers(s, i, nodes).Ok? && ReadMembers(s, i, nodes).value.done
    requires MembersWhole(ReadMembers(s, i, nodes).value.members)
    ensures members != [] && forall k :: 0 <= k < |members| ==> ValidPair(members[k])
    ensures ReadMembers(s, i, nodes).value.members == nodes + MembersOf(members)
    ensures Occurs(s, i, PairsText(members)) && i + |PairsText(members)| == ReadMembers(s, i, nodes).next
    decreases |s| - i, 5
  {
    hide ReadMembers, ReadKey, ReadTurn, AfterTurn, Occurs, Whole, ValidItem, ItemText, KeyText, StringText, PairsText,
      PairsRest, MembersOf, NodeOf, CharactersValue;
    var key := ReadKey(s, i);
    MembersTurn(s, i, nodes, key);
    MembersKept(s, i, nodes);
    var j := key.colon + 1;
    var turn := ReadTurn(s, j, CLOSE_BRACE);
    MemberAdded(s, j, nodes, key.key, turn);
    var member := TurnMember(key.key, turn);
    if turn.More? {
      MembersKept(s, turn.next, nodes + [member]);
    }
    assert ReadMembers(s, i, nodes).value.members[|nodes|] == member;
    var before, characters, gap := KeyDerives(s, i);
    var item := TurnDerives(s, j, CLOSE_BRACE, turn);
    var pair := Pair(before, characters, gap, item);
    KeyTextIs(pair);
    if turn.Last? {
      members := [pair];
      PairsUnfold(members);
      NothingOccurs(s, turn.next, CLOSE_BRACE);
      PairOccurs(s, i, pair, CLOSE_BRACE, []);
    } else {
      var rest := MembersDerive(s, turn.next, nodes + [member]);
      members := [pair] + rest;
      PairsUnfold(members);
      assert members[1..] == rest;
      PairOccurs(s, i, pair, COMMA, PairsText(rest));
      Regroups(nodes, [member], MembersOf(rest));
    }
  }

  lemma {:induction false} KeyTextIs(pair: Pair)
    ensures KeyText(pair) == pair.before + (StringText(pair.key) + (pair.gap + [COLON]))
  {
  }

  /** The text of an object of RFC 8259, with blanks around it. */
  ghost predicate IsCardText(s: Text) {
    exists before, x, after :: IsCardTextOf(s, before, x, after)
  }

  ghost predicate IsCardTextOf(s: Text, before: Text, x: Syntax, after: Text) {
    && Valid(x) && x.SObject? && AllBlank(before) && AllBlank(after)
    && s == before + TextOf(x) + after
  }

  /** The parser finishes an object whose tokens are all whole exactly on the texts of the
      grammar. */
  lemma {:induction false} GrammarIff(s: Text)
    ensures IsCardText(s) <==> ReadCard(s).Ok? && ReadCard(s).value.done && Whole(ReadCard(s).value)
  {
    hide ReadObject, Whole, Occurs, Valid, AllBlank, TextOf, NodeOf;
    if IsCardText(s) {
      var before, x, after :| IsCardTextOf(s, before, x, after);
      ReadsCard(before, x, after);
      TreeIsWhole(x);
    }
    if ReadCard(s).Ok? && ReadCard(s).value.done && Whole(ReadCard(s).value) {
      CardDerives(s);
    }
  }

  lemma {:induction false} CardDerives(s: Text)
    requires ReadCard(s).Ok? && ReadCard(s).value.done && Whole(ReadCard(s).value)
    ensures IsCardText(s)
  {
    hide ReadObject, Whole, Occurs, Valid, AllBlank, TextOf, NodeOf, IsBlank;
    var i := RunEnd(s, 0, Blanks);
    var x := ObjectDerives(s, i);
    var next := ReadObject(s, i).next;
    SplitAround(s, i, x, next);
    BlankRun(s, 0);
    BlankRun(s, next);
    assert s[0..i] == s[..i] && s[next..|s|] == s[next..];
    assert IsCardTextOf(s, s[..i], x, s[next..]);
  }

  lemma {:induction false} SplitAround(s: Text, i: nat, x: Syntax, next: nat)
    requires Occurs(s, i, TextOf(x)) && next == i + |TextOf(x)|
    ensures next <= |s| && s == s[..i] + TextOf(x) + s[next..]
  {
    hide TextOf;
  }
}
