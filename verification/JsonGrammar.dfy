/** The grammar of RFC 8259, as trees that carry every choice a writer has: which blanks,
    which escapes, which spelling of a number. `TextOf` prints a tree. What the standard lists
    is listed here as literals, apart from how the parser tells it. */
module JsonGrammar {
  import opened JsonText
  import opened NumberToken
  import opened PartialReader

  /** `c` is the character that is meant; the rest is how it is spelled. */
  datatype Character = Plain(c: Code) | Escaped(letter: Code, c: Code) | Unicode(digits: Text, c: Code)

  datatype Syntax =
    | SLiteral(token: Text)
    | SNumber(token: Text)
    | SString(characters: seq<Character>)
    | SArray(blank: Text, items: seq<Item>)
    | SObject(blank: Text, members: seq<Pair>)

  datatype Item = Item(before: Text, val: Syntax, after: Text)

  datatype Pair = Pair(before: Text, key: seq<Character>, gap: Text, item: Item)

  // ----- what the standard lists

  /** White space (section 2). */
  predicate IsWhite(c: Code) {
    c in Codes(" \t\n\r")
  }

  /** The escapes of two characters (section 7). */
  const ESCAPES: seq<(char, Code)> :=
    [('\"', 0x22), ('\\', 0x5C), ('/', 0x2F), ('b', 0x08), ('f', 0x0C), ('n', 0x0A), ('r', 0x0D), ('t', 0x09)]

  ghost predicate IsEscape(letter: Code, c: Code) {
    exists k :: 0 <= k < |ESCAPES| && ESCAPES[k].0 as int == letter && ESCAPES[k].1 == c
  }

  const LOWER_HEX := "0123456789abcdef"
  const UPPER_HEX := "0123456789ABCDEF"

  predicate IsHexDigit(digit: Code, n: nat) {
    n < 16 && (LOWER_HEX[n] as int == digit || UPPER_HEX[n] as int == digit)
  }

  /** Four hexadecimal digits spell the number. */
  ghost predicate SpellsHex(digits: Text, n: nat) {
    && |digits| == 4
    && exists p: nat, q: nat, r: nat, t: nat ::
         && IsHexDigit(digits[0], p) && IsHexDigit(digits[1], q) && IsHexDigit(digits[2], r) && IsHexDigit(digits[3], t)
         && n == ((p * 16 + q) * 16 + r) * 16 + t
  }

  /** The literal names (section 3). */
  predicate IsLiteralName(t: Text) {
    t == Codes("true") || t == Codes("false") || t == Codes("null")
  }

  /** `number = [ minus ] int [ frac ] [ exp ]` (section 6), in the characters of `SignsAre`. */
  ghost predicate IsNumberText(t: Text) {
    exists p :: IsGrammatical(p) && Join(p) == t
  }

  lemma {:induction false} SignsAre(c: Code)
    ensures IsDigit(c) <==> c in Codes("0123456789")
    ensures IsSign(c) <==> c in Codes("+-")
    ensures IsMark(c) <==> c in Codes("eE")
    ensures Codes("0") == [0x30] && Codes("-") == [MINUS] && Codes(".") == [DOT]
  {
    assert IsDigit(c) ==> "0123456789"[c - 0x30] as int == c;
    assert Codes("+-")[0] == 0x2B && Codes("+-")[1] == 0x2D;
    assert Codes("eE")[0] == 0x65 && Codes("eE")[1] == 0x45;
  }

  // ----- how the parser tells it

  lemma {:induction false} WhiteIs(c: Code)
    ensures IsWhite(c) <==> IsBlank(c)
  {
    var t := Codes(" \t\n\r");
    assert t[0] == 0x20 && t[1] == 0x09 && t[2] == 0x0A && t[3] == 0x0D;
  }

  lemma {:induction false} EscapeIs(letter: Code, c: Code)
    ensures IsEscape(letter, c) <==> Unescape(letter) == Some(c)
  {
    var k := if letter == 0x22 then 0 else if letter == 0x5C then 1 else if letter == 0x2F then 2 else if letter == 0x62 then 3
             else if letter == 0x66 then 4 else if letter == 0x6E then 5 else if letter == 0x72 then 6 else 7;
    assert Unescape(letter) == Some(c) ==> ESCAPES[k].0 as int == letter && ESCAPES[k].1 == c;
  }

  lemma {:induction false} HexIs(digit: Code, n: nat)
    ensures IsHexDigit(digit, n) <==> IsHex(digit) && HexDigit(digit) == n
  {
  }

  lemma {:induction false} SpelledIs(digits: Text, n: nat)
    ensures SpellsHex(digits, n) <==>
      |digits| == 4 && FourHex(digits, 0) && HexValue(digits[0], digits[1], digits[2], digits[3]) == n
  {
    hide IsHexDigit;
    if |digits| == 4 {
      forall k: nat, m: nat | k < 4
        ensures IsHexDigit(digits[k], m) <==> IsHex(digits[k]) && HexDigit(digits[k]) == m
      {
        HexIs(digits[k], m);
      }
      if FourHex(digits, 0) {
        assert IsHexDigit(digits[0], HexDigit(digits[0])) && IsHexDigit(digits[1], HexDigit(digits[1]));
        assert IsHexDigit(digits[2], HexDigit(digits[2])) && IsHexDigit(digits[3], HexDigit(digits[3]));
      }
    }
  }

  lemma {:induction false} LiteralIs(t: Text)
    ensures IsLiteralName(t) <==> IsLiteral(t)
  {
    NamesAre();
  }

  lemma {:induction false} NamesAre()
    ensures Codes("true") == TRUE && Codes("false") == FALSE && Codes("null") == NULL
    ensures Codes("\"") == [QUOTE] && Codes("\\") == [BACKSLASH]
  {
  }

  // ----- trees

  predicate AllBlank(t: Text) {
    forall k :: 0 <= k < |t| ==> IsWhite(t[k])
  }

  ghost predicate ValidCharacter(ch: Character) {
    match ch
    case Plain(c) => c >= 0x20 && [c] != Codes("\"") && [c] != Codes("\\")
    case Escaped(letter, c) => IsEscape(letter, c)
    case Unicode(digits, c) => SpellsHex(digits, c)
  }

  ghost predicate ValidCharacters(characters: seq<Character>) {
    forall k :: 0 <= k < |characters| ==> ValidCharacter(characters[k])
  }

  ghost predicate Valid(x: Syntax) {
    match x
    case SLiteral(token) => IsLiteralName(token)
    case SNumber(token) => IsNumberText(token)
    case SString(characters) => ValidCharacters(characters)
    case SArray(blank, items) => AllBlank(blank) && forall k :: 0 <= k < |items| ==> ValidItem(items[k])
    case SObject(blank, members) => AllBlank(blank) && forall k :: 0 <= k < |members| ==> ValidPair(members[k])
  }

  ghost predicate ValidItem(item: Item) {
    AllBlank(item.before) && Valid(item.val) && AllBlank(item.after)
  }

  ghost predicate ValidPair(pair: Pair) {
    AllBlank(pair.before) && ValidCharacters(pair.key) && AllBlank(pair.gap) && ValidItem(pair.item)
  }

  // ----- printing

  function CharacterText(ch: Character): Text {
    match ch
    case Plain(c) => [c]
    case Escaped(letter, _) => [BACKSLASH, letter]
    case Unicode(digits, _) => [BACKSLASH, LOWER_U] + digits
  }

  function CharactersText(characters: seq<Character>): Text {
    if characters == [] then [] else CharacterText(characters[0]) + CharactersText(characters[1..])
  }

  function StringText(characters: seq<Character>): Text {
    [QUOTE] + (CharactersText(characters) + [QUOTE])
  }

  function TextOf(x: Syntax): Text {
    match x
    case SLiteral(token) => token
    case SNumber(token) => token
    case SString(characters) => StringText(characters)
    case SArray(blank, items) =>
      [OPEN_BRACKET] + if items == [] then blank + [CLOSE_BRACKET] else ItemsText(items)
    case SObject(blank, members) =>
      [OPEN_BRACE] + if members == [] then blank + [CLOSE_BRACE] else PairsText(members)
  }

  function ItemText(item: Item): Text {
    item.before + (TextOf(item.val) + item.after)
  }

  /** The items of an array, separated by commas, and the closing bracket. */
  function ItemsText(items: seq<Item>): Text
    decreases items, 1
  {
    if items == [] then [CLOSE_BRACKET] else ItemText(items[0]) + ItemsRest(items)
  }

  function ItemsRest(items: seq<Item>): Text
    requires items != []
    decreases items, 0
  {
    if |items| == 1 then [CLOSE_BRACKET] else [COMMA] + ItemsText(items[1..])
  }

  function KeyText(pair: Pair): Text {
    pair.before + (StringText(pair.key) + (pair.gap + [COLON]))
  }

  /** The members of an object, separated by commas, and the closing brace. */
  function PairsText(members: seq<Pair>): Text
    decreases members, 1
  {
    if members == [] then [CLOSE_BRACE] else KeyText(members[0]) + (ItemText(members[0].item) + PairsRest(members))
  }

  function PairsRest(members: seq<Pair>): Text
    requires members != []
    decreases members, 0
  {
    if |members| == 1 then [CLOSE_BRACE] else [COMMA] + PairsText(members[1..])
  }

  // ----- meaning

  function CharactersValue(characters: seq<Character>): Text {
    if characters == [] then [] else [characters[0].c] + CharactersValue(characters[1..])
  }

  /** The node a tree stands for. */
  function NodeOf(x: Syntax): (node: Node)
    ensures node.done
  {
    match x
    case SLiteral(token) => Literal(token, true)
    case SNumber(token) => Number(token, true)
    case SString(characters) => Str(CharactersValue(characters), true)
    case SArray(_, items) => Arr(NodesOf(items), true)
    case SObject(_, members) => Obj(MembersOf(members), true)
  }

  function NodesOf(items: seq<Item>): seq<Node> {
    if items == [] then [] else [NodeOf(items[0].val)] + NodesOf(items[1..])
  }

  function MemberOf(pair: Pair): Member {
    Member(CharactersValue(pair.key), Some(NodeOf(pair.item.val)))
  }

  function MembersOf(members: seq<Pair>): seq<Member> {
    if members == [] then [] else [MemberOf(members[0])] + MembersOf(members[1..])
  }

  // ----- one step of each list, so that proofs can hide the lists themselves

  lemma {:induction false} CharactersUnfold(characters: seq<Character>)
    requires characters != []
    ensures CharactersText(characters) == CharacterText(characters[0]) + CharactersText(characters[1..])
    ensures CharactersValue(characters) == [characters[0].c] + CharactersValue(characters[1..])
  {
  }

  lemma {:induction false} ItemsUnfold(items: seq<Item>)
    requires items != []
    ensures ItemsText(items) == ItemText(items[0]) + ItemsRest(items)
    ensures ItemsRest(items) == if |items| == 1 then [CLOSE_BRACKET] else [COMMA] + ItemsText(items[1..])
    ensures NodesOf(items) == if |items| == 1 then [NodeOf(items[0].val)] else [NodeOf(items[0].val)] + NodesOf(items[1..])
  {
  }

  lemma {:induction false} PairsUnfold(members: seq<Pair>)
    requires members != []
    ensures PairsText(members) == KeyText(members[0]) + (ItemText(members[0].item) + PairsRest(members))
    ensures PairsRest(members) == if |members| == 1 then [CLOSE_BRACE] else [COMMA] + PairsText(members[1..])
    ensures MembersOf(members) == if |members| == 1 then [MemberOf(members[0])] else [MemberOf(members[0])] + MembersOf(members[1..])
  {
  }

  // ----- texts inside buffers

  predicate Occurs(s: Text, i: nat, t: Text) {
    i + |t| <= |s| && s[i..i + |t|] == t
  }

  lemma {:induction false} OccursSplit(s: Text, i: nat, a: Text, b: Text)
    ensures Occurs(s, i, a + b) <==> Occurs(s, i, a) && Occurs(s, i + |a|, b)
    ensures Occurs(s, i, a + b) ==> i + |a| + |b| <= |s|
  {
    if i + |a + b| <= |s| {
      var w := s[i..i + |a + b|];
      assert w[..|a|] == s[i..i + |a|];
      assert w[|a|..] == s[i + |a|..i + |a| + |b|];
      assert (a + b)[..|a|] == a && (a + b)[|a|..] == b;
      assert w == w[..|a|] + w[|a|..];
    }
  }

  lemma {:induction false} OccursAt(s: Text, i: nat, t: Text, k: nat)
    requires Occurs(s, i, t) && k < |t|
    ensures i + k < |s| && s[i + k] == t[k]
  {
    assert s[i..i + |t|][k] == s[i + k];
  }

  lemma {:induction false} OccursOne(s: Text, i: nat, c: Code)
    ensures Occurs(s, i, [c]) <==> i < |s| && s[i] == c
  {
    if i < |s| {
      assert s[i..i + 1] == [s[i]];
    }
  }

  /** Blanks, then something that is not blank. */
  lemma {:induction false} BlanksEnd(s: Text, i: nat, t: Text)
    requires Occurs(s, i, t) && AllBlank(t)
    requires i + |t| < |s| ==> !IsBlank(s[i + |t|])
    ensures RunEnd(s, i, Blanks) == i + |t|
  {
    forall k | i <= k < i + |t|
      ensures IsBlank(s[k])
    {
      OccursAt(s, i, t, k - i);
      WhiteIs(t[k - i]);
    }
    RunEndIs(s, i, Blanks, i + |t|);
  }

  // ----- printed texts are read back

  lemma {:induction false} ReadsCharacters(s: Text, i: nat, characters: seq<Character>, text: Text)
    requires ValidCharacters(characters) && Occurs(s, i, CharactersText(characters) + [QUOTE])
    ensures var n := |CharactersText(characters)| + 1;
            i + n <= |s|
            && ReadCharacters(s, i, text) == StringOk(StringToken(text + CharactersValue(characters), true, false), i + n)
    decreases characters
  {
    hide CharactersText, CharactersValue, CharacterText, ReadCharacters, Occurs, ValidCharacter;
    NoCharacters();
    OccursSplit(s, i, CharactersText(characters), [QUOTE]);
    OccursOne(s, i + |CharactersText(characters)|, QUOTE);
    if characters == [] {
      ReadsQuote(s, i, text);
      assert text + [] == text;
    } else {
      CharactersUnfold(characters);
      var ch, rest := characters[0], characters[1..];
      var head := CharacterText(ch);
      OccursSplit(s, i, head, CharactersText(rest));
      OccursSplit(s, i + |head|, CharactersText(rest), [QUOTE]);
      ReadsCharacter(s, i, ch, text);
      ReadsCharacters(s, i + |head|, rest, text + [ch.c]);
      assert text + [ch.c] + CharactersValue(rest) == text + CharactersValue(characters);
    }
  }

  lemma {:induction false} NoCharacters()
    ensures CharactersText([]) == [] && CharactersValue([]) == []
  {
  }

  lemma {:induction false} ReadsQuote(s: Text, i: nat, text: Text)
    requires i < |s| && s[i] == QUOTE
    ensures ReadCharacters(s, i, text) == StringOk(StringToken(text, true, false), i + 1)
  {
  }

  lemma {:induction false} ReadsCharacter(s: Text, i: nat, ch: Character, text: Text)
    requires ValidCharacter(ch) && Occurs(s, i, CharacterText(ch))
    ensures i + |CharacterText(ch)| <= |s|
    ensures ReadCharacters(s, i, text) == ReadCharacters(s, i + |CharacterText(ch)|, text + [ch.c])
  {
    hide Codes, IsEscape, SpellsHex, Unescape, HexValue, IsHex, ReadCharacters;
    var t := CharacterText(ch);
    OccursAt(s, i, t, 0);
    NamesAre();
    match ch
    case Plain(c) =>
      ReadsPlain(s, i, text);
    case Escaped(letter, c) =>
      EscapeIs(letter, c);
      OccursAt(s, i, t, 1);
      EscapeIsNotU(letter);
      ReadsEscape(s, i, text);
    case Unicode(digits, c) =>
      SpelledIs(digits, c);
      OccursAt(s, i, t, 1);
      OccursAt(s, i, t, 2);
      OccursAt(s, i, t, 3);
      OccursAt(s, i, t, 4);
      OccursAt(s, i, t, 5);
      ReadsHex(s, i, text);
  }

  lemma {:induction false} EscapeIsNotU(letter: Code)
    ensures Unescape(letter).Some? ==> letter != LOWER_U
  {
  }

  // ----- one character of a string, unrolled

  lemma {:induction false} ReadsPlain(s: Text, i: nat, text: Text)
    requires i < |s| && s[i] != QUOTE && s[i] != BACKSLASH && s[i] >= 0x20
    ensures ReadCharacters(s, i, text) == ReadCharacters(s, i + 1, text + [s[i]])
  {
  }

  lemma {:induction false} ReadsEscape(s: Text, i: nat, text: Text)
    requires i + 1 < |s| && s[i] == BACKSLASH && s[i + 1] != LOWER_U
    ensures ReadCharacters(s, i, text) ==
      match Unescape(s[i + 1])
      case None => StringFail
      case Some(c) => ReadCharacters(s, i + 2, text + [c])
  {
    hide Unescape;
  }

  lemma {:induction false} ReadsHex(s: Text, i: nat, text: Text)
    requires i + 1 < |s| && s[i] == BACKSLASH && s[i + 1] == LOWER_U
    ensures i + 6 <= |s| ==>
      ReadCharacters(s, i, text) ==
        if FourHex(s, i + 2) then ReadCharacters(s, i + 6, text + [HexValue(s[i + 2], s[i + 3], s[i + 4], s[i + 5])])
        else StringFail
    ensures i + 6 > |s| ==> ReadCharacters(s, i, text) == StringOk(StringToken(text, false, ClosesString(s, i + 2)), |s|)
  {
    hide HexValue, ClosesString;
  }

  lemma {:induction false} ReadsString(s: Text, i: nat, characters: seq<Character>)
    requires ValidCharacters(characters) && Occurs(s, i, StringText(characters))
    ensures ReadString(s, i) == StringOk(StringToken(CharactersValue(characters), true, false), i + |StringText(characters)|)
  {
    hide ReadCharacters;
    OccursSplit(s, i, [QUOTE], CharactersText(characters) + [QUOTE]);
    OccursOne(s, i, QUOTE);
    ReadsCharacters(s, i + 1, characters, []);
  }

  /** Literals and numbers need a character behind them that ends them. */
  predicate Ended(s: Text, j: nat, x: Syntax) {
    x.SLiteral? || x.SNumber? ==> j < |s| && IsDelimiter(s[j])
  }

  lemma {:induction false} ReadsLiteral(s: Text, i: nat, token: Text)
    requires IsLiteral(token) && Occurs(s, i, token)
    requires i + |token| < |s| && IsDelimiter(s[i + |token|])
    ensures ReadValue(s, i) == Ok(Literal(token, true), i + |token|, BetweenTokens)
  {
    forall k | i <= k < i + |token|
      ensures IsLetter(s[k])
    {
      OccursAt(s, i, token, k - i);
    }
    OccursAt(s, i, token, 0);
    RunEndIs(s, i, Letters, i + |token|);
  }

  /** A number starts with a digit or a minus. */
  lemma {:induction false} NumberStarts(token: Text)
    requires IsTolerated(token) && token != [] && token[0] != DOT
    ensures token[0] == MINUS || IsDigit(token[0])
  {
    if |token| > 1 {
      NumberStarts(token[..|token| - 1]);
    } else {
      assert StateOf(token[..0]) == Start;
    }
  }

  lemma {:induction false} NumberHasNoBarePoint(token: Text)
    requires token != [] && token[0] == DOT
    ensures StateOf(token) in {BarePoint, Dead}
  {
    if |token| > 1 {
      NumberHasNoBarePoint(token[..|token| - 1]);
    } else {
      assert StateOf(token[..0]) == Start;
    }
  }

  lemma {:induction false} ReadsNumber(s: Text, i: nat, token: Text)
    requires IsNumber(token) && Occurs(s, i, token)
    requires i + |token| < |s| && IsDelimiter(s[i + |token|])
    ensures ReadValue(s, i) == Ok(Number(token, true), i + |token|, BetweenTokens)
  {
    forall k | i <= k < i + |token|
      ensures !IsDelimiter(s[k])
    {
      OccursAt(s, i, token, k - i);
      ToleratedCharacters(token, k - i);
    }
    if token[0] == DOT {
      NumberHasNoBarePoint(token);
    }
    NumberStarts(token);
    OccursAt(s, i, token, 0);
    RunEndIs(s, i, NumberBody, i + |token|);
  }

  /** No value starts with a blank or with a closer. */
  lemma {:induction false} TextStarts(x: Syntax)
    requires Valid(x)
    ensures TextOf(x) != []
    ensures !IsBlank(TextOf(x)[0]) && TextOf(x)[0] != CLOSE_BRACKET && TextOf(x)[0] != CLOSE_BRACE
  {
    hide Codes;
    if x.SLiteral? {
      LiteralIs(x.token);
    }
    if x.SNumber? {
      NumberIsGrammatical(x.token);
      if x.token[0] == DOT {
        NumberHasNoBarePoint(x.token);
      }
      NumberStarts(x.token);
    }
  }

  lemma {:induction false} ReadsValue(s: Text, i: nat, x: Syntax)
    requires Valid(x) && Occurs(s, i, TextOf(x)) && Ended(s, i + |TextOf(x)|, x)
    ensures ReadValue(s, i) == Ok(NodeOf(x), i + |TextOf(x)|, BetweenTokens)
    decreases x, 1
  {
    hide ReadString, ReadArray, ReadObject, ReadLiteral, ReadNumber, Codes, IsLiteral, IsNumber;
    TextStarts(x);
    OccursAt(s, i, TextOf(x), 0);
    match x
    case SLiteral(token) =>
      LiteralIs(token);
      ReadsLiteral(s, i, token);
    case SNumber(token) =>
      NumberIsGrammatical(token);
      ReadsNumber(s, i, token);
    case SString(characters) => ReadsString(s, i, characters);
    case SArray(blank, items) => ReadsArray(s, i, blank, items);
    case SObject(blank, members) => ReadsObject(s, i, blank, members);
  }

  lemma {:induction false} ReadsArray(s: Text, i: nat, blank: Text, items: seq<Item>)
    requires Valid(SArray(blank, items)) && Occurs(s, i, TextOf(SArray(blank, items)))
    requires i < |s| && s[i] == OPEN_BRACKET
    ensures ReadArray(s, i) == Ok(NodeOf(SArray(blank, items)), i + |TextOf(SArray(blank, items))|, BetweenTokens)
    decreases items, 2
  {
    hide ReadItems;
    if items == [] {
      OccursSplit(s, i, [OPEN_BRACKET], blank + [CLOSE_BRACKET]);
      OccursSplit(s, i + 1, blank, [CLOSE_BRACKET]);
      OccursOne(s, i + 1 + |blank|, CLOSE_BRACKET);
      BlanksEnd(s, i + 1, blank);
    } else {
      OccursSplit(s, i, [OPEN_BRACKET], ItemsText(items));
      ItemsStart(s, i + 1, items);
      ReadsItems(s, i + 1, items, []);
      ItemsFromBlank(s, i + 1, []);
      assert [] + NodesOf(items) == NodesOf(items);
    }
  }

  /** The loop may start at the blanks or behind them. */
  lemma {:induction false} ItemsFromBlank(s: Text, i: nat, nodes: seq<Node>)
    requires i <= |s|
    ensures ReadItems(s, RunEnd(s, i, Blanks), nodes) == ReadItems(s, i, nodes)
  {
    hide ReadItems, ReadValue;
    var j := RunEnd(s, i, Blanks);
    RunEndIs(s, j, Blanks, j);
    ItemAdded(s, i, nodes, ReadTurn(s, i, CLOSE_BRACKET));
    ItemAdded(s, j, nodes, ReadTurn(s, j, CLOSE_BRACKET));
  }

  lemma {:induction false} ItemsStart(s: Text, i: nat, items: seq<Item>)
    requires items != [] && ValidItem(items[0]) && Occurs(s, i, ItemsText(items))
    ensures var j := RunEnd(s, i, Blanks); j < |s| && s[j] != CLOSE_BRACKET
  {
    hide ItemText, ItemsRest, Valid;
    OccursSplit(s, i, ItemText(items[0]), ItemsRest(items));
    ItemStart(s, i, items[0]);
  }

  /** Where the value of an item starts. */
  lemma {:induction false} ItemStart(s: Text, i: nat, item: Item)
    requires ValidItem(item) && Occurs(s, i, ItemText(item))
    ensures var j := i + |item.before|;
            && j < |s| && RunEnd(s, i, Blanks) == j
            && s[j] != CLOSE_BRACKET && s[j] != CLOSE_BRACE
            && Occurs(s, j, TextOf(item.val))
            && Occurs(s, j + |TextOf(item.val)|, item.after)
  {
    hide TextOf, Valid, Occurs, RunEnd, AllBlank;
    var j := i + |item.before|;
    OccursSplit(s, i, item.before, TextOf(item.val) + item.after);
    OccursSplit(s, j, TextOf(item.val), item.after);
    TextStarts(item.val);
    OccursAt(s, j, TextOf(item.val), 0);
    BlanksEnd(s, i, item.before);
  }

  lemma {:induction false} ReadsTurn(s: Text, i: nat, item: Item, closer: Code)
    requires ValidItem(item) && Occurs(s, i, ItemText(item))
    requires closer == CLOSE_BRACKET || closer == CLOSE_BRACE
    requires var j := i + |ItemText(item)|; j < |s| && (s[j] == closer || s[j] == COMMA)
    ensures var j := i + |ItemText(item)|;
            ReadTurn(s, i, closer) ==
              if s[j] == closer then Last(NodeOf(item.val), j + 1, true, BetweenTokens) else More(NodeOf(item.val), j + 1)
    decreases item, 2
  {
    hide ReadValue, ReadTurn, RunEnd, Ended, Occurs, TextOf, NodeOf, Valid;
    ItemStart(s, i, item);
    var start := i + |item.before|;
    var next := start + |TextOf(item.val)|;
    ItemEnded(s, next, item, closer);
    ReadsValue(s, start, item.val);
    TurnRead(s, i, closer, start, NodeOf(item.val), next);
  }

  lemma {:induction false} ItemEnded(s: Text, next: nat, item: Item, closer: Code)
    requires Occurs(s, next, item.after) && AllBlank(item.after)
    requires closer == CLOSE_BRACKET || closer == CLOSE_BRACE
    requires var j := next + |item.after|; j < |s| && (s[j] == closer || s[j] == COMMA)
    ensures Ended(s, next, item.val) && RunEnd(s, next, Blanks) == next + |item.after|
  {
    hide Occurs, RunEnd;
    if item.after != [] {
      OccursAt(s, next, item.after, 0);
    }
    BlanksEnd(s, next, item.after);
  }

  lemma {:induction false} TurnRead(s: Text, i: nat, closer: Code, start: nat, node: Node, next: nat)
    requires i <= start < |s| && next <= |s| && RunEnd(s, i, Blanks) == start && ReadValue(s, start) == Ok(node, next, BetweenTokens)
    requires var j := RunEnd(s, next, Blanks); j < |s| && (s[j] == closer || s[j] == COMMA)
    ensures var j := RunEnd(s, next, Blanks);
      ReadTurn(s, i, closer) == if s[j] == closer then Last(node, j + 1, true, BetweenTokens) else More(node, j + 1)
  {
    hide ReadValue, RunEnd;
  }

  lemma {:induction false} ReadsItems(s: Text, i: nat, items: seq<Item>, nodes: seq<Node>)
    requires items != [] && (forall k :: 0 <= k < |items| ==> ValidItem(items[k]))
    requires Occurs(s, i, ItemsText(items))
    ensures ReadItems(s, i, nodes) == Ok(Arr(nodes + NodesOf(items), true), i + |ItemsText(items)|, BetweenTokens)
    decreases items, 1
  {
    hide ReadItems, ReadTurn, ItemText, ItemsText, ItemsRest, NodesOf, ValidItem, Occurs, NodeOf;
    ItemsUnfold(items);
    var item := items[0];
    var j := i + |ItemText(item)|;
    OccursSplit(s, i, ItemText(item), ItemsRest(items));
    ItemAdded(s, i, nodes, ReadTurn(s, i, CLOSE_BRACKET));
    if |items| == 1 {
      OccursOne(s, j, CLOSE_BRACKET);
      ReadsTurn(s, i, item, CLOSE_BRACKET);
    } else {
      OccursSplit(s, j, [COMMA], ItemsText(items[1..]));
      OccursOne(s, j, COMMA);
      ReadsTurn(s, i, item, CLOSE_BRACKET);
      ReadsItems(s, j + 1, items[1..], nodes + [NodeOf(item.val)]);
      Regroups(nodes, [NodeOf(item.val)], NodesOf(items[1..]));
    }
  }

  lemma {:induction false} ReadsObject(s: Text, i: nat, blank: Text, members: seq<Pair>)
    requires Valid(SObject(blank, members)) && Occurs(s, i, TextOf(SObject(blank, members)))
    requires i < |s| && s[i] == OPEN_BRACE
    ensures ReadObject(s, i) == Ok(NodeOf(SObject(blank, members)), i + |TextOf(SObject(blank, members))|, BetweenTokens)
    decreases members, 2
  {
    hide ReadMembers;
    if members == [] {
      OccursSplit(s, i, [OPEN_BRACE], blank + [CLOSE_BRACE]);
      OccursSplit(s, i + 1, blank, [CLOSE_BRACE]);
      OccursOne(s, i + 1 + |blank|, CLOSE_BRACE);
      BlanksEnd(s, i + 1, blank);
    } else {
      OccursSplit(s, i, [OPEN_BRACE], PairsText(members));
      PairsStart(s, i + 1, members);
      ReadsMembers(s, i + 1, members, []);
      MembersFromBlank(s, i + 1, []);
      assert [] + MembersOf(members) == MembersOf(members);
    }
  }

  lemma {:induction false} MembersFromBlank(s: Text, i: nat, nodes: seq<Member>)
    requires i <= |s|
    ensures ReadMembers(s, RunEnd(s, i, Blanks), nodes) == ReadMembers(s, i, nodes)
  {
    hide ReadMembers, ReadString;
    var j := RunEnd(s, i, Blanks);
    RunEndIs(s, j, Blanks, j);
    MembersTurn(s, i, nodes, ReadKey(s, i));
    MembersTurn(s, j, nodes, ReadKey(s, j));
  }

  lemma {:induction false} PairsStart(s: Text, i: nat, members: seq<Pair>)
    requires members != [] && ValidPair(members[0]) && Occurs(s, i, PairsText(members))
    ensures var j := RunEnd(s, i, Blanks); j < |s| && s[j] == QUOTE
  {
    hide KeyText, ItemText, PairsRest;
    OccursSplit(s, i, KeyText(members[0]), ItemText(members[0].item) + PairsRest(members));
    KeyStart(s, i, members[0]);
  }

  /** Where the key of a pair starts. */
  lemma {:induction false} KeyStart(s: Text, i: nat, pair: Pair)
    requires ValidPair(pair) && Occurs(s, i, KeyText(pair))
    ensures var j := i + |pair.before|;
            && RunEnd(s, i, Blanks) == j && j < |s| && s[j] == QUOTE
            && Occurs(s, j, StringText(pair.key))
            && Occurs(s, j + |StringText(pair.key)|, pair.gap + [COLON])
  {
    var j := i + |pair.before|;
    OccursSplit(s, i, pair.before, StringText(pair.key) + (pair.gap + [COLON]));
    OccursSplit(s, j, StringText(pair.key), pair.gap + [COLON]);
    OccursAt(s, j, StringText(pair.key), 0);
    BlanksEnd(s, i, pair.before);
  }

  lemma {:induction false} ReadsKey(s: Text, i: nat, pair: Pair)
    requires ValidPair(pair) && Occurs(s, i, KeyText(pair))
    ensures ReadKey(s, i) == Key(CharactersValue(pair.key), i + |KeyText(pair)| - 1)
  {
    hide ReadString, RunEnd, Occurs, StringText, CharactersValue, AllBlank, ValidCharacters;
    KeyStart(s, i, pair);
    var j := i + |pair.before|;
    var next := j + |StringText(pair.key)|;
    ReadsString(s, j, pair.key);
    OccursSplit(s, next, pair.gap, [COLON]);
    OccursOne(s, next + |pair.gap|, COLON);
    BlanksEnd(s, next, pair.gap);
  }

  /** One member, with the comma or brace behind it. */
  lemma {:induction false} ReadsPair(s: Text, i: nat, pair: Pair, nodes: seq<Member>)
    requires ValidPair(pair) && Occurs(s, i, KeyText(pair)) && Occurs(s, i + |KeyText(pair)|, ItemText(pair.item))
    requires var end := i + |KeyText(pair)| + |ItemText(pair.item)|; end < |s| && (s[end] == CLOSE_BRACE || s[end] == COMMA)
    ensures i <= |s|
    ensures var end := i + |KeyText(pair)| + |ItemText(pair.item)|;
            ReadMembers(s, i, nodes) ==
              if s[end] == CLOSE_BRACE then Ok(Obj(nodes + [MemberOf(pair)], true), end + 1, BetweenTokens)
              else ReadMembers(s, end + 1, nodes + [MemberOf(pair)])
    decreases pair, 1
  {
    hide ReadMembers, ReadKey, ReadTurn, AfterTurn, KeyText, ItemText, Occurs, NodeOf, ValidItem, CharactersValue;
    var key := CharactersValue(pair.key);
    var j := i + |KeyText(pair)|;
    ReadsKey(s, i, pair);
    MembersTurn(s, i, nodes, ReadKey(s, i));
    MemberAdded(s, j, nodes, key, ReadTurn(s, j, CLOSE_BRACE));
    ReadsTurn(s, j, pair.item, CLOSE_BRACE);
  }

  lemma {:induction false} ReadsMembers(s: Text, i: nat, members: seq<Pair>, nodes: seq<Member>)
    requires members != [] && (forall k :: 0 <= k < |members| ==> ValidPair(members[k]))
    requires Occurs(s, i, PairsText(members))
    ensures ReadMembers(s, i, nodes) == Ok(Obj(nodes + MembersOf(members), true), i + |PairsText(members)|, BetweenTokens)
    decreases members, 1
  {
    hide ReadMembers, KeyText, ItemText, PairsText, PairsRest, MembersOf, MemberOf, Occurs, NodeOf, ValidPair, ValidItem;
    PairsUnfold(members);
    var pair := members[0];
    var j := i + |KeyText(pair)|;
    var end := j + |ItemText(pair.item)|;
    OccursSplit(s, i, KeyText(pair), ItemText(pair.item) + PairsRest(members));
    OccursSplit(s, j, ItemText(pair.item), PairsRest(members));
    if |members| == 1 {
      OccursOne(s, end, CLOSE_BRACE);
      ReadsPair(s, i, pair, nodes);
    } else {
      OccursSplit(s, end, [COMMA], PairsText(members[1..]));
      OccursOne(s, end, COMMA);
      ReadsPair(s, i, pair, nodes);
      ReadsMembers(s, end + 1, members[1..], nodes + [MemberOf(pair)]);
      Regroups(nodes, [MemberOf(pair)], MembersOf(members[1..]));
    }
  }

  lemma {:induction false} ThreeParts(a: Text, b: Text, c: Text)
    ensures Occurs(a + b + c, 0, a) && Occurs(a + b + c, |a|, b) && Occurs(a + b + c, |a| + |b|, c)
  {
  }

  lemma {:induction false} ObjectStarts(x: Syntax)
    requires x.SObject?
    ensures TextOf(x) != [] && TextOf(x)[0] == OPEN_BRACE && x == SObject(x.blank, x.members) && NodeOf(x).Obj?
  {
  }

  /** Every RFC 8259 text of an object, blanks around it allowed, is read back as the object. */
  lemma {:induction false} ReadsCard(before: Text, x: Syntax, after: Text)
    requires Valid(x) && x.SObject? && AllBlank(before) && AllBlank(after)
    ensures ReadCard(before + TextOf(x) + after) ==
              Ok(NodeOf(x), |before + TextOf(x) + after|, BetweenTokens)
  {
    hide ReadObject, TextOf, NodeOf, Valid, Occurs;
    var s := before + TextOf(x) + after;
    var i := |before|;
    ThreeParts(before, TextOf(x), after);
    ObjectStarts(x);
    TextStarts(x);
    OccursAt(s, i, TextOf(x), 0);
    BlanksEnd(s, 0, before);
    ReadsObject(s, i, x.blank, x.members);
    BlanksEnd(s, i + |TextOf(x)|, after);
  }
}
