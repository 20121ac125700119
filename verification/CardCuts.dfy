/** What a card shows that is cut short: for every text of RFC 8259 and every place to cut it, the
    value on the screen, told without the parser. */
module CardCuts {
  import opened JsonText
  import opened NumberToken
  import opened PartialReader
  import opened CardScanner
  import opened JsonGrammar
  import opened JsonMeaning
  import opened CardTheorems
  import opened PartialCard
  import opened CardStream

  // ----- what is to be shown

  /** The characters that lie within the first `n` codes of what they are written as. */
  function WholeCharacters(characters: seq<Character>, n: nat): Text {
    if characters == [] || |CharacterText(characters[0])| > n then []
    else [characters[0].c] + WholeCharacters(characters[1..], n - |CharacterText(characters[0])|)
  }

  /** What the first `n` codes of a value show. A name cut short is null, and so is a beginning of a
      number that is no number; a string keeps its whole characters. */
  ghost function Shown(x: Syntax, n: nat): Json
    decreases x, 1
  {
    if n >= |TextOf(x)| then Meaning(x)
    else
      match x
      case SLiteral(_) => JNull
      case SNumber(token) => if IsNumberText(token[..n]) then JNumber(token[..n]) else JNull
      case SString(characters) => JString(WholeCharacters(characters, if n > 0 then n - 1 else 0))
      case SArray(_, items) => JArray(ShownItems(items, if n > 0 then n - 1 else 0))
      case SObject(_, members) => JObject(Dictionary(ShownPairs(members, if n > 0 then n - 1 else 0)))
  }

  /** The elements of which something other than white space has come, the last one as far as it
      has come. */
  ghost function ShownItems(items: seq<Item>, n: nat): seq<Json>
    decreases items, 0
  {
    if items == [] then []
    else
      var before, size := |items[0].before|, |ItemText(items[0])|;
      if n <= before then []
      else [Shown(items[0].val, n - before)] + (if n <= size then [] else ShownItems(items[1..], n - size - 1))
  }

  /** The members whose colon has come; the value of the last one is null until it begins. */
  ghost function ShownPairs(members: seq<Pair>, n: nat): seq<Entry>
    decreases members, 0
  {
    if members == [] || n < |KeyText(members[0])| then []
    else
      var item, m := members[0].item, n - |KeyText(members[0])|;
      [Entry(CharactersValue(members[0].key), if m <= |item.before| then JNull else Shown(item.val, m - |item.before|))]
      + (if m <= |ItemText(item)| then [] else ShownPairs(members[1..], m - |ItemText(item)| - 1))
  }

  // ----- texts that end within a text

  /** From `i` on the buffer is a beginning of `u`. */
  predicate Begins(t: Text, i: nat, u: Text) {
    i <= |t| && t[i..] <= u
  }

  lemma {:induction false} BeginsSplit(t: Text, i: nat, a: Text, b: Text)
    requires i <= |t|
    ensures i + |a| <= |t| ==> (Begins(t, i, a + b) <==> Occurs(t, i, a) && Begins(t, i + |a|, b))
    ensures i + |a| >= |t| ==> (Begins(t, i, a + b) <==> Begins(t, i, a))
  {
    var u := t[i..];
    if i + |a| <= |t| {
      assert u == t[i..i + |a|] + t[i + |a|..];
      assert (a + b)[..|a|] == a && (a + b)[|a|..] == b;
      if Begins(t, i, a + b) {
        assert t[i..i + |a|] == u[..|a|] == (a + b)[..|u|][..|a|] == a;
        assert t[i + |a|..] == u[|a|..] == (a + b)[..|u|][|a|..] == b[..|u| - |a|];
      }
      if Occurs(t, i, a) && Begins(t, i + |a|, b) {
        assert u == (a + b)[..|u|];
      }
    }
    if i + |a| >= |t| {
      assert |u| <= |a| ==> (a + b)[..|u|] == a[..|u|];
    }
  }

  lemma {:induction false} BeginsAt(t: Text, i: nat, u: Text, k: nat)
    requires Begins(t, i, u) && i + k < |t|
    ensures k < |u| && t[i + k] == u[k]
  {
    assert t[i..][k] == t[i + k];
  }

  lemma {:induction false} BeginsWhole(t: Text, i: nat, u: Text)
    requires Begins(t, i, u) && i + |u| == |t|
    ensures Occurs(t, i, u)
  {
    assert t[i..i + |u|] == t[i..];
  }

  /** Blanks to the end. */
  lemma {:induction false} BlanksToEnd(t: Text, i: nat, u: Text)
    requires Begins(t, i, u) && AllBlank(u)
    ensures RunEnd(t, i, Blanks) == |t|
  {
    hide IsWhite;
    forall k | i <= k < |t|
      ensures IsBlank(t[k])
    {
      BeginsAt(t, i, u, k - i);
      WhiteIs(u[k - i]);
    }
    RunEndIs(t, i, Blanks, |t|);
  }

  // ----- tokens

  lemma {:induction false} CutCharacter(t: Text, i: nat, ch: Character, text: Text)
    requires ValidCharacter(ch) && Begins(t, i, CharacterText(ch)) && |t| < i + |CharacterText(ch)|
    ensures var r := ReadCharacters(t, i, text); r.StringOk? && r.token.text == text && !r.token.done && r.next == |t|
  {
    hide Codes, IsEscape, SpellsHex, Unescape, HexValue, IsHex, ReadCharacters, ClosesString;
    var u := CharacterText(ch);
    NamesAre();
    if ch.Unicode? {
      SpelledIs(ch.digits, ch.c);
    }
    if i == |t| {
      ReadsEnd(t, text);
    } else {
      BeginsAt(t, i, u, 0);
      if i + 1 == |t| {
        ReadsLoneEscape(t, text);
      } else {
        BeginsAt(t, i, u, 1);
        ReadsHex(t, i, text);
      }
    }
  }

  lemma {:induction false} ReadsEnd(t: Text, text: Text)
    ensures ReadCharacters(t, |t|, text) == StringOk(StringToken(text, false, false), |t|)
  {
  }

  lemma {:induction false} ReadsLoneEscape(t: Text, text: Text)
    requires t != [] && t[|t| - 1] == BACKSLASH
    ensures ReadCharacters(t, |t| - 1, text) == StringOk(StringToken(text, false, false), |t|)
  {
  }

  lemma {:induction false} CutCharacters(t: Text, i: nat, characters: seq<Character>, text: Text)
    requires ValidCharacters(characters) && Begins(t, i, CharactersText(characters))
    ensures var r := ReadCharacters(t, i, text);
      r.StringOk? && r.token.text == text + WholeCharacters(characters, |t| - i) && !r.token.done && r.next == |t|
    decreases characters
  {
    hide CharactersText, CharacterText, ReadCharacters, Occurs, Begins, ValidCharacter;
    NoCharacters();
    if characters == [] {
      assert i == |t| by {
        BeginsNothing(t, i);
      }
      ReadsEnd(t, text);
      assert text + [] == text;
    } else {
      CharactersUnfold(characters);
      var ch, rest := characters[0], characters[1..];
      BeginsIn(t, i, CharactersText(characters));
      BeginsSplit(t, i, CharacterText(ch), CharactersText(rest));
      if |t| < i + |CharacterText(ch)| {
        CutCharacter(t, i, ch, text);
        assert text + [] == text;
      } else {
        ReadsCharacter(t, i, ch, text);
        CutCharacters(t, i + |CharacterText(ch)|, rest, text + [ch.c]);
        Regroups(text, [ch.c], WholeCharacters(rest, |t| - i - |CharacterText(ch)|));
      }
    }
  }

  lemma {:induction false} BeginsNothing(t: Text, i: nat)
    requires Begins(t, i, [])
    ensures i == |t|
  {
    assert t[i..] == [];
  }

  lemma {:induction false} BeginsIn(t: Text, i: nat, u: Text)
    requires Begins(t, i, u)
    ensures i <= |t| <= i + |u|
  {
  }

  lemma {:induction false} CutString(t: Text, i: nat, characters: seq<Character>)
    requires ValidCharacters(characters) && Begins(t, i, StringText(characters)) && i < |t| < i + |StringText(characters)|
    ensures var r := ReadString(t, i);
      r.StringOk? && r.token.text == WholeCharacters(characters, |t| - i - 1) && !r.token.done && r.next == |t|
  {
    hide ReadCharacters, CharactersText, WholeCharacters, Begins, Occurs;
    BeginsSplit(t, i, [QUOTE], CharactersText(characters) + [QUOTE]);
    BeginsSplit(t, i + 1, CharactersText(characters), [QUOTE]);
    OccursOne(t, i, QUOTE);
    CutCharacters(t, i + 1, characters, []);
    assert [] + WholeCharacters(characters, |t| - i - 1) == WholeCharacters(characters, |t| - i - 1);
  }

  lemma {:induction false} CutLiteral(t: Text, i: nat, token: Text)
    requires IsLiteral(token) && i < |t| && Begins(t, i, token)
    ensures ReadValue(t, i) == Ok(Literal(t[i..], false), |t|, BetweenTokens)
    ensures t[i..] <= token
  {
    forall k | i <= k < |t|
      ensures IsLetter(t[k])
    {
      BeginsAt(t, i, token, k - i);
    }
    BeginsAt(t, i, token, 0);
    RunEndIs(t, i, Letters, |t|);
    assert t[i..|t|] == t[i..];
  }

  lemma {:induction false} CutNumber(t: Text, i: nat, token: Text)
    requires IsNumber(token) && i < |t| && Begins(t, i, token)
    ensures ReadValue(t, i) == Ok(Number(t[i..], false), |t|, BetweenTokens)
    ensures t[i..] <= token
  {
    forall k | i <= k < |t|
      ensures !IsDelimiter(t[k])
    {
      BeginsAt(t, i, token, k - i);
      ToleratedCharacters(token, k - i);
    }
    if token[0] == DOT {
      NumberHasNoBarePoint(token);
    }
    NumberStarts(token);
    BeginsAt(t, i, token, 0);
    RunEndIs(t, i, NumberBody, |t|);
    BeginningTolerated(t[i..], token);
    assert t[i..|t|] == t[i..];
  }

  /** Names are no beginnings of each other. */
  lemma {:induction false} NameCut(token: Text, t: Text)
    requires IsLiteral(token) && t <= token && t != token
    ensures LiteralValue(t) == JNull
  {
    assert t != [] ==> token[0] == t[0];
  }

  // ----- values

  lemma {:induction false} ShownWhole(x: Syntax, n: nat)
    requires n >= |TextOf(x)|
    ensures Shown(x, n) == Meaning(x)
  {
  }

  /** A value that has come as a whole, at the end of the buffer. */
  lemma {:induction false} ReadsAtEnd(t: Text, i: nat, x: Syntax)
    requires Valid(x) && Occurs(t, i, TextOf(x)) && i + |TextOf(x)| == |t|
    ensures var r := ReadValue(t, i); r.Ok? && r.next == |t| && ValueOf(r.value) == Meaning(x)
  {
    hide ReadArray, ReadObject, ReadLiteral, ReadNumber, ReadString, Codes, IsLiteral, IsNumber, Occurs, Meaning, NodeOf;
    TextStarts(x);
    OccursAt(t, i, TextOf(x), 0);
    MeaningIs(x);
    match x
    case SLiteral(token) =>
      LiteralIs(token);
      WholeBegins(t, i, token);
      CutLiteral(t, i, token);
      SameToken(x, token);
    case SNumber(token) =>
      NumberOfText(token);
      WholeBegins(t, i, token);
      CutNumber(t, i, token);
      SameToken(x, token);
    case SString(characters) =>
      ReadsValue(t, i, x);
    case SArray(_, _) =>
      ReadsValue(t, i, x);
    case SObject(_, _) =>
      ReadsValue(t, i, x);
  }

  lemma {:induction false} WholeBegins(t: Text, i: nat, u: Text)
    requires Occurs(t, i, u) && i + |u| == |t|
    ensures Begins(t, i, u) && t[i..] == u
  {
    assert t[i..i + |u|] == t[i..];
  }

  lemma {:induction false} SameToken(x: Syntax, token: Text)
    ensures x == SLiteral(token) ==> NodeOf(x) == Literal(token, true)
    ensures x == SNumber(token) ==> NodeOf(x) == Number(token, true)
  {
  }

  /** A value of which at least one code has come, at the end of the buffer. */
  lemma {:induction false} ShowsValue(t: Text, i: nat, x: Syntax)
    requires Valid(x) && Begins(t, i, TextOf(x)) && i < |t|
    ensures var r := ReadValue(t, i); r.Ok? && r.next == |t| && ValueOf(r.value) == Shown(x, |t| - i)
    decreases x, 1
  {
    hide ReadArray, ReadObject, ReadLiteral, ReadNumber, ReadString, Codes, IsLiteral, IsNumber, IsNumberText, Begins,
      Occurs, Meaning, NodeOf, WholeCharacters, StringText, LiteralValue;
    BeginsIn(t, i, TextOf(x));
    TextStarts(x);
    BeginsAt(t, i, TextOf(x), 0);
    if i + |TextOf(x)| == |t| {
      BeginsWhole(t, i, TextOf(x));
      ReadsAtEnd(t, i, x);
      ShownWhole(x, |t| - i);
    } else {
      match x
      case SLiteral(token) =>
        LiteralIs(token);
        CutLiteral(t, i, token);
        NameCut(token, t[i..]);
      case SNumber(token) =>
        NumberOfText(token);
        CutNumber(t, i, token);
        NumberOfText(t[i..]);
        assert t[i..] == token[..|t| - i];
      case SString(characters) =>
        CutString(t, i, characters);
      case SArray(blank, items) =>
        ShowsArray(t, i, blank, items);
      case SObject(blank, members) =>
        ShowsObject(t, i, blank, members);
    }
  }

  lemma {:induction false} ShowsArray(t: Text, i: nat, blank: Text, items: seq<Item>)
    requires Valid(SArray(blank, items)) && Begins(t, i, TextOf(SArray(blank, items)))
    requires i < |t| < i + |TextOf(SArray(blank, items))|
    ensures t[i] == OPEN_BRACKET
    ensures var r := ReadArray(t, i); r.Ok? && r.next == |t| && ValueOf(r.value) == JArray(ShownItems(items, |t| - i - 1))
    decreases items, 2
  {
    hide ReadItems, Begins, Occurs, AllBlank, ItemsText, ValidItem, ShownItems;
    NothingShown();
    if items == [] {
      BeginsSplit(t, i, [OPEN_BRACKET], blank + [CLOSE_BRACKET]);
      OccursOne(t, i, OPEN_BRACKET);
      BeginsSplit(t, i + 1, blank, [CLOSE_BRACKET]);
      BlanksToEnd(t, i + 1, blank);
    } else {
      BeginsSplit(t, i, [OPEN_BRACKET], ItemsText(items));
      OccursOne(t, i, OPEN_BRACKET);
      ShowsItems(t, i + 1, items, []);
      ItemsBeginning(t, i + 1, items);
      ItemsFromBlank(t, i + 1, []);
      if RunEnd(t, i + 1, Blanks) == |t| {
        NothingBegun(t, i + 1);
      }
      assert [] + ShownItems(items, |t| - i - 1) == ShownItems(items, |t| - i - 1);
    }
  }

  lemma {:induction false} NothingShown()
    ensures forall n: nat :: ShownItems([], n) == [] && ShownPairs([], n) == []
    ensures ValuesOf([]) == [] && AsEntries([]) == [] && Dictionary([]) == []
  {
  }

  /** The loop entered at the end of the buffer adds nothing. */
  lemma {:induction false} NothingBegun(t: Text, i: nat)
    requires i <= |t| && RunEnd(t, i, Blanks) == |t|
    ensures ReadItems(t, i, []) == Ok(Arr([], false), |t|, BetweenTokens)
    ensures ReadMembers(t, i, []) == Ok(Obj([], false), |t|, BetweenTokens)
  {
    hide ReadValue, ReadString;
    ItemAdded(t, i, [], ReadTurn(t, i, CLOSE_BRACKET));
    MembersTurn(t, i, [], ReadKey(t, i));
  }

  /** Where an item begins, if it begins at all. */
  lemma {:induction false} ItemBeginning(t: Text, i: nat, item: Item)
    requires ValidItem(item) && Begins(t, i, ItemText(item))
    ensures i <= |t| <= i + |ItemText(item)|
    ensures |t| <= i + |item.before| ==> RunEnd(t, i, Blanks) == |t|
    ensures |t| > i + |item.before| ==>
      var j := i + |item.before|;
      && RunEnd(t, i, Blanks) == j && t[j] != CLOSE_BRACKET && t[j] != CLOSE_BRACE
      && (|t| <= j + |TextOf(item.val)| ==> Begins(t, j, TextOf(item.val)))
      && (|t| > j + |TextOf(item.val)| ==> Occurs(t, j, TextOf(item.val)) && Begins(t, j + |TextOf(item.val)|, item.after))
  {
    hide Begins, Occurs, TextOf, Valid, AllBlank;
    var j := i + |item.before|;
    var u := TextOf(item.val);
    BeginsIn(t, i, ItemText(item));
    BeginsSplit(t, i, item.before, u + item.after);
    if |t| <= j {
      BlanksToEnd(t, i, item.before);
    } else {
      BeginsSplit(t, j, u, item.after);
      TextStarts(item.val);
      BeginsAt(t, j, u + item.after, 0);
      BlanksEnd(t, i, item.before);
    }
  }

  lemma {:induction false} ItemsBeginning(t: Text, i: nat, items: seq<Item>)
    requires items != [] && ValidItem(items[0]) && Begins(t, i, ItemsText(items))
    ensures i <= |t|
    ensures var j := RunEnd(t, i, Blanks); j < |t| ==> t[j] != CLOSE_BRACKET
  {
    hide Begins, Occurs, ItemText, ItemsText, ItemsRest, ValidItem;
    ItemsUnfold(items);
    BeginsIn(t, i, ItemsText(items));
    BeginsSplit(t, i, ItemText(items[0]), ItemsRest(items));
    if |t| <= i + |ItemText(items[0])| {
      ItemBeginning(t, i, items[0]);
    } else {
      ItemStart(t, i, items[0]);
    }
  }

  /** One turn of a loop whose item ends the buffer. */
  lemma {:induction false} ShowsTurn(t: Text, i: nat, item: Item, closer: Code)
    requires ValidItem(item) && Begins(t, i, ItemText(item))
    ensures i <= |t|
    ensures |t| <= i + |item.before| ==> ReadTurn(t, i, closer) == Nothing(|t|)
    ensures |t| > i + |item.before| ==>
      var turn := ReadTurn(t, i, closer);
      turn.Last? && !turn.closed && turn.next == |t| && ValueOf(turn.node) == Shown(item.val, |t| - i - |item.before|)
    decreases item, 2
  {
    hide Begins, Occurs, TextOf, Valid, AllBlank, ReadValue, ItemText, Shown, Meaning;
    ItemBeginning(t, i, item);
    var j, u := i + |item.before|, TextOf(item.val);
    if |t| > j {
      if |t| <= j + |u| {
        ShowsValue(t, j, item.val);
        RunEndIs(t, |t|, Blanks, |t|);
      } else {
        BlanksToEnd(t, j + |u|, item.after);
        BlankBehind(t, j + |u|, item);
        ReadsValue(t, j, item.val);
        MeaningIs(item.val);
        ShownWhole(item.val, |t| - j);
      }
    }
  }

  lemma {:induction false} BlankBehind(t: Text, k: nat, item: Item)
    requires k < |t| && Begins(t, k, item.after) && AllBlank(item.after)
    ensures Ended(t, k, item.val)
  {
    hide IsWhite;
    BeginsAt(t, k, item.after, 0);
    WhiteIs(t[k]);
  }

  lemma {:induction false} ShowsItems(t: Text, i: nat, items: seq<Item>, nodes: seq<Node>)
    requires items != [] && (forall k :: 0 <= k < |items| ==> ValidItem(items[k]))
    requires Begins(t, i, ItemsText(items)) && |t| < i + |ItemsText(items)|
    ensures i <= |t|
    ensures var r := ReadItems(t, i, nodes);
      r.Ok? && r.next == |t| && r.value.Arr? && ValuesOf(r.value.items) == ValuesOf(nodes) + ShownItems(items, |t| - i)
    decreases items, 1
  {
    hide ReadItems, ReadTurn, ItemText, ItemsText, ItemsRest, ValidItem, Begins, Occurs, ValueOf, ValuesOf, Shown, NodeOf, Meaning, ShownItems;
    ItemsUnfold(items);
    BeginsIn(t, i, ItemsText(items));
    ShownItemsUnfold(items, |t| - i);
    var item := items[0];
    var size := |ItemText(item)|;
    BeginsSplit(t, i, ItemText(item), ItemsRest(items));
    var turn := ReadTurn(t, i, CLOSE_BRACKET);
    ItemAdded(t, i, nodes, turn);
    if |t| <= i + size {
      ShowsTurn(t, i, item, CLOSE_BRACKET);
      if turn.Last? {
        ValuesLast(nodes, turn.node);
      }
      assert ValuesOf(nodes) + [] == ValuesOf(nodes);
    } else {
      BeginsSplit(t, i + size, [COMMA], ItemsText(items[1..]));
      OccursOne(t, i + size, COMMA);
      ReadsTurn(t, i, item, CLOSE_BRACKET);
      ValuesLast(nodes, NodeOf(item.val));
      ItemMeans(item);
      ShownWhole(item.val, |t| - i - |item.before|);
      ShowsItems(t, i + size + 1, items[1..], nodes + [NodeOf(item.val)]);
      Regroups(ValuesOf(nodes), [Meaning(item.val)], ShownItems(items[1..], |t| - i - size - 1));
    }
  }

  lemma {:induction false} ShownItemsUnfold(items: seq<Item>, n: nat)
    requires items != []
    ensures var before, size := |items[0].before|, |ItemText(items[0])|;
      ShownItems(items, n) ==
        if n <= before then []
        else [Shown(items[0].val, n - before)] + (if n <= size then [] else ShownItems(items[1..], n - size - 1))
    ensures |ItemText(items[0])| == |items[0].before| + |TextOf(items[0].val)| + |items[0].after|
  {
    hide Shown, TextOf;
  }

  lemma {:induction false} ItemMeans(item: Item)
    requires ValidItem(item)
    ensures ValueOf(NodeOf(item.val)) == Meaning(item.val)
  {
    hide Valid, AllBlank, NodeOf, Meaning;
    MeaningIs(item.val);
  }

  lemma {:induction false} ValuesLast(nodes: seq<Node>, node: Node)
    ensures ValuesOf(nodes + [node]) == ValuesOf(nodes) + [ValueOf(node)]
  {
    hide ValueOf;
    assert (nodes + [node])[..|nodes|] == nodes;
  }

  // ----- objects

  lemma {:induction false} ShowsObject(t: Text, i: nat, blank: Text, members: seq<Pair>)
    requires Valid(SObject(blank, members)) && Begins(t, i, TextOf(SObject(blank, members)))
    requires i < |t| < i + |TextOf(SObject(blank, members))|
    ensures t[i] == OPEN_BRACE
    ensures var r := ReadObject(t, i);
      r.Ok? && r.next == |t| && ValueOf(r.value) == JObject(Dictionary(ShownPairs(members, |t| - i - 1)))
    decreases members, 2
  {
    hide ReadMembers, Begins, Occurs, AllBlank, PairsText, ValidPair, ShownPairs, Dictionary, EntriesOf;
    NothingShown();
    NoEntries();
    if members == [] {
      BeginsSplit(t, i, [OPEN_BRACE], blank + [CLOSE_BRACE]);
      OccursOne(t, i, OPEN_BRACE);
      BeginsSplit(t, i + 1, blank, [CLOSE_BRACE]);
      BlanksToEnd(t, i + 1, blank);
    } else {
      BeginsSplit(t, i, [OPEN_BRACE], PairsText(members));
      OccursOne(t, i, OPEN_BRACE);
      ShowsPairs(t, i + 1, members, []);
      PairsBeginning(t, i + 1, members);
      MembersFromBlank(t, i + 1, []);
      if RunEnd(t, i + 1, Blanks) == |t| {
        NothingBegun(t, i + 1);
      }
      assert [] + ShownPairs(members, |t| - i - 1) == ShownPairs(members, |t| - i - 1);
      EntriesAreDictionary(ReadMembers(t, i + 1, []).value.members);
    }
  }

  lemma {:induction false} PairsBeginning(t: Text, i: nat, members: seq<Pair>)
    requires members != [] && ValidPair(members[0]) && Begins(t, i, PairsText(members))
    ensures i <= |t|
    ensures var j := RunEnd(t, i, Blanks); j < |t| ==> t[j] != CLOSE_BRACE
  {
    hide Begins, Occurs, ItemText, PairsText, PairsRest, AllBlank, CharactersText, ValidCharacters;
    PairsUnfold(members);
    var pair := members[0];
    BeginsIn(t, i, PairsText(members));
    BeginsSplit(t, i, KeyText(pair), ItemText(pair.item) + PairsRest(members));
    if |t| <= i + |KeyText(pair)| {
      BeginsSplit(t, i, pair.before, StringText(pair.key) + (pair.gap + [COLON]));
      KeyBegins(t, i, pair);
    } else {
      KeyStart(t, i, pair);
    }
  }

  /** Blanks to the end, or the quote of the key. */
  lemma {:induction false} KeyBegins(t: Text, i: nat, pair: Pair)
    requires AllBlank(pair.before) && Begins(t, i, KeyText(pair))
    ensures |t| <= i + |pair.before| ==> RunEnd(t, i, Blanks) == |t|
    ensures |t| > i + |pair.before| ==>
      var j := i + |pair.before|;
      RunEnd(t, i, Blanks) == j && t[j] == QUOTE && Begins(t, j, StringText(pair.key) + (pair.gap + [COLON]))
  {
    hide Begins, Occurs, AllBlank, CharactersText;
    var j, rest := i + |pair.before|, StringText(pair.key) + (pair.gap + [COLON]);
    BeginsIn(t, i, KeyText(pair));
    BeginsSplit(t, i, pair.before, rest);
    if |t| <= j {
      BlanksToEnd(t, i, pair.before);
    } else {
      BeginsAt(t, j, rest, 0);
      BlanksEnd(t, i, pair.before);
    }
  }

  /** A key whose colon has not come is dropped. */
  lemma {:induction false} ShowsNoKey(t: Text, i: nat, pair: Pair)
    requires ValidPair(pair) && Begins(t, i, KeyText(pair)) && |t| < i + |KeyText(pair)|
    ensures i <= |t| && ReadKey(t, i).NoKey? && ReadKey(t, i).next == |t|
  {
    hide Begins, Occurs, AllBlank, StringText, ReadString, ValidCharacters, ValidItem, CharactersValue, WholeCharacters;
    BeginsIn(t, i, KeyText(pair));
    KeyBegins(t, i, pair);
    var j, u := i + |pair.before|, StringText(pair.key);
    if |t| > j {
      BeginsSplit(t, j, u, pair.gap + [COLON]);
      if |t| < j + |u| {
        CutString(t, j, pair.key);
      } else {
        ReadsString(t, j, pair.key);
        BeginsSplit(t, j + |u|, pair.gap, [COLON]);
        BlanksToEnd(t, j + |u|, pair.gap);
      }
    }
  }

  lemma {:induction false} ShownPairsUnfold(members: seq<Pair>, n: nat)
    requires members != []
    ensures n < |KeyText(members[0])| ==> ShownPairs(members, n) == []
    ensures n >= |KeyText(members[0])| ==>
      var item, m := members[0].item, n - |KeyText(members[0])|;
      ShownPairs(members, n) ==
        [Entry(CharactersValue(members[0].key), if m <= |item.before| then JNull else Shown(item.val, m - |item.before|))]
        + (if m <= |ItemText(item)| then [] else ShownPairs(members[1..], m - |ItemText(item)| - 1))
    ensures var item := members[0].item; |ItemText(item)| == |item.before| + |TextOf(item.val)| + |item.after|
  {
    hide Shown, TextOf, KeyText, CharactersValue;
  }

  lemma {:induction false} EntriesLast(nodes: seq<Member>, member: Member)
    ensures AsEntries(nodes + [member]) == AsEntries(nodes) + [Entry(member.key, MemberValue(member))]
  {
  }

  /** The last member that has come. */
  lemma {:induction false} ShowsLastPair(t: Text, i: nat, pair: Pair, nodes: seq<Member>)
    requires ValidPair(pair) && Occurs(t, i, KeyText(pair)) && Begins(t, i + |KeyText(pair)|, ItemText(pair.item))
    ensures i <= |t|
    ensures var r := ReadMembers(t, i, nodes); var m := |t| - i - |KeyText(pair)|;
      && m >= 0 && r.Ok? && r.next == |t| && r.value.Obj?
      && AsEntries(r.value.members) == AsEntries(nodes)
           + [Entry(CharactersValue(pair.key), if m <= |pair.item.before| then JNull else Shown(pair.item.val, m - |pair.item.before|))]
    decreases pair, 1
  {
    hide ReadMembers, ReadKey, ReadTurn, AfterTurn, KeyText, ItemText, Begins, Occurs, ValueOf, Shown, ValidItem, CharactersValue, AsEntries;
    var key, j := CharactersValue(pair.key), i + |KeyText(pair)|;
    ReadsKey(t, i, pair);
    var turn := ReadTurn(t, j, CLOSE_BRACE);
    MembersTurn(t, i, nodes, ReadKey(t, i));
    ShowsTurn(t, j, pair.item, CLOSE_BRACE);
    MemberAdded(t, j, nodes, key, turn);
    EntriesLast(nodes, TurnMember(key, turn));
  }

  lemma {:induction false} ShowsPairs(t: Text, i: nat, members: seq<Pair>, nodes: seq<Member>)
    requires members != [] && (forall k :: 0 <= k < |members| ==> ValidPair(members[k]))
    requires Begins(t, i, PairsText(members)) && |t| < i + |PairsText(members)|
    ensures i <= |t|
    ensures var r := ReadMembers(t, i, nodes);
      r.Ok? && r.next == |t| && r.value.Obj? && AsEntries(r.value.members) == AsEntries(nodes) + ShownPairs(members, |t| - i)
    decreases members, 1
  {
    hide ReadMembers, ReadKey, KeyText, ItemText, PairsText, PairsRest, ValidPair, Begins, Occurs, ValueOf, Shown, ShownPairs,
      Meaning, NodeOf, CharactersValue, AsEntries, MemberOf;
    PairsUnfold(members);
    BeginsIn(t, i, PairsText(members));
    ShownPairsUnfold(members, |t| - i);
    var pair := members[0];
    var item, j := pair.item, i + |KeyText(pair)|;
    var end := j + |ItemText(item)|;
    BeginsSplit(t, i, KeyText(pair), ItemText(item) + PairsRest(members));
    if |t| < j {
      ShowsNoKey(t, i, pair);
      MembersTurn(t, i, nodes, ReadKey(t, i));
      assert AsEntries(nodes) + [] == AsEntries(nodes);
    } else {
      BeginsSplit(t, j, ItemText(item), PairsRest(members));
      if |t| <= end {
        ShowsLastPair(t, i, pair, nodes);
      } else {
        BeginsSplit(t, end, [COMMA], PairsText(members[1..]));
        OccursOne(t, end, COMMA);
        ReadsPair(t, i, pair, nodes);
        ShownWhole(item.val, |t| - j - |item.before|);
        ShowsPairs(t, end + 1, members[1..], nodes + [MemberOf(pair)]);
        PairAdded(nodes, pair, ShownPairs(members[1..], |t| - end - 1));
      }
    }
  }

  lemma {:induction false} PairAdded(nodes: seq<Member>, pair: Pair, more: seq<Entry>)
    requires ValidPair(pair)
    ensures AsEntries(nodes + [MemberOf(pair)]) + more ==
            AsEntries(nodes) + ([Entry(CharactersValue(pair.key), Meaning(pair.item.val))] + more)
  {
    hide ValidPair, MemberOf, Meaning, CharactersValue, AsEntries;
    PairMeans(pair);
    EntriesLast(nodes, MemberOf(pair));
    Regroups(AsEntries(nodes), [Entry(CharactersValue(pair.key), Meaning(pair.item.val))], more);
  }

  lemma {:induction false} PairMeans(pair: Pair)
    requires ValidPair(pair)
    ensures MemberOf(pair).key == CharactersValue(pair.key) && MemberValue(MemberOf(pair)) == Meaning(pair.item.val)
  {
    hide Valid, AllBlank, NodeOf, Meaning, CharactersValue, ValidCharacters;
    ItemMeans(pair.item);
  }

  // ----- the whole buffer

  /** Cut anywhere behind its opening brace, a card is shown, and what is shown is exactly what has
      come; it is complete from its closing brace on, and not before. */
  lemma {:induction false} CutCardIsShown(before: Text, x: Syntax, after: Text, n: nat)
    requires Valid(x) && x.SObject? && AllBlank(before) && AllBlank(after)
    requires |before| < n <= |before + TextOf(x) + after|
    ensures var shown := ParseOf((before + TextOf(x) + after)[..n]);
      && shown.value == Some(Shown(x, n - |before|))
      && (shown.complete <==> n >= |before| + |TextOf(x)|)
  {
    hide ReadCard, ReadObject, ParseOf, TextOf, NodeOf, Valid, AllBlank, Shown, Occurs, Begins, Meaning, IsTorn;
    var s := before + TextOf(x) + after;
    var t, i := s[..n], |before|;
    ReadsCard(before, x, after);
    WholeCard(before, x, after);
    ObjectStarts(x);
    TextStarts(x);
    CompleteFromTheBraceOn(t, s);
    AcceptedShows(t);
    if n < i + |TextOf(x)| {
      PrefixBegins(before, x, after, n);
      ShowsObjectCard(t, i, before, x);
    } else {
      CutAfter(before, x, after, n);
      PrintedCardIsParsed(before, x, after[..n - i - |TextOf(x)|]);
      ShownWhole(x, n - i);
    }
  }

  lemma {:induction false} AcceptedShows(t: Text)
    requires ReadCard(t).Ok? && ParseOf(t).value.Some?
    ensures ParseOf(t).value == Some(ValueOf(NodeRead(t)))
  {
    hide ScanOf, ReadCard;
    AcceptedMeans(t);
  }

  /** The reading of the whole text. */
  lemma {:induction false} WholeCard(before: Text, x: Syntax, after: Text)
    requires Valid(x) && x.SObject? && AllBlank(before) && AllBlank(after)
    ensures var s := before + TextOf(x) + after;
      && RunEnd(s, 0, Blanks) == |before| && ReadCard(s).Ok? && NodeRead(s).done
      && ObjectEnd(s) == |before| + |TextOf(x)|
  {
    hide ReadObject, TextOf, NodeOf, Valid, Occurs, AllBlank, ReadCard;
    var s, i := before + TextOf(x) + after, |before|;
    ReadsCard(before, x, after);
    ThreeParts(before, TextOf(x), after);
    ObjectStarts(x);
    TextStarts(x);
    OccursAt(s, i, TextOf(x), 0);
    BlanksEnd(s, 0, before);
    ReadsObject(s, i, x.blank, x.members);
  }

  lemma {:induction false} PrefixBegins(before: Text, x: Syntax, after: Text, n: nat)
    requires |before| < n < |before| + |TextOf(x)|
    ensures var t := (before + TextOf(x) + after)[..n];
      && |t| == n && Occurs(t, 0, before) && Begins(t, |before|, TextOf(x))
  {
    hide TextOf;
    var s := before + TextOf(x) + after;
    var t, i := s[..n], |before|;
    assert forall k :: i <= k < n ==> t[k] == TextOf(x)[k - i];
    assert t[i..] == TextOf(x)[..n - i];
    assert t[0..i] == before;
  }

  lemma {:induction false} CutAfter(before: Text, x: Syntax, after: Text, n: nat)
    requires |before| + |TextOf(x)| <= n <= |before + TextOf(x) + after| && AllBlank(after)
    ensures var tail := after[..n - |before| - |TextOf(x)|];
      (before + TextOf(x) + after)[..n] == before + TextOf(x) + tail && AllBlank(tail)
  {
    hide TextOf, IsWhite;
  }

  lemma {:induction false} ShowsObjectCard(t: Text, i: nat, before: Text, x: Syntax)
    requires Valid(x) && x.SObject? && AllBlank(before) && i == |before| && Occurs(t, 0, before)
    requires Begins(t, i, TextOf(x)) && i < |t| < i + |TextOf(x)| && ReadCard(t).Ok?
    ensures ValueOf(NodeRead(t)) == Shown(x, |t| - i)
  {
    hide ReadObject, TextOf, Valid, Occurs, Begins, AllBlank, ShownPairs, Dictionary, ValueOf;
    ObjectStarts(x);
    ShowsObject(t, i, x.blank, x.members);
    ShownObject(x, |t| - i);
    BlanksEnd(t, 0, before);
  }

  lemma {:induction false} ShownObject(x: Syntax, n: nat)
    requires x.SObject? && 0 < n < |TextOf(x)|
    ensures Shown(x, n) == JObject(Dictionary(ShownPairs(x.members, n - 1)))
  {
    hide TextOf, Dictionary, ShownPairs;
  }
}
