/** Print and parse: a writer of JSON values, with every choice RFC 8259 leaves it for strings and
    white space, and what `parse_partial_card` shows of what it wrote. */
module CardPrinter {
  import opened JsonText
  import opened NumberToken
  import opened PartialReader
  import opened JsonGrammar
  import opened JsonMeaning
  import opened PartialCard
  import opened CardStream

  /** How a character of a string is to be written; the four flags capitalize digits. */
  datatype Spelling = Raw | Short | Hex(p: bool, q: bool, r: bool, t: bool)

  /** `blanks` is written wherever white space may stand. */
  datatype Style = Style(spell: Code -> Spelling, blanks: Text)

  const LETTERS := "\"\\/bfnrt"
  const LETTERS_MEAN: seq<Code> := [0x22, 0x5C, 0x2F, 0x08, 0x0C, 0x0A, 0x0D, 0x09]

  /** Where the character stands among those with a short escape, or their number. */
  function ShortAt(c: Code, k: nat): (j: nat)
    requires k <= 8
    ensures k <= j <= 8 && (j < 8 ==> LETTERS_MEAN[j] == c)
    decreases 8 - k
  {
    if k == 8 || LETTERS_MEAN[k] == c then k else ShortAt(c, k + 1)
  }

  // ----- printing

  function PrintDigit(n: nat, capital: bool): Code
    requires n < 16
  {
    (if capital then "0123456789ABCDEF" else "0123456789abcdef")[n] as int
  }

  function PrintHex(n: nat, p: bool, q: bool, r: bool, t: bool): Text
    requires n < 0x1_0000
  {
    Codes("\\u") + [PrintDigit(n / 4096, p), PrintDigit(n / 256 % 16, q), PrintDigit(n / 16 % 16, r), PrintDigit(n % 16, t)]
  }

  /** A character that may not be written as it is gets an escape whatever the style says. */
  function PrintCode(c: Code, style: Style): Text {
    var spelling := style.spell(c);
    if spelling.Short? && ShortAt(c, 0) < 8 then Codes("\\") + [LETTERS[ShortAt(c, 0)] as int]
    else if spelling.Hex? && c < 0x1_0000 then PrintHex(c, spelling.p, spelling.q, spelling.r, spelling.t)
    else if c < 0x20 || c == '\"' as int || c == '\\' as int then PrintHex(c, false, false, false, false)
    else [c]
  }

  function PrintCodes(t: Text, style: Style): Text {
    if t == [] then [] else PrintCode(t[0], style) + PrintCodes(t[1..], style)
  }

  function PrintString(t: Text, style: Style): Text {
    Codes("\"") + PrintCodes(t, style) + Codes("\"")
  }

  function Print(v: Json, style: Style): Text
    decreases v, 0
  {
    match v
    case JNull => Codes("null")
    case JBool(flag) => if flag then Codes("true") else Codes("false")
    case JNumber(token) => token
    case JString(text) => PrintString(text, style)
    case JArray(items) => Codes("[") + (if items == [] then style.blanks else PrintItems(items, style)) + Codes("]")
    case JObject(entries) => Codes("{") + (if entries == [] then style.blanks else PrintEntries(entries, style)) + Codes("}")
  }

  function PrintItems(items: seq<Json>, style: Style): Text
    decreases items, 0
  {
    if items == [] then []
    else PrintItem(items[0], style) + (if |items| == 1 then [] else Codes(",") + PrintItems(items[1..], style))
  }

  function PrintItem(v: Json, style: Style): Text
    decreases v, 1
  {
    style.blanks + Print(v, style) + style.blanks
  }

  function PrintEntries(entries: seq<Entry>, style: Style): Text
    decreases entries, 0
  {
    if entries == [] then []
    else PrintEntry(entries[0], style) + (if |entries| == 1 then [] else Codes(",") + PrintEntries(entries[1..], style))
  }

  function PrintEntry(e: Entry, style: Style): Text
    decreases e, 0
  {
    style.blanks + PrintString(e.key, style) + style.blanks + Codes(":") + style.blanks + Print(e.val, style) + style.blanks
  }

  /** Numbers are numbers of the standard, and no object has a key twice. */
  ghost predicate IsPrintable(v: Json) {
    match v
    case JNumber(token) => IsNumberText(token)
    case JArray(items) => forall k :: 0 <= k < |items| ==> IsPrintable(items[k])
    case JObject(entries) => AreDistinct(entries) && forall k :: 0 <= k < |entries| ==> IsPrintable(entries[k].val)
    case _ => true
  }

  predicate AreDistinct(entries: seq<Entry>) {
    forall i, j :: 0 <= i < j < |entries| ==> entries[i].key != entries[j].key
  }

  predicate IsStyle(style: Style) {
    forall k :: 0 <= k < |style.blanks| ==> style.blanks[k] in Codes(" \t\n\r")
  }

  // ----- the tree of what was printed

  function CharacterOf(c: Code, style: Style): Character {
    var spelling := style.spell(c);
    if spelling.Short? && ShortAt(c, 0) < 8 then Escaped(LETTERS[ShortAt(c, 0)] as int, c)
    else if spelling.Hex? && c < 0x1_0000 then Unicode(PrintHex(c, spelling.p, spelling.q, spelling.r, spelling.t)[2..], c)
    else if c < 0x20 || c == '\"' as int || c == '\\' as int then Unicode(PrintHex(c, false, false, false, false)[2..], c)
    else Plain(c)
  }

  function CharactersOf(t: Text, style: Style): seq<Character> {
    if t == [] then [] else [CharacterOf(t[0], style)] + CharactersOf(t[1..], style)
  }

  function TreeOf(v: Json, style: Style): Syntax
    decreases v, 0
  {
    match v
    case JNull => SLiteral(Codes("null"))
    case JBool(flag) => SLiteral(if flag then Codes("true") else Codes("false"))
    case JNumber(token) => SNumber(token)
    case JString(text) => SString(CharactersOf(text, style))
    case JArray(items) => SArray(style.blanks, ItemTrees(items, style))
    case JObject(entries) => SObject(style.blanks, PairTrees(entries, style))
  }

  function ItemTree(v: Json, style: Style): Item
    decreases v, 1
  {
    Item(style.blanks, TreeOf(v, style), style.blanks)
  }

  function ItemTrees(items: seq<Json>, style: Style): seq<Item> {
    if items == [] then [] else [ItemTree(items[0], style)] + ItemTrees(items[1..], style)
  }

  function PairTree(e: Entry, style: Style): Pair {
    Pair(style.blanks, CharactersOf(e.key, style), style.blanks, ItemTree(e.val, style))
  }

  function PairTrees(entries: seq<Entry>, style: Style): seq<Pair> {
    if entries == [] then [] else [PairTree(entries[0], style)] + PairTrees(entries[1..], style)
  }

  // ----- characters

  lemma {:induction false} HexSpells(n: nat, p: bool, q: bool, r: bool, t: bool)
    requires n < 0x1_0000
    ensures SpellsHex(PrintHex(n, p, q, r, t)[2..], n)
    ensures PrintHex(n, p, q, r, t) == [BACKSLASH, LOWER_U] + PrintHex(n, p, q, r, t)[2..]
  {
    hide PrintDigit, IsHexDigit, SpellsHex;
    DigitIs(n / 4096, p);
    DigitIs(n / 256 % 16, q);
    DigitIs(n / 16 % 16, r);
    DigitIs(n % 16, t);
    HexAdds(n);
    var d := PrintHex(n, p, q, r, t)[2..];
    assert d[0] == PrintDigit(n / 4096, p) && d[1] == PrintDigit(n / 256 % 16, q);
    assert d[2] == PrintDigit(n / 16 % 16, r) && d[3] == PrintDigit(n % 16, t);
    HexSpelled(d, n, n / 4096, n / 256 % 16, n / 16 % 16, n % 16);
    assert Codes("\\u")[0] == BACKSLASH && Codes("\\u")[1] == LOWER_U;
  }

  lemma {:induction false} HexSpelled(digits: Text, n: nat, p: nat, q: nat, r: nat, t: nat)
    requires |digits| == 4 && n == ((p * 16 + q) * 16 + r) * 16 + t
    requires IsHexDigit(digits[0], p) && IsHexDigit(digits[1], q) && IsHexDigit(digits[2], r) && IsHexDigit(digits[3], t)
    ensures SpellsHex(digits, n)
  {
  }

  lemma {:induction false} DigitIs(n: nat, capital: bool)
    requires n < 16
    ensures IsHexDigit(PrintDigit(n, capital), n)
  {
  }

  lemma {:induction false} HexAdds(n: nat)
    requires n < 0x1_0000
    ensures n == ((n / 4096 * 16 + n / 256 % 16) * 16 + n / 16 % 16) * 16 + n % 16
  {
    var a, b := n / 16, n / 256;
    assert n == 16 * a + n % 16;
    assert a / 16 == b && a == 16 * b + a % 16;
    assert b / 16 == n / 4096 && b == 16 * (n / 4096) + b % 16;
  }

  lemma {:induction false} CharacterIs(c: Code, style: Style)
    ensures ValidCharacter(CharacterOf(c, style)) && CharacterOf(c, style).c == c
    ensures CharacterText(CharacterOf(c, style)) == PrintCode(c, style)
  {
    hide PrintHex, SpellsHex;
    var spelling := style.spell(c);
    var j := ShortAt(c, 0);
    if j < 8 {
      LettersAre(j);
    }
    if c < 0x1_0000 {
      HexSpells(c, false, false, false, false);
      if spelling.Hex? {
        HexSpells(c, spelling.p, spelling.q, spelling.r, spelling.t);
      }
    }
    assert Codes("\\") == [BACKSLASH] && Codes("\"") == [QUOTE];
  }

  lemma {:induction false} LettersAre(j: nat)
    requires j < 8
    ensures IsEscape(LETTERS[j] as int, LETTERS_MEAN[j])
  {
    assert ESCAPES[j].0 == LETTERS[j] && ESCAPES[j].1 == LETTERS_MEAN[j];
  }

  lemma {:induction false} CharactersAre(t: Text, style: Style)
    ensures ValidCharacters(CharactersOf(t, style)) && CharactersValue(CharactersOf(t, style)) == t
    ensures CharactersText(CharactersOf(t, style)) == PrintCodes(t, style)
  {
    hide CharacterOf, PrintCode, CharacterText, ValidCharacter;
    if t == [] {
    } else {
      CharacterIs(t[0], style);
      CharactersAre(t[1..], style);
      CharactersUnfold(CharactersOf(t, style));
      assert CharactersOf(t, style)[1..] == CharactersOf(t[1..], style);
    }
  }

  lemma {:induction false} StringIs(t: Text, style: Style)
    ensures ValidCharacters(CharactersOf(t, style)) && CharactersValue(CharactersOf(t, style)) == t
    ensures StringText(CharactersOf(t, style)) == PrintString(t, style)
  {
    hide CharactersText, CharactersOf, PrintCodes, ValidCharacters, CharactersValue;
    CharactersAre(t, style);
    assert Codes("\"") == [QUOTE];
  }

  // ----- values

  lemma {:induction false} MarksAre()
    ensures Codes("[") == [OPEN_BRACKET] && Codes("]") == [CLOSE_BRACKET] && Codes("{") == [OPEN_BRACE] && Codes("}") == [CLOSE_BRACE]
    ensures Codes(",") == [COMMA] && Codes(":") == [COLON]
  {
  }

  lemma {:induction false} BlanksAreBlank(style: Style)
    requires IsStyle(style)
    ensures AllBlank(style.blanks)
  {
  }

  /** The tree prints as the value does, is valid, and means the value. */
  lemma {:induction false} TreeIs(v: Json, style: Style)
    requires IsPrintable(v) && IsStyle(style)
    ensures TextOf(TreeOf(v, style)) == Print(v, style)
    ensures Valid(TreeOf(v, style)) && Meaning(TreeOf(v, style)) == v
    decreases v, 0
  {
    hide TextOf, Print, TreeOf, Valid, Meaning, IsStyle, AreDistinct, IsNumberText;
    match v
    case JNull => LeafIs(v, style);
    case JBool(_) => LeafIs(v, style);
    case JNumber(_) => LeafIs(v, style);
    case JString(text) => StringValueIs(text, style);
    case JArray(items) => ArrayIs(items, style);
    case JObject(entries) => ObjectIs(entries, style);
  }

  lemma {:induction false} LeafIs(v: Json, style: Style)
    requires IsPrintable(v) && (v.JNull? || v.JBool? || v.JNumber?)
    ensures TextOf(TreeOf(v, style)) == Print(v, style)
    ensures Valid(TreeOf(v, style)) && Meaning(TreeOf(v, style)) == v
  {
    hide Codes, IsNumberText;
    NamesAre();
    NamesDiffer();
  }

  lemma {:induction false} StringValueIs(text: Text, style: Style)
    ensures var v := JString(text);
      TextOf(TreeOf(v, style)) == Print(v, style) && Valid(TreeOf(v, style)) && Meaning(TreeOf(v, style)) == v
  {
    hide CharactersOf, StringText, PrintString, ValidCharacters, CharactersValue;
    StringIs(text, style);
  }

  lemma {:induction false} ArrayIs(items: seq<Json>, style: Style)
    requires IsStyle(style) && forall k :: 0 <= k < |items| ==> IsPrintable(items[k])
    ensures var v := JArray(items);
      TextOf(TreeOf(v, style)) == Print(v, style) && Valid(TreeOf(v, style)) && Meaning(TreeOf(v, style)) == v
    decreases items, 1
  {
    hide Codes, IsStyle, ItemsText, ItemTrees, PrintItems, Meanings, AllBlank, ValidItem;
    MarksAre();
    BlanksAreBlank(style);
    ItemsAre(items, style);
  }

  lemma {:induction false} ObjectIs(entries: seq<Entry>, style: Style)
    requires IsStyle(style) && AreDistinct(entries) && forall k :: 0 <= k < |entries| ==> IsPrintable(entries[k].val)
    ensures var v := JObject(entries);
      TextOf(TreeOf(v, style)) == Print(v, style) && Valid(TreeOf(v, style)) && Meaning(TreeOf(v, style)) == v
    decreases entries, 1
  {
    hide Codes, IsStyle, PairsText, PairTrees, PrintEntries, PairMeanings, Dictionary, AreDistinct, AllBlank, ValidPair;
    MarksAre();
    BlanksAreBlank(style);
    EntriesAre(entries, style);
    DistinctDictionary(entries);
  }

  lemma {:induction false} NamesDiffer()
    ensures TRUE != FALSE && NULL != TRUE && NULL != FALSE
  {
  }

  lemma {:induction false} ItemTextIs(v: Json, style: Style)
    requires TextOf(TreeOf(v, style)) == Print(v, style) && Valid(TreeOf(v, style)) && IsStyle(style)
    ensures ItemText(ItemTree(v, style)) == PrintItem(v, style)
    ensures ValidItem(ItemTree(v, style))
  {
    hide TextOf, Print, TreeOf, Valid, IsStyle;
    BlanksAreBlank(style);
  }

  lemma {:induction false} ItemsAre(items: seq<Json>, style: Style)
    requires IsStyle(style) && forall k :: 0 <= k < |items| ==> IsPrintable(items[k])
    ensures ItemsText(ItemTrees(items, style)) == PrintItems(items, style) + [CLOSE_BRACKET]
    ensures |ItemTrees(items, style)| == |items| && Meanings(ItemTrees(items, style)) == items
    ensures forall k :: 0 <= k < |items| ==> ValidItem(ItemTrees(items, style)[k])
    decreases items, 0
  {
    hide Codes, IsStyle, TextOf, Print, TreeOf, Valid, ItemText, ValidItem, Meaning;
    MarksAre();
    if items == [] {
    } else {
      var trees := ItemTrees(items, style);
      TreeIs(items[0], style);
      ItemTextIs(items[0], style);
      ItemsAre(items[1..], style);
      assert trees[1..] == ItemTrees(items[1..], style);
      ItemsUnfold(trees);
    }
  }

  lemma {:induction false} PairTextIs(e: Entry, style: Style)
    requires TextOf(TreeOf(e.val, style)) == Print(e.val, style) && Valid(TreeOf(e.val, style)) && IsStyle(style)
    ensures KeyText(PairTree(e, style)) + ItemText(PairTree(e, style).item) == PrintEntry(e, style)
    ensures ValidPair(PairTree(e, style))
  {
    hide TextOf, Print, TreeOf, Valid, IsStyle, StringText, PrintString, CharactersOf, Codes, ItemText, CharactersValue, ValidCharacters, ValidItem;
    BlanksAreBlank(style);
    ItemTextIs(e.val, style);
    StringIs(e.key, style);
    MarksAre();
  }

  lemma {:induction false} EntriesAre(entries: seq<Entry>, style: Style)
    requires IsStyle(style) && forall k :: 0 <= k < |entries| ==> IsPrintable(entries[k].val)
    ensures PairsText(PairTrees(entries, style)) == PrintEntries(entries, style) + [CLOSE_BRACE]
    ensures |PairTrees(entries, style)| == |entries| && PairMeanings(PairTrees(entries, style)) == entries
    ensures forall k :: 0 <= k < |entries| ==> ValidPair(PairTrees(entries, style)[k])
    decreases entries, 0
  {
    hide Codes, IsStyle, TextOf, PrintEntry, PairTree, Valid, ItemText, KeyText, ValidPair, Meaning, PairsText, PairsRest, PairTrees,
      PrintEntries, PairMeanings;
    MarksAre();
    PairTreesUnfold(entries, style);
    if entries == [] {
    } else {
      var trees := PairTrees(entries, style);
      TreeIs(entries[0].val, style);
      PairTextIs(entries[0], style);
      StringIs(entries[0].key, style);
      EntriesAre(entries[1..], style);
      PairsUnfold(trees);
      Regroups(KeyText(trees[0]), ItemText(trees[0].item), PairsRest(trees));
      if |entries| == 1 {
        assert PrintEntry(entries[0], style) + [] == PrintEntry(entries[0], style);
      } else {
        Regroups([COMMA], PrintEntries(entries[1..], style), [CLOSE_BRACE]);
        Regroups(PrintEntry(entries[0], style), [COMMA] + PrintEntries(entries[1..], style), [CLOSE_BRACE]);
      }
    }
  }

  lemma {:induction false} PairTreesUnfold(entries: seq<Entry>, style: Style)
    ensures entries == [] ==>
      PairTrees(entries, style) == [] && PrintEntries(entries, style) == [] && PairsText([]) == [CLOSE_BRACE] && PairMeanings([]) == []
    ensures entries != [] ==>
      var trees := PairTrees(entries, style);
      && trees != [] && trees[0] == PairTree(entries[0], style) && trees[1..] == PairTrees(entries[1..], style)
      && PrintEntries(entries, style) ==
           PrintEntry(entries[0], style) + (if |entries| == 1 then [] else Codes(",") + PrintEntries(entries[1..], style))
      && PairMeanings(trees) ==
           [Entry(CharactersValue(CharactersOf(entries[0].key, style)), Meaning(TreeOf(entries[0].val, style)))] + PairMeanings(trees[1..])
  {
    hide Codes, PrintEntry, Meaning, CharactersOf, CharactersValue, TreeOf;
  }

  /** A dictionary without repeated keys is as it was written. */
  lemma {:induction false} DistinctDictionary(entries: seq<Entry>)
    requires AreDistinct(entries)
    ensures Dictionary(entries) == entries
  {
    if entries == [] {
    } else {
      var key, rest := entries[0].key, entries[1..];
      OnlyFirst(entries);
      NoOthers(rest, key);
      DistinctDictionary(rest);
    }
  }

  lemma {:induction false} OnlyFirst(entries: seq<Entry>)
    requires AreDistinct(entries) && entries != []
    ensures LastUnder(entries, entries[0].key) == entries[0].val
  {
    if |entries| > 1 {
      OnlyFirst(entries[..|entries| - 1]);
    }
  }

  lemma {:induction false} NoOthers(entries: seq<Entry>, key: Text)
    requires forall k :: 0 <= k < |entries| ==> entries[k].key != key
    ensures Others(entries, key) == entries
  {
    if entries == [] {
    } else {
      NoOthers(entries[1..], key);
    }
  }

  /** Whatever value is written, in whatever style, is shown again, and as complete. */
  lemma {:induction false} PrintedCardIsShown(v: Json, style: Style)
    requires v.JObject? && IsPrintable(v) && IsStyle(style)
    ensures var shown := ParseOf(style.blanks + Print(v, style) + style.blanks); shown.value == Some(v) && shown.complete
  {
    hide Print, TextOf, Valid, Meaning, ParseOf, IsPrintable, IsStyle;
    TreeIs(v, style);
    BlanksAreBlank(style);
    PrintedCardIsParsed(style.blanks, TreeOf(v, style), style.blanks);
  }
}
