/** The value an RFC 8259 text stands for, told apart from the parser. */
module JsonMeaning {
  import opened JsonText
  import opened NumberToken
  import opened PartialReader
  import opened JsonGrammar
  import opened CardTheorems

  // ----- dictionaries

  /** The value under the last entry with this key. */
  function LastUnder(entries: seq<Entry>, key: Text): Json {
    if entries == [] then JNull
    else
      var last := entries[|entries| - 1];
      if last.key == key then last.val else LastUnder(entries[..|entries| - 1], key)
  }

  function Others(entries: seq<Entry>, key: Text): (r: seq<Entry>)
    ensures |r| <= |entries|
  {
    if entries == [] then []
    else (if entries[0].key == key then [] else [entries[0]]) + Others(entries[1..], key)
  }

  /** Keys in the order in which they first occur, each with its last value. */
  function Dictionary(entries: seq<Entry>): seq<Entry>
    decreases |entries|
  {
    if entries == [] then []
    else
      var key := entries[0].key;
      [Entry(key, LastUnder(entries, key))] + Dictionary(Others(entries[1..], key))
  }

  lemma {:induction false} OthersAppend(entries: seq<Entry>, e: Entry, key: Text)
    ensures Others(entries + [e], key) == Others(entries, key) + if e.key == key then [] else [e]
  {
    if entries == [] {
      assert [] + [e] == [e] && [e][1..] == [];
    } else {
      OthersAppend(entries[1..], e, key);
      assert (entries + [e])[1..] == entries[1..] + [e] && (entries + [e])[0] == entries[0];
      Regroups(if entries[0].key == key then [] else [entries[0]], Others(entries[1..], key), if e.key == key then [] else [e]);
    }
  }

  lemma {:induction false} PutBehind(first: Entry, entries: seq<Entry>, key: Text, val: Json)
    requires key != first.key
    ensures Put([first] + entries, key, val) == [first] + Put(entries, key, val)
  {
    assert ([first] + entries)[1..] == entries;
  }

  /** One more entry is one more assignment. */
  lemma {:induction false} DictionaryAppend(entries: seq<Entry>, e: Entry)
    ensures Dictionary(entries + [e]) == Put(Dictionary(entries), e.key, e.val)
    decreases |entries|
  {
    hide Put;
    var all := entries + [e];
    assert all[..|entries|] == entries;
    if entries == [] {
      assert [] + [e] == [e] && [e][1..] == [];
      PutFirst(e);
    } else {
      var key, rest := entries[0].key, Others(entries[1..], entries[0].key);
      assert all[1..] == entries[1..] + [e];
      OthersAppend(entries[1..], e, key);
      var first := Entry(key, LastUnder(entries, key));
      if e.key == key {
        assert rest + [] == rest;
        PutOver(first, Dictionary(rest), e.val);
      } else {
        DictionaryAppend(rest, e);
        PutBehind(first, Dictionary(rest), e.key, e.val);
      }
    }
  }

  lemma {:induction false} PutFirst(e: Entry)
    ensures Put([], e.key, e.val) == [e]
  {
  }

  lemma {:induction false} PutOver(first: Entry, entries: seq<Entry>, val: Json)
    ensures Put([first] + entries, first.key, val) == [Entry(first.key, val)] + entries
  {
  }

  // ----- the meaning of a text

  function Meaning(x: Syntax): Json {
    match x
    case SLiteral(token) =>
      if token == Codes("true") then JBool(true) else if token == Codes("false") then JBool(false) else JNull
    case SNumber(token) => JNumber(token)
    case SString(characters) => JString(CharactersValue(characters))
    case SArray(_, items) => JArray(Meanings(items))
    case SObject(_, members) => JObject(Dictionary(PairMeanings(members)))
  }

  function Meanings(items: seq<Item>): seq<Json> {
    if items == [] then [] else [Meaning(items[0].val)] + Meanings(items[1..])
  }

  function PairMeanings(members: seq<Pair>): seq<Entry> {
    if members == [] then []
    else [Entry(CharactersValue(members[0].key), Meaning(members[0].item.val))] + PairMeanings(members[1..])
  }

  function AsEntries(members: seq<Member>): seq<Entry> {
    seq(|members|, k requires 0 <= k < |members| => Entry(members[k].key, MemberValue(members[k])))
  }

  lemma {:induction false} EntriesAreDictionary(members: seq<Member>)
    ensures EntriesOf(members) == Dictionary(AsEntries(members))
  {
    hide Put;
    if members == [] {
      NoEntries();
    } else {
      var last, rest := members[|members| - 1], members[..|members| - 1];
      EntriesAreDictionary(rest);
      assert AsEntries(members) == AsEntries(rest) + [Entry(last.key, MemberValue(last))];
      DictionaryAppend(AsEntries(rest), Entry(last.key, MemberValue(last)));
      assert members == rest + [last];
      EntriesAppend(rest, last);
    }
  }

  /** What the parser makes of a text is what the text means. */
  lemma {:induction false} MeaningIs(x: Syntax)
    requires Valid(x)
    ensures ValueOf(NodeOf(x)) == Meaning(x)
    decreases x
  {
    hide Codes, EntriesOf, Dictionary, IsNumber, IsNumberText, CharactersValue;
    match x
    case SLiteral(token) => NamesAre();
    case SNumber(token) =>
      NumberOfText(token);
    case SString(_) =>
    case SArray(_, items) =>
      ItemsMean(items);
    case SObject(_, members) =>
      PairsMean(members);
      EntriesAreDictionary(MembersOf(members));
  }

  lemma {:induction false} NumberOfText(token: Text)
    ensures IsNumberText(token) <==> IsNumber(token)
  {
    NumberIsGrammatical(token);
  }

  lemma {:induction false} ValuesFirst(node: Node, items: seq<Node>)
    ensures ValuesOf([node] + items) == [ValueOf(node)] + ValuesOf(items)
  {
    hide ValuesOf, ValueOf;
    ValuesAt([node] + items);
    ValuesAt(items);
    assert |ValuesOf([node] + items)| == |[ValueOf(node)] + ValuesOf(items)|;
    assert forall k :: 0 < k <= |items| ==> ([node] + items)[k] == items[k - 1];
  }

  lemma {:induction false} ItemsMean(items: seq<Item>)
    requires forall k :: 0 <= k < |items| ==> ValidItem(items[k])
    ensures ValuesOf(NodesOf(items)) == Meanings(items)
    decreases items
  {
    hide ValueOf, Meaning, Valid, AllBlank;
    if items == [] {
    } else {
      assert ValidItem(items[0]);
      MeaningIs(items[0].val);
      ItemsMean(items[1..]);
      ValuesFirst(NodeOf(items[0].val), NodesOf(items[1..]));
    }
  }

  lemma {:induction false} PairsMean(members: seq<Pair>)
    requires forall k :: 0 <= k < |members| ==> ValidPair(members[k])
    ensures AsEntries(MembersOf(members)) == PairMeanings(members)
    decreases members
  {
    hide ValueOf, Meaning, Valid, AllBlank, CharactersValue;
    if members == [] {
    } else {
      assert ValidPair(members[0]) && ValidItem(members[0].item);
      MeaningIs(members[0].item.val);
      PairsMean(members[1..]);
      var rest := MembersOf(members[1..]);
      assert AsEntries([MemberOf(members[0])] + rest) == [Entry(MemberOf(members[0]).key, MemberValue(MemberOf(members[0])))] + AsEntries(rest);
    }
  }
}
