/** What the recursive-descent card parser computes, as functions of the buffer.

    The parser repairs an unfinished prefix: wherever the buffer ends it returns what it
    has. A `Node` is the value it builds together with one more fact per node, whether
    the node was finished before the buffer ended; `ValueOf` forgets that fact and is the
    Python value the parser returns. */
module PartialReader {
  import opened JsonText
  import opened NumberToken

  // ----- values

  /** Python values of a card. Number tokens stay uninterpreted; an object keeps the
      insertion order of its keys. */
  datatype Json =
    | JNull
    | JBool(flag: bool)
    | JNumber(token: Text)
    | JString(text: Text)
    | JArray(items: seq<Json>)
    | JObject(entries: seq<Entry>)

  datatype Entry = Entry(key: Text, val: Json)

  /** The position of a key, or the number of entries. */
  function IndexOf(entries: seq<Entry>, key: Text): (k: nat)
    ensures k <= |entries|
    ensures k < |entries| ==> entries[k].key == key
    ensures forall i :: 0 <= i < k ==> entries[i].key != key
  {
    if entries == [] then 0
    else if entries[0].key == key then 0
    else 1 + IndexOf(entries[1..], key)
  }

  /** Assignment to a dictionary key: in place when the key exists, else at the end. */
  function Put(entries: seq<Entry>, key: Text, val: Json): seq<Entry> {
    var k := IndexOf(entries, key);
    if k < |entries| then entries[k := Entry(key, val)] else entries + [Entry(key, val)]
  }

  // ----- nodes

  datatype Node =
    | Literal(token: Text, done: bool)
    | Number(token: Text, done: bool)
    | Str(text: Text, done: bool)
    | Arr(items: seq<Node>, done: bool)
    | Obj(members: seq<Member>, done: bool)

  /** `val` is missing when the buffer ends right after the colon. */
  datatype Member = Member(key: Text, val: Option<Node>)

  function LiteralValue(token: Text): Json {
    if token == TRUE then JBool(true) else if token == FALSE then JBool(false) else JNull
  }

  function ValueOf(node: Node): Json {
    match node
    case Literal(token, _) => LiteralValue(token)
    case Number(token, _) => if IsNumber(token) then JNumber(token) else JNull
    case Str(text, _) => JString(text)
    case Arr(items, _) => JArray(ValuesOf(items))
    case Obj(members, _) => JObject(EntriesOf(members))
  }

  function MemberValue(member: Member): Json {
    match member.val
    case None => JNull
    case Some(node) => ValueOf(node)
  }

  function ValuesOf(items: seq<Node>): (values: seq<Json>)
    ensures |values| == |items|
  {
    if items == [] then [] else ValuesOf(items[..|items| - 1]) + [ValueOf(items[|items| - 1])]
  }

  function EntriesOf(members: seq<Member>): seq<Entry> {
    if members == [] then []
    else
      var last := members[|members| - 1];
      Put(EntriesOf(members[..|members| - 1]), last.key, MemberValue(last))
  }

  lemma {:induction false} EntriesAppend(members: seq<Member>, member: Member)
    ensures EntriesOf(members + [member]) == Put(EntriesOf(members), member.key, MemberValue(member))
  {
    assert (members + [member])[..|members|] == members;
  }

  lemma {:induction false} NoEntries()
    ensures EntriesOf([]) == []
  {
  }

  lemma {:induction false} Regroups<T>(a: seq<T>, b: seq<T>, c: seq<T>)
    ensures a + b + c == a + (b + c)
  {
  }

  // ----- reading

  /** Where the parser stood when it stopped: between tokens, or inside the string that
      starts at `start`. A torn string is one that ended at a `\u` escape with fewer than
      four characters left, and whose rest nevertheless holds a closing quote. */
  datatype Halt = BetweenTokens | InString(start: nat, torn: bool)

  datatype Reading<+T> = Ok(value: T, next: nat, halt: Halt) | Fail

  datatype StringToken = StringToken(text: Text, done: bool, torn: bool)

  /** The rest of a string, taken as escapes of one character, holds its closing quote. */
  predicate ClosesString(s: Text, i: nat)
    decreases |s| - i
  {
    i < |s| && (s[i] == QUOTE || ClosesString(s, if s[i] == BACKSLASH then i + 2 else i + 1))
  }

  predicate FourHex(s: Text, i: nat)
    requires i + 4 <= |s|
  {
    IsHex(s[i]) && IsHex(s[i + 1]) && IsHex(s[i + 2]) && IsHex(s[i + 3])
  }

  datatype StringReading = StringOk(token: StringToken, next: nat) | StringFail

  /** The characters of a string from `i` on, after the ones in `text`. */
  function ReadCharacters(s: Text, i: nat, text: Text): (r: StringReading)
    requires i <= |s|
    decreases |s| - i
    ensures r.StringOk? ==> i <= r.next <= |s|
    ensures r.StringOk? ==> if r.token.done then i < r.next && !r.token.torn else r.next == |s|
  {
    if i == |s| then StringOk(StringToken(text, false, false), i)
    else if s[i] == QUOTE then StringOk(StringToken(text, true, false), i + 1)
    else if s[i] != BACKSLASH then
      if s[i] < 0x20 then StringFail else ReadCharacters(s, i + 1, text + [s[i]])
    else if i + 1 == |s| then StringOk(StringToken(text, false, false), |s|)
    else if s[i + 1] == LOWER_U then
      if |s| < i + 6 then StringOk(StringToken(text, false, ClosesString(s, i + 2)), |s|)
      else if !FourHex(s, i + 2) then StringFail
      else ReadCharacters(s, i + 6, text + [HexValue(s[i + 2], s[i + 3], s[i + 4], s[i + 5])])
    else
      match Unescape(s[i + 1])
      case None => StringFail
      case Some(c) => ReadCharacters(s, i + 2, text + [c])
  }

  function ReadString(s: Text, i: nat): (r: StringReading)
    ensures r.StringOk? ==> i < r.next <= |s| && s[i] == QUOTE
    ensures r.StringOk? ==> if r.token.done then i + 1 < r.next && !r.token.torn else r.next == |s|
  {
    if i < |s| && s[i] == QUOTE then ReadCharacters(s, i + 1, []) else StringFail
  }

  function HaltOf(start: nat, token: StringToken): Halt {
    if token.done then BetweenTokens else InString(start, token.torn)
  }

  /** The letters `true`, `false` and `null`, or the beginning of one of them. */
  predicate IsLiteralBeginning(token: Text) {
    token <= TRUE || token <= FALSE || token <= NULL
  }

  predicate IsLiteral(token: Text) {
    token == TRUE || token == FALSE || token == NULL
  }

  function ReadLiteral(s: Text, i: nat): (r: Reading<Node>)
    requires i <= |s|
  {
    var j := RunEnd(s, i, Letters);
    if IsLiteralBeginning(s[i..j]) then Ok(Literal(s[i..j], j < |s|), j, BetweenTokens) else Fail
  }

  function ReadNumber(s: Text, i: nat): (r: Reading<Node>)
    requires i <= |s|
  {
    var j := RunEnd(s, i, NumberBody);
    if IsTolerated(s[i..j]) then Ok(Number(s[i..j], j < |s|), j, BetweenTokens) else Fail
  }

  predicate StartsLiteral(c: Code) {
    c == TRUE[0] || c == FALSE[0] || c == NULL[0]
  }

  /** A reading moves on, and what it leaves unfinished reaches the end of the buffer. */
  ghost predicate Advances(s: Text, i: nat, r: Reading<Node>) {
    r.Ok? ==>
      && i <= r.next <= |s|
      && (i < |s| ==> i < r.next)
      && (!r.value.done ==> r.next == |s|)
      && (r.value.done ==> r.halt == BetweenTokens)
  }

  function ReadValue(s: Text, i: nat): (r: Reading<Node>)
    requires i <= |s|
    decreases |s| - i, 3
    ensures Advances(s, i, r)
  {
    if i == |s| then ReadLiteral(s, i)
    else if s[i] == OPEN_BRACE then ReadObject(s, i)
    else if s[i] == OPEN_BRACKET then ReadArray(s, i)
    else if s[i] == QUOTE then
      match ReadString(s, i)
      case StringFail => Fail
      case StringOk(token, j) => Ok(Str(token.text, token.done), j, HaltOf(i, token))
    else if StartsLiteral(s[i]) then ReadLiteral(s, i)
    else if s[i] == MINUS || IsDigit(s[i]) then ReadNumber(s, i)
    else Fail
  }

  function ReadArray(s: Text, i: nat): (r: Reading<Node>)
    requires i < |s| && s[i] == OPEN_BRACKET
    decreases |s| - i, 2
    ensures Advances(s, i, r)
    ensures r.Ok? ==> r.value.Arr?
  {
    var j := RunEnd(s, i + 1, Blanks);
    if j == |s| then Ok(Arr([], false), j, BetweenTokens)
    else if s[j] == CLOSE_BRACKET then Ok(Arr([], true), j + 1, BetweenTokens)
    else ReadItems(s, j, [])
  }

  /** One turn of the array loop: the buffer ends before a value (`Nothing`), the value is
      the last one read (`Last`, with whether a closing bracket followed), or a comma
      follows it (`More`). The object loop takes the same turns behind each colon. */
  datatype Turn = Nothing(next: nat) | Last(node: Node, next: nat, closed: bool, halt: Halt) | More(node: Node, next: nat) | TurnFail

  function ReadTurn(s: Text, i: nat, closer: Code): (r: Turn)
    requires i <= |s|
    decreases |s| - i, 4
    ensures r.Nothing? ==> r.next == |s|
    ensures r.Last? ==> i < r.next <= |s| && (!r.closed ==> r.next == |s|) && (r.closed ==> r.halt == BetweenTokens)
    ensures r.More? ==> i < r.next <= |s|
    ensures r.More? || (r.Last? && r.closed) ==> r.node.done
  {
    var start := RunEnd(s, i, Blanks);
    if start == |s| then Nothing(start)
    else
      match ReadValue(s, start)
      case Fail => TurnFail
      case Ok(node, next, halt) =>
        var j := RunEnd(s, next, Blanks);
        if j == |s| then Last(node, j, false, halt)
        else if s[j] == closer then Last(node, j + 1, true, BetweenTokens)
        else if s[j] == COMMA then More(node, j + 1)
        else TurnFail
  }

  /** The array loop, after the items in `items`. */
  function ReadItems(s: Text, i: nat, items: seq<Node>): (r: Reading<Node>)
    requires i <= |s|
    decreases |s| - i, 5
    ensures Advances(s, i, r)
    ensures r.Ok? ==> r.value.Arr?
  {
    match ReadTurn(s, i, CLOSE_BRACKET)
    case TurnFail => Fail
    case Nothing(next) => Ok(Arr(items, false), next, BetweenTokens)
    case Last(item, next, closed, halt) => Ok(Arr(items + [item], closed), next, halt)
    case More(item, next) => ReadItems(s, next, items + [item])
  }

  function ReadObject(s: Text, i: nat): (r: Reading<Node>)
    requires i < |s| && s[i] == OPEN_BRACE
    decreases |s| - i, 2
    ensures Advances(s, i, r)
    ensures r.Ok? ==> r.value.Obj?
  {
    var j := RunEnd(s, i + 1, Blanks);
    if j == |s| then Ok(Obj([], false), j, BetweenTokens)
    else if s[j] == CLOSE_BRACE then Ok(Obj([], true), j + 1, BetweenTokens)
    else ReadMembers(s, j, [])
  }

  /** A key up to its colon. The buffer may end before the colon, and then the key is dropped. */
  datatype KeyReading = Key(key: Text, colon: nat) | NoKey(next: nat, halt: Halt) | KeyFail

  function ReadKey(s: Text, i: nat): (r: KeyReading)
    requires i <= |s|
    ensures r.Key? ==> i < r.colon < |s| && s[r.colon] == COLON
    ensures r.NoKey? ==> r.next == |s|
  {
    var start := RunEnd(s, i, Blanks);
    if start == |s| then NoKey(start, BetweenTokens)
    else
      match ReadString(s, start)
      case StringFail => KeyFail
      case StringOk(token, next) =>
        if !token.done then NoKey(next, HaltOf(start, token))
        else
          var colon := RunEnd(s, next, Blanks);
          if colon == |s| then NoKey(colon, BetweenTokens)
          else if s[colon] != COLON then KeyFail
          else Key(token.text, colon)
  }

  /** The member a turn adds under its key. */
  function TurnMember(key: Text, turn: Turn): Member
    requires !turn.TurnFail?
  {
    Member(key, if turn.Nothing? then None else Some(turn.node))
  }

  /** The object loop, after the members in `members`. */
  function ReadMembers(s: Text, i: nat, members: seq<Member>): (r: Reading<Node>)
    requires i <= |s|
    decreases |s| - i, 5
    ensures Advances(s, i, r)
    ensures r.Ok? ==> r.value.Obj?
  {
    match ReadKey(s, i)
    case KeyFail => Fail
    case NoKey(next, halt) => Ok(Obj(members, false), next, halt)
    case Key(key, colon) => AfterTurn(s, colon + 1, members, key, ReadTurn(s, colon + 1, CLOSE_BRACE))
  }

  /** How the object loop goes on after the turn at `i`. */
  function AfterTurn(s: Text, i: nat, members: seq<Member>, key: Text, turn: Turn): (r: Reading<Node>)
    requires i <= |s| && turn == ReadTurn(s, i, CLOSE_BRACE)
    decreases |s| - i, 5
    ensures Advances(s, i, r)
    ensures r.Ok? ==> r.value.Obj?
  {
    match turn
    case TurnFail => Fail
    case Nothing(next) => Ok(Obj(members + [TurnMember(key, turn)], false), next, BetweenTokens)
    case Last(_, next, closed, halt) => Ok(Obj(members + [TurnMember(key, turn)], closed), next, halt)
    case More(_, next) => ReadMembers(s, next, members + [TurnMember(key, turn)])
  }

  /** The whole buffer: blanks, one object, blanks. */
  function ReadCard(s: Text): (r: Reading<Node>)
    ensures r.Ok? ==> r.value.Obj? && r.next == |s|
    ensures r.Ok? && r.value.done ==> r.halt == BetweenTokens
  {
    var i := RunEnd(s, 0, Blanks);
    if i < |s| && s[i] == OPEN_BRACE then
      match ReadObject(s, i)
      case Fail => Fail
      case Ok(node, next, halt) =>
        if RunEnd(s, next, Blanks) == |s| then Ok(node, |s|, halt) else Fail
    else Fail
  }

  // ----- one turn of a loop, unrolled, so that proofs can hide the readers themselves

  /** One turn of the object loop, unrolled. */
  lemma {:induction false} MembersTurn(s: Text, i: nat, members: seq<Member>, key: KeyReading)
    requires i <= |s| && key == ReadKey(s, i)
    ensures key.KeyFail? ==> ReadMembers(s, i, members) == Fail
    ensures key.NoKey? ==> ReadMembers(s, i, members) == Ok(Obj(members, false), key.next, key.halt)
    ensures key.Key? ==>
      ReadMembers(s, i, members) == AfterTurn(s, key.colon + 1, members, key.key, ReadTurn(s, key.colon + 1, CLOSE_BRACE))
  {
  }

  lemma {:induction false} MemberAdded(s: Text, i: nat, members: seq<Member>, key: Text, turn: Turn)
    requires i <= |s| && turn == ReadTurn(s, i, CLOSE_BRACE)
    ensures turn.TurnFail? ==> AfterTurn(s, i, members, key, turn) == Fail
    ensures turn.Nothing? ==>
      AfterTurn(s, i, members, key, turn) == Ok(Obj(members + [TurnMember(key, turn)], false), turn.next, BetweenTokens)
    ensures turn.Last? ==>
      AfterTurn(s, i, members, key, turn) == Ok(Obj(members + [TurnMember(key, turn)], turn.closed), turn.next, turn.halt)
    ensures turn.More? ==>
      AfterTurn(s, i, members, key, turn) == ReadMembers(s, turn.next, members + [TurnMember(key, turn)])
  {
  }

  lemma {:induction false} ItemAdded(s: Text, i: nat, items: seq<Node>, turn: Turn)
    requires i <= |s| && turn == ReadTurn(s, i, CLOSE_BRACKET)
    ensures turn.TurnFail? ==> ReadItems(s, i, items) == Fail
    ensures turn.Nothing? ==> ReadItems(s, i, items) == Ok(Arr(items, false), turn.next, BetweenTokens)
    ensures turn.Last? ==> ReadItems(s, i, items) == Ok(Arr(items + [turn.node], turn.closed), turn.next, turn.halt)
    ensures turn.More? ==> ReadItems(s, i, items) == ReadItems(s, turn.next, items + [turn.node])
  {
  }

  predicate ItemsDone(items: seq<Node>) {
    forall k :: 0 <= k < |items| ==> items[k].done
  }

  predicate MembersDone(members: seq<Member>) {
    forall k :: 0 <= k < |members| ==> members[k].val.Some? && members[k].val.value.done
  }

  /** The array loop only appends. */
  lemma {:induction false} ItemsKept(s: Text, i: nat, items: seq<Node>)
    requires i <= |s|
    ensures ReadItems(s, i, items).Ok? ==> items <= ReadItems(s, i, items).value.items
    decreases |s| - i
  {
    hide ReadItems, ReadTurn;
    var turn := ReadTurn(s, i, CLOSE_BRACKET);
    ItemAdded(s, i, items, turn);
    if turn.More? {
      ItemsKept(s, turn.next, items + [turn.node]);
    }
  }

  /** The object loop only appends. */
  lemma {:induction false} MembersKept(s: Text, i: nat, members: seq<Member>)
    requires i <= |s|
    ensures ReadMembers(s, i, members).Ok? ==> members <= ReadMembers(s, i, members).value.members
    decreases |s| - i
  {
    hide ReadMembers, ReadTurn, AfterTurn, ReadKey;
    var key := ReadKey(s, i);
    MembersTurn(s, i, members, key);
    if key.Key? {
      var turn := ReadTurn(s, key.colon + 1, CLOSE_BRACE);
      MemberAdded(s, key.colon + 1, members, key.key, turn);
      if turn.More? {
        MembersKept(s, turn.next, members + [TurnMember(key.key, turn)]);
      }
    }
  }
}
