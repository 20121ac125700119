/** The parser object: a cursor over the buffer, moved by mutually recursive methods.

    Each method is tied to the function of `PartialReader` it computes: it returns that
    function's value and leaves the cursor where that function says. */
module PartialJsonParser {
  import opened JsonText
  import opened NumberToken
  import opened PartialReader

  datatype Result<+T> = Success(value: T) | Failure {
    predicate IsFailure() { Failure? }
    function PropagateFailure<U>(): Result<U> requires Failure? { Failure }
    function Extract(): T requires Success? { value }
  }

  /** A value read in one turn of a loop, and whether the loop ends with it. */
  datatype TurnValue = TurnValue(found: bool, val: Json, last: bool)

  class Parser {
    const source: Text
    var index: nat

    ghost predicate Valid()
      reads this
    {
      index <= |source|
    }

    constructor (source: Text)
      ensures Valid() && this.source == source && index == 0
    {
      this.source := source;
      index := 0;
    }

    /** The outcome of a method that read a value from `start` on. */
    ghost predicate Follows(reading: Reading<Node>, result: Result<Json>)
      reads this
    {
      match reading
      case Fail => result == Failure
      case Ok(node, next, _) => result == Success(ValueOf(node)) && index == next
    }

    method Parse() returns (result: Result<Json>)
      requires Valid() && index == 0
      modifies this
      ensures Valid()
      ensures Follows(ReadCard(source), result)
    {
      SkipBlanks();
      if index == |source| || source[index] != OPEN_BRACE {
        return Failure;
      }
      var value :- ParseObject();
      SkipBlanks();
      if index != |source| {
        return Failure;
      }
      return Success(value);
    }

    method ParseObject() returns (result: Result<Json>)
      requires Valid() && index < |source| && source[index] == OPEN_BRACE
      modifies this
      decreases |source| - index, 2
      ensures Valid()
      ensures Follows(ReadObject(source, old(index)), result)
    {
      index := index + 1;
      SkipBlanks();
      if index == |source| {
        return Success(JObject([]));
      }
      if source[index] == CLOSE_BRACE {
        index := index + 1;
        return Success(JObject([]));
      }
      result := ParseMembers();
    }

    /** The object loop. */
    method ParseMembers() returns (result: Result<Json>)
      requires Valid()
      modifies this
      decreases |source| - index, 5
      ensures Valid()
      ensures Follows(ReadMembers(source, old(index), []), result)
    {
      hide ReadMembers, AfterTurn, ReadTurn, ReadKey, Put, EntriesOf;
      var entries: seq<Entry> := [];
      ghost var reading := ReadMembers(source, index, []);
      ghost var members: seq<Member> := [];
      NoEntries();
      while true
        invariant old(index) <= index <= |source|
        invariant entries == EntriesOf(members)
        invariant ReadMembers(source, index, members) == reading
        decreases |source| - index
      {
        MembersTurn(source, index, members, ReadKey(source, index));
        var key :- ParseKey();
        if key.None? {
          return Success(JObject(entries));
        }
        ghost var turn := ReadTurn(source, index, CLOSE_BRACE);
        MemberAdded(source, index, members, key.value, turn);
        var value :- ParseTurn(CLOSE_BRACE);
        entries := Put(entries, key.value, value.val);
        ghost var member := TurnMember(key.value, turn);
        EntriesAppend(members, member);
        members := members + [member];
        if value.last {
          return Success(JObject(entries));
        }
      }
    }

    method ParseArray() returns (result: Result<Json>)
      requires Valid() && index < |source| && source[index] == OPEN_BRACKET
      modifies this
      decreases |source| - index, 2
      ensures Valid()
      ensures Follows(ReadArray(source, old(index)), result)
    {
      index := index + 1;
      SkipBlanks();
      if index == |source| {
        return Success(JArray([]));
      }
      if source[index] == CLOSE_BRACKET {
        index := index + 1;
        return Success(JArray([]));
      }
      result := ParseItems();
    }

    /** The array loop. */
    method ParseItems() returns (result: Result<Json>)
      requires Valid()
      modifies this
      decreases |source| - index, 5
      ensures Valid()
      ensures Follows(ReadItems(source, old(index), []), result)
    {
      hide ReadItems, ReadTurn;
      var values: seq<Json> := [];
      ghost var reading := ReadItems(source, index, []);
      ghost var items: seq<Node> := [];
      while true
        invariant old(index) <= index <= |source|
        invariant values == ValuesOf(items)
        invariant ReadItems(source, index, items) == reading
        decreases |source| - index
      {
        ghost var turn := ReadTurn(source, index, CLOSE_BRACKET);
        ItemAdded(source, index, items, turn);
        var value :- ParseTurn(CLOSE_BRACKET);
        if !value.found {
          return Success(JArray(values));
        }
        values := values + [value.val];
        AppendItem(items, turn.node);
        items := items + [turn.node];
        if value.last {
          return Success(JArray(values));
        }
      }
    }

    /** One turn of either loop: blanks, a value, and the closer or comma behind it. At the
        end of the buffer there is no value, and an object stores null under the key. */
    method ParseTurn(closer: Code) returns (result: Result<TurnValue>)
      requires Valid()
      modifies this
      decreases |source| - index, 4
      ensures Valid()
      ensures match ReadTurn(source, old(index), closer)
              case TurnFail => result == Failure
              case Nothing(next) => result == Success(TurnValue(false, JNull, true)) && index == next
              case Last(node, next, _, _) => result == Success(TurnValue(true, ValueOf(node), true)) && index == next
              case More(node, next) => result == Success(TurnValue(true, ValueOf(node), false)) && index == next
    {
      SkipBlanks();
      if index == |source| {
        return Success(TurnValue(false, JNull, true));
      }
      var val :- ParseValue();
      SkipBlanks();
      if index == |source| {
        return Success(TurnValue(true, val, true));
      }
      var marker := source[index];
      if marker == closer {
        index := index + 1;
        return Success(TurnValue(true, val, true));
      }
      if marker != COMMA {
        return Failure;
      }
      index := index + 1;
      return Success(TurnValue(true, val, false));
    }

    /** The key of one turn of the object loop. The cursor ends behind the colon, or at the
        end of the buffer when there is no whole key with a colon. */
    method ParseKey() returns (result: Result<Option<Text>>)
      requires Valid()
      modifies this
      ensures Valid()
      ensures match ReadKey(source, old(index))
              case KeyFail => result == Failure
              case NoKey(next, _) => result == Success(None) && index == next
              case Key(key, colon) => result == Success(Some(key)) && index == colon + 1
    {
      SkipBlanks();
      if index == |source| {
        return Success(None);
      }
      if source[index] != QUOTE {
        return Failure;
      }
      var token :- ParseString();
      if !token.1 {
        return Success(None);
      }
      SkipBlanks();
      if index == |source| {
        return Success(None);
      }
      if source[index] != COLON {
        return Failure;
      }
      index := index + 1;
      return Success(Some(token.0));
    }

    method ParseValue() returns (result: Result<Json>)
      requires Valid()
      modifies this
      decreases |source| - index, 3
      ensures Valid()
      ensures Follows(ReadValue(source, old(index)), result)
    {
      if index == |source| {
        result := ParseLiteral();
        return;
      }
      var marker := source[index];
      if marker == OPEN_BRACE {
        result := ParseObject();
      } else if marker == OPEN_BRACKET {
        result := ParseArray();
      } else if marker == QUOTE {
        var token :- ParseString();
        result := Success(JString(token.0));
      } else if StartsLiteral(marker) {
        result := ParseLiteral();
      } else if marker == MINUS || IsDigit(marker) {
        result := ParseNumber();
      } else {
        result := Failure;
      }
    }

    /** The text of the string and whether its closing quote was there. */
    method ParseString() returns (result: Result<(Text, bool)>)
      requires Valid()
      modifies this
      ensures Valid()
      ensures match ReadString(source, old(index))
              case StringFail => result == Failure
              case StringOk(token, next) => result == Success((token.text, token.done)) && index == next
    {
      if index == |source| || source[index] != QUOTE {
        return Failure;
      }
      index := index + 1;
      var text: Text := [];
      while index < |source|
        invariant old(index) < index <= |source|
        invariant ReadCharacters(source, index, text) == ReadCharacters(source, old(index) + 1, [])
        decreases |source| - index
      {
        var current := source[index];
        index := index + 1;
        if current == QUOTE {
          return Success((text, true));
        }
        if current != BACKSLASH {
          if current < 0x20 {
            return Failure;
          }
          text := text + [current];
          continue;
        }
        if index == |source| {
          return Success((text, false));
        }
        var escaped := source[index];
        if escaped == LOWER_U {
          if |source| - (index + 1) < 4 {
            index := |source|;
            return Success((text, false));
          }
          if !FourHex(source, index + 1) {
            return Failure;
          }
          text := text + [HexValue(source[index + 1], source[index + 2], source[index + 3], source[index + 4])];
          index := index + 5;
          continue;
        }
        match Unescape(escaped) {
          case None =>
            return Failure;
          case Some(c) =>
            text := text + [c];
            index := index + 1;
        }
      }
      return Success((text, false));
    }

    method ParseLiteral() returns (result: Result<Json>)
      requires Valid()
      modifies this
      ensures Valid()
      ensures Follows(ReadLiteral(source, old(index)), result)
    {
      var start := index;
      SkipRun(Letters);
      var token := source[start..index];
      if IsLiteral(token) || IsLiteralBeginning(token) {
        return Success(LiteralValue(token));
      }
      return Failure;
    }

    method ParseNumber() returns (result: Result<Json>)
      requires Valid()
      modifies this
      ensures Valid()
      ensures Follows(ReadNumber(source, old(index)), result)
    {
      var start := index;
      SkipRun(NumberBody);
      var token := source[start..index];
      if IsNumber(token) {
        return Success(JNumber(token));
      }
      if IsTolerated(token) {
        return Success(JNull);
      }
      return Failure;
    }

    method SkipBlanks()
      requires Valid()
      modifies this
      ensures Valid() && index == RunEnd(source, old(index), Blanks)
    {
      SkipRun(Blanks);
    }

    method SkipRun(run: Run)
      requires Valid()
      modifies this
      ensures Valid() && index == RunEnd(source, old(index), run)
    {
      while index < |source| && InRun(run, source[index])
        invariant old(index) <= index <= |source|
        invariant RunEnd(source, index, run) == RunEnd(source, old(index), run)
      {
        index := index + 1;
      }
    }
  }

  lemma {:induction false} AppendItem(items: seq<Node>, item: Node)
    ensures ValuesOf(items + [item]) == ValuesOf(items) + [ValueOf(item)]
  {
    assert (items + [item])[..|items|] == items;
  }
}
