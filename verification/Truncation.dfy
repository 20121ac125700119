/** Two readings of one stream: of a buffer, and of the same buffer cut short.

    What the short buffer shows as finished is there, unchanged, in the long one; what it
    leaves open only grows. This holds for every buffer the parser accepts, well formed or
    not. */
module Truncation {
  import opened JsonText
  import opened NumberToken
  import opened PartialReader

  /** Finished nodes stay as they are; an open node grows along its last path. */
  ghost predicate Grows(a: Node, b: Node)
    decreases a
  {
    if a.done then a == b
    else
      match a
      case Literal(token, _) => b.Literal? && token <= b.token && IsLiteralBeginning(b.token)
      case Number(token, _) => b.Number? && token <= b.token
      case Str(text, _) => b.Str? && text <= b.text
      case Arr(items, _) =>
        && b.Arr? && |items| <= |b.items|
        && (forall k :: 0 <= k < |items| - 1 ==> items[k] == b.items[k])
        && (items != [] ==> Grows(items[|items| - 1], b.items[|items| - 1]))
      case Obj(members, _) =>
        && b.Obj? && |members| <= |b.members|
        && (forall k :: 0 <= k < |members| - 1 ==> members[k] == b.members[k])
        && (members != [] ==>
              var last := members[|members| - 1];
              var next := b.members[|members| - 1];
              && last.key == next.key
              && (last.val.Some? ==> next.val.Some? && Grows(last.val.value, next.val.value)))
  }

  predicate Torn(halt: Halt) {
    halt.InString? && halt.torn
  }

  /** How the reading `a` of a buffer of length `n` relates to the reading `b` of a longer one. */
  ghost predicate CutOf(n: nat, a: Reading<Node>, b: Reading<Node>) {
    b.Ok? ==>
      && a.Ok?
      && (if a.value.done then a == b else a.next == n <= b.next)
      && Grows(a.value, b.value)
      && (Torn(a.halt) ==> b.value == a.value && b.halt == a.halt)
  }

  // ----- strings

  /** Cutting the rest of a string cannot make it hold a closing quote. */
  lemma {:induction false} ClosesStringCut(t: Text, s: Text, i: nat)
    requires t <= s && ClosesString(t, i)
    ensures ClosesString(s, i)
    decreases |t| - i
  {
    if t[i] != QUOTE {
      ClosesStringCut(t, s, if t[i] == BACKSLASH then i + 2 else i + 1);
    }
  }

  lemma {:induction false} HexHoldsNoQuote(t: Text, i: nat)
    requires |t| <= i + 4
    requires forall k :: i <= k < |t| ==> IsHex(t[k])
    ensures !ClosesString(t, i)
    decreases |t| - i
  {
    if |t| <= i {
    } else {
      HexHoldsNoQuote(t, i + 1);
    }
  }

  ghost predicate StringCutOf(n: nat, a: StringReading, b: StringReading) {
    b.StringOk? ==>
      && a.StringOk?
      && (if a.token.done then a == b else a.next == n <= b.next)
      && a.token.text <= b.token.text
      && (a.token.torn ==> b.token == a.token)
  }

  lemma {:induction false} CharactersKept(s: Text, i: nat, text: Text)
    requires i <= |s|
    ensures ReadCharacters(s, i, text).StringOk? ==> text <= ReadCharacters(s, i, text).token.text
    decreases |s| - i
  {
    if i == |s| || s[i] == QUOTE {
    } else if s[i] != BACKSLASH {
      CharactersKept(s, i + 1, text + [s[i]]);
    } else if i + 1 == |s| {
    } else if s[i + 1] == LOWER_U {
      if i + 6 <= |s| && FourHex(s, i + 2) {
        CharactersKept(s, i + 6, text + [HexValue(s[i + 2], s[i + 3], s[i + 4], s[i + 5])]);
      }
    } else if Unescape(s[i + 1]).Some? {
      CharactersKept(s, i + 2, text + [Unescape(s[i + 1]).value]);
    }
  }

  lemma {:induction false} CutCharacters(t: Text, s: Text, i: nat, text: Text)
    requires t <= s && i <= |t|
    ensures StringCutOf(|t|, ReadCharacters(t, i, text), ReadCharacters(s, i, text))
    decreases |t| - i
  {
    CharactersKept(s, i, text);
    if i == |t| || s[i] == QUOTE {
    } else if s[i] != BACKSLASH {
      if s[i] >= 0x20 {
        CutCharacters(t, s, i + 1, text + [s[i]]);
      }
    } else if i + 1 == |t| {
    } else if s[i + 1] == LOWER_U {
      CutUnicodeEscape(t, s, i, text);
    } else if Unescape(s[i + 1]).Some? {
      CutCharacters(t, s, i + 2, text + [Unescape(s[i + 1]).value]);
    }
  }

  /** A `\u` escape that the cut may fall into: its digits hold no quote. */
  lemma {:induction false} CutUnicodeEscape(t: Text, s: Text, i: nat, text: Text)
    requires t <= s && i + 1 < |t| && s[i] == BACKSLASH && s[i + 1] == LOWER_U
    ensures StringCutOf(|t|, ReadCharacters(t, i, text), ReadCharacters(s, i, text))
    decreases |t| - i, 0
  {
    CharactersKept(s, i, text);
    if |s| < i + 6 {
      if ClosesString(t, i + 2) {
        ClosesStringCut(t, s, i + 2);
      }
    } else if FourHex(s, i + 2) {
      if |t| < i + 6 {
        HexHoldsNoQuote(t, i + 2);
      } else {
        CutCharacters(t, s, i + 6, text + [HexValue(s[i + 2], s[i + 3], s[i + 4], s[i + 5])]);
      }
    }
  }

  lemma {:induction false} CutString(t: Text, s: Text, i: nat)
    requires t <= s && i < |t|
    ensures StringCutOf(|t|, ReadString(t, i), ReadString(s, i))
  {
    CutCharacters(t, s, i + 1, []);
  }

  // ----- tokens

  lemma {:induction false} TokenCut(t: Text, s: Text, i: nat, j: nat, k: nat)
    requires t <= s && i <= j <= k <= |s| && j <= |t|
    ensures t[i..j] == s[i..j] && t[i..j] <= s[i..k]
  {
    assert s[i..k][..j - i] == s[i..j];
  }

  lemma {:induction false} CutLiteral(t: Text, s: Text, i: nat)
    requires t <= s && i < |t|
    ensures CutOf(|t|, ReadLiteral(t, i), ReadLiteral(s, i))
  {
    RunEndCut(t, s, i, Letters);
    TokenCut(t, s, i, RunEnd(t, i, Letters), RunEnd(s, i, Letters));
  }

  lemma {:induction false} CutNumber(t: Text, s: Text, i: nat)
    requires t <= s && i < |t|
    ensures CutOf(|t|, ReadNumber(t, i), ReadNumber(s, i))
  {
    RunEndCut(t, s, i, NumberBody);
    TokenCut(t, s, i, RunEnd(t, i, NumberBody), RunEnd(s, i, NumberBody));
    var u := s[i..RunEnd(s, i, NumberBody)];
    if IsTolerated(u) {
      BeginningTolerated(t[i..RunEnd(t, i, NumberBody)], u);
    }
  }

  // ----- values

  lemma {:induction false} CutValue(t: Text, s: Text, i: nat)
    requires t <= s && i < |t|
    ensures CutOf(|t|, ReadValue(t, i), ReadValue(s, i))
    decreases |t| - i, 3
  {
    hide ReadObject, ReadArray, ReadString, ReadLiteral, ReadNumber;
    if s[i] == OPEN_BRACE {
      CutObject(t, s, i);
    } else if s[i] == OPEN_BRACKET {
      CutArray(t, s, i);
    } else if s[i] == QUOTE {
      CutString(t, s, i);
    } else if StartsLiteral(s[i]) {
      CutLiteral(t, s, i);
    } else if s[i] == MINUS || IsDigit(s[i]) {
      CutNumber(t, s, i);
    }
  }

  lemma {:induction false} CutArray(t: Text, s: Text, i: nat)
    requires t <= s && i < |t| && s[i] == OPEN_BRACKET
    ensures CutOf(|t|, ReadArray(t, i), ReadArray(s, i))
    decreases |t| - i, 2
  {
    hide ReadItems;
    var j := RunEnd(s, i + 1, Blanks);
    RunEndCut(t, s, i + 1, Blanks);
    if j < |t| {
      CutItems(t, s, j, []);
    } else if j < |s| {
      ItemsKept(s, j, []);
    }
  }

  lemma {:induction false} CutObject(t: Text, s: Text, i: nat)
    requires t <= s && i < |t| && s[i] == OPEN_BRACE
    ensures CutOf(|t|, ReadObject(t, i), ReadObject(s, i))
    decreases |t| - i, 2
  {
    hide ReadMembers;
    var j := RunEnd(s, i + 1, Blanks);
    RunEndCut(t, s, i + 1, Blanks);
    if j < |t| {
      CutMembers(t, s, j, []);
    } else if j < |s| {
      MembersKept(s, j, []);
    }
  }

  /** Turns of the two loops: the short one is over earlier, or it is the same turn. */
  ghost predicate TurnCutOf(n: nat, a: Turn, b: Turn) {
    !b.TurnFail? ==>
      match a
      case TurnFail => false
      case Nothing(_) => b.Nothing? || n <= b.next
      case More(_, _) => a == b
      case Last(node, _, closed, halt) =>
        if closed then a == b
        else
          && (b.Last? || b.More?) && n <= b.next
          && Grows(node, b.node)
          && (Torn(halt) ==> b.Last? && !b.closed && b.halt == halt && b.node == node)
  }

  lemma {:induction false} CutTurn(t: Text, s: Text, i: nat, closer: Code)
    requires t <= s && i <= |t|
    ensures TurnCutOf(|t|, ReadTurn(t, i, closer), ReadTurn(s, i, closer))
    decreases |t| - i, 4
  {
    hide ReadValue;
    var start := RunEnd(s, i, Blanks);
    RunEndCut(t, s, i, Blanks);
    if start < |t| {
      CutValue(t, s, start);
      var a, b := ReadValue(t, start), ReadValue(s, start);
      if b.Ok? && a.value.done {
        RunEndCut(t, s, a.next, Blanks);
      }
    }
  }

  lemma {:induction false} CutItems(t: Text, s: Text, i: nat, items: seq<Node>)
    requires t <= s && i <= |t| && ItemsDone(items)
    ensures CutOf(|t|, ReadItems(t, i, items), ReadItems(s, i, items))
    decreases |t| - i, 5
  {
    hide ReadItems, ReadTurn;
    var a, b := ReadTurn(t, i, CLOSE_BRACKET), ReadTurn(s, i, CLOSE_BRACKET);
    CutTurn(t, s, i, CLOSE_BRACKET);
    ItemAdded(t, i, items, a);
    ItemAdded(s, i, items, b);
    ItemsKept(s, i, items);
    if b.More? {
      ItemsKept(s, b.next, items + [b.node]);
    }
    if a.More? && a == b {
      CutItems(t, s, a.next, items + [a.node]);
    } else if a.Nothing? && ReadItems(s, i, items).Ok? {
      assert Grows(Arr(items, false), ReadItems(s, i, items).value);
    }
  }

  /** Keys: the short buffer ends before the colon, or the two agree. */
  ghost predicate KeyCutOf(n: nat, a: KeyReading, b: KeyReading) {
    !b.KeyFail? ==>
      match a
      case KeyFail => false
      case NoKey(next, halt) => next == n && (b.Key? ==> n <= b.colon && !Torn(halt)) && (Torn(halt) ==> b.NoKey? && b.halt == halt)
      case Key(_, _) => a == b
  }

  lemma {:induction false} CutKey(t: Text, s: Text, i: nat)
    requires t <= s && i <= |t|
    ensures KeyCutOf(|t|, ReadKey(t, i), ReadKey(s, i))
  {
    hide ReadString;
    var start := RunEnd(s, i, Blanks);
    RunEndCut(t, s, i, Blanks);
    if start < |t| {
      CutString(t, s, start);
      var a, b := ReadString(t, start), ReadString(s, start);
      if b.StringOk? && a.token.done {
        RunEndCut(t, s, a.next, Blanks);
      }
    }
  }

  lemma {:induction false} CutMembers(t: Text, s: Text, i: nat, members: seq<Member>)
    requires t <= s && i <= |t| && MembersDone(members)
    ensures CutOf(|t|, ReadMembers(t, i, members), ReadMembers(s, i, members))
    decreases |t| - i, 5
  {
    hide ReadMembers, ReadKey, AfterTurn, ReadTurn;
    var a, b := ReadKey(t, i), ReadKey(s, i);
    CutKey(t, s, i);
    MembersTurn(t, i, members, a);
    MembersTurn(s, i, members, b);
    MembersKept(s, i, members);
    if a.Key? && a == b {
      CutAfterKey(t, s, a.colon + 1, members, a.key);
    } else if a.NoKey? && ReadMembers(s, i, members).Ok? {
      assert Grows(Obj(members, false), ReadMembers(s, i, members).value);
    }
  }

  lemma {:induction false} CutAfterKey(t: Text, s: Text, i: nat, members: seq<Member>, key: Text)
    requires t <= s && i <= |t| && MembersDone(members)
    ensures CutOf(|t|, AfterTurn(t, i, members, key, ReadTurn(t, i, CLOSE_BRACE)),
                       AfterTurn(s, i, members, key, ReadTurn(s, i, CLOSE_BRACE)))
    decreases |t| - i, 5
  {
    hide ReadMembers, AfterTurn, ReadTurn;
    var a, b := ReadTurn(t, i, CLOSE_BRACE), ReadTurn(s, i, CLOSE_BRACE);
    CutTurn(t, s, i, CLOSE_BRACE);
    MemberAdded(t, i, members, key, a);
    MemberAdded(s, i, members, key, b);
    if b.More? {
      MembersKept(s, b.next, members + [TurnMember(key, b)]);
    }
    if a.More? && a == b {
      CutMembers(t, s, a.next, members + [TurnMember(key, a)]);
    }
  }

  /** Every prefix of an accepted buffer that holds the opening brace is accepted. */
  lemma {:induction false} CutCard(t: Text, s: Text)
    requires t <= s && RunEnd(s, 0, Blanks) < |t|
    requires ReadCard(s).Ok?
    ensures ReadCard(t).Ok?
    ensures Grows(ReadCard(t).value, ReadCard(s).value)
    ensures Torn(ReadCard(t).halt) ==> ReadCard(s).value == ReadCard(t).value && ReadCard(s).halt == ReadCard(t).halt
  {
    hide ReadObject;
    var i := RunEnd(s, 0, Blanks);
    RunEndCut(t, s, 0, Blanks);
    CutObject(t, s, i);
    RunEndCut(t, s, ReadObject(t, i).next, Blanks);
  }
}
