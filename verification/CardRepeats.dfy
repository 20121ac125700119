/** Exactly which buffers never take back what they have shown: those in which a key occurs again
    only over null, and never shows anything but null. */
module CardRepeats {
  import opened JsonText
  import opened NumberToken
  import opened PartialReader
  import opened ScanRefinement
  import opened Truncation
  import opened PartialCard
  import opened CardTheorems
  import opened CardStream

  /** Two prefixes, the longer of which does not keep what the shorter one shows. */
  ghost predicate Spoils(s: Text, t: Text, u: Text, a: Reading<Node>, b: Reading<Node>) {
    t <= u <= s && a.Ok? && b.Ok? && !a.value.done && !b.value.done && !Keeps(a.value, ValueOf(b.value))
  }

  // ----- one object

  lemma {:induction false} IndexIs(entries: seq<Entry>, key: Text, k: nat)
    requires k < |entries| && entries[k].key == key && forall i :: 0 <= i < k ==> entries[i].key != key
    ensures IndexOf(entries, key) == k
  {
  }

  /** Writing another value under a key that is there takes the old value back. */
  lemma {:induction false} TakenBack(members: seq<Member>, member: Member)
    requires MembersDone(members) && IndexOf(EntriesOf(members), member.key) < |EntriesOf(members)|
    requires MemberValue(member) != EntriesOf(members)[IndexOf(EntriesOf(members), member.key)].val
    ensures !Keeps(Obj(members, false), ValueOf(Obj(members + [member], false)))
  {
    hide EntriesOf, MembersDone;
    var entries := EntriesOf(members);
    var k := IndexOf(entries, member.key);
    EntriesAppend(members, member);
    var after := EntriesOf(members + [member]);
    assert after == entries[k := Entry(member.key, MemberValue(member))];
    var m := EntryFrom(members, k);
    LastIsDone(members);
    var last := members[|members| - 1];
    if last.key == member.key {
      assert m == |members| - 1;
      IndexIs(after, member.key, k);
    }
  }

  lemma {:induction false} LastIsDone(members: seq<Member>)
    requires MembersDone(members)
    ensures members != [] ==> members[|members| - 1].val.Some? && members[|members| - 1].val.value.done
  {
  }

  /** What the entry of a key shows that occurs among harmless repetitions. */
  lemma {:induction false} ShownBefore(members: seq<Member>, i: nat, key: Text)
    requires HarmlessRepeats(members) && i < |members| && members[i].key == key
    ensures IndexOf(EntriesOf(members), key) < |EntriesOf(members)|
    ensures EntriesOf(members)[IndexOf(EntriesOf(members), key)].val == JNull <==> MemberValue(members[i]) == JNull
  {
    hide EntriesOf;
    EntryFor(members, i);
    var k := IndexOf(EntriesOf(members), key);
    var m := EntryFrom(members, k);
    if m > i {
      NeverShown(members[m]);
    }
  }

  /** A change on the last path shows in the whole object. */
  lemma {:induction false} MemberSpoils(members: seq<Member>, key: Text, x: Node, y: Node)
    requires !Keeps(x, ValueOf(y))
    ensures !Keeps(Obj(members + [Member(key, Some(x))], false), ValueOf(Obj(members + [Member(key, Some(y))], false)))
  {
    hide EntriesOf;
    EntriesAppend(members, Member(key, Some(y)));
    PutKeeps(EntriesOf(members), key, JNull, ValueOf(y));
  }

  lemma {:induction false} ItemSpoils(items: seq<Node>, x: Node, y: Node)
    requires !Keeps(x, ValueOf(y))
    ensures !Keeps(Arr(items + [x], false), ValueOf(Arr(items + [y], false)))
  {
    ValuesAt(items + [y]);
  }

  // ----- keys and turns of prefixes

  lemma {:induction false} KeyStays(t: Text, s: Text, i: nat)
    requires t <= s && i <= |t| && ReadKey(s, i).Key?
    ensures ReadKey(s, i).colon < |t| ==> ReadKey(t, i) == ReadKey(s, i)
    ensures ReadKey(s, i).colon == |t| ==> ReadKey(t, i).NoKey?
  {
    hide ReadKey;
    CutKey(t, s, i);
  }

  /** A turn whose value reaches the end of the prefix. */
  lemma {:induction false} TurnEnds(t: Text, s: Text, i: nat, closer: Code, start: nat)
    requires t <= s && i <= |s| && start == RunEnd(s, i, Blanks) < |t|
    requires ReadValue(t, start).Ok? && !ReadValue(t, start).value.done
    ensures ReadTurn(t, i, closer) == Last(ReadValue(t, start).value, |t|, false, ReadValue(t, start).halt)
  {
    hide ReadValue;
    RunEndCut(t, s, i, Blanks);
  }

  lemma {:induction false} TurnStarts(s: Text, i: nat, closer: Code)
    requires i <= |s|
    ensures var turn := ReadTurn(s, i, closer); var start := RunEnd(s, i, Blanks);
      turn.Last? || turn.More? ==> start < |s| && ReadValue(s, start).Ok? && ReadValue(s, start).value == turn.node
  {
    hide ReadValue;
  }

  /** A member whose value shows something shows it at the end of some prefix. */
  lemma {:induction false} ShowsSomething(s: Text, i: nat) returns (u: Text)
    requires i < |s| && ReadValue(s, i).Ok? && !NeverShows(Some(ReadValue(s, i).value))
    ensures u <= s && i < |u|
    ensures ReadValue(u, i).Ok? && !ReadValue(u, i).value.done && ValueOf(ReadValue(u, i).value) != JNull
  {
    hide ReadItems, ReadMembers, ReadCharacters;
    u := s[..i + 1];
    if s[i] == OPEN_BRACE {
      assert ReadObject(u, i) == Ok(Obj([], false), i + 1, BetweenTokens);
    } else if s[i] == OPEN_BRACKET {
      assert ReadArray(u, i) == Ok(Arr([], false), i + 1, BetweenTokens);
    } else if s[i] == QUOTE {
      EmptyString(u);
    } else if StartsLiteral(s[i]) {
      u := LiteralShows(s, i);
    } else {
      u := NumberShows(s, i);
    }
  }

  lemma {:induction false} EmptyString(u: Text)
    ensures ReadCharacters(u, |u|, []) == StringOk(StringToken([], false, false), |u|)
  {
  }

  lemma {:induction false} LiteralShows(s: Text, i: nat) returns (u: Text)
    requires i < |s| && StartsLiteral(s[i]) && ReadLiteral(s, i).Ok? && LiteralValue(ReadLiteral(s, i).value.token) != JNull
    ensures u <= s && i < |u| && u[i] == s[i]
    ensures ReadLiteral(u, i).Ok? && !ReadLiteral(u, i).value.done && LiteralValue(ReadLiteral(u, i).value.token) != JNull
  {
    var j := RunEnd(s, i, Letters);
    u := s[..j];
    RunEndCut(u, s, i, Letters);
    assert u[i..j] == s[i..j];
  }

  lemma {:induction false} NumberShows(s: Text, i: nat) returns (u: Text)
    requires i < |s| && ReadNumber(s, i).Ok? && !NeverShows(Some(ReadNumber(s, i).value))
    ensures u <= s && i < |u| && u[i] == s[i]
    ensures ReadNumber(u, i).Ok? && !ReadNumber(u, i).value.done && IsNumber(ReadNumber(u, i).value.token)
  {
    var j := RunEnd(s, i, NumberBody);
    var token := s[i..j];
    var k :| 0 <= k <= |token| && IsNumber(token[..k]);
    u := s[..i + k];
    RunEndCut(u, s, i, NumberBody);
    assert u[i..i + k] == s[i..i + k] == s[i..j][..k];
  }

  // ----- a harm, wherever it is, shows in two prefixes

  lemma {:induction false} SpoilValue(s: Text, i: nat) returns (t: Text, u: Text)
    requires i < |s| && ReadValue(s, i).Ok? && !Harmless(ReadValue(s, i).value)
    ensures i < |t| && t <= u <= s && Spoils(s, t, u, ReadValue(t, i), ReadValue(u, i))
    decreases |s| - i, 3
  {
    hide ReadObject, ReadArray, ReadString, ReadLiteral, ReadNumber, Keeps;
    assert s[i] == OPEN_BRACE || s[i] == OPEN_BRACKET by { HarmIsInside(s, i); }
    if s[i] == OPEN_BRACE {
      t, u := SpoilObject(s, i);
    } else {
      t, u := SpoilArray(s, i);
    }
  }

  lemma {:induction false} HarmIsInside(s: Text, i: nat)
    requires i < |s| && ReadValue(s, i).Ok? && !Harmless(ReadValue(s, i).value)
    ensures s[i] == OPEN_BRACE || s[i] == OPEN_BRACKET
  {
    hide ReadObject, ReadArray, ReadString;
  }

  lemma {:induction false} SpoilArray(s: Text, i: nat) returns (t: Text, u: Text)
    requires i < |s| && s[i] == OPEN_BRACKET && ReadArray(s, i).Ok? && !Harmless(ReadArray(s, i).value)
    ensures i < |t| && t <= u <= s && Spoils(s, t, u, ReadArray(t, i), ReadArray(u, i))
    decreases |s| - i, 2
  {
    hide ReadItems, Keeps;
    var j := RunEnd(s, i + 1, Blanks);
    t, u := SpoilItems(s, j, []);
    RunEndCut(t, s, i + 1, Blanks);
    RunEndCut(u, s, i + 1, Blanks);
  }

  lemma {:induction false} SpoilItems(s: Text, i: nat, items: seq<Node>) returns (t: Text, u: Text)
    requires i <= |s| && ReadItems(s, i, items).Ok? && !Harmless(ReadItems(s, i, items).value)
    requires forall k :: 0 <= k < |items| ==> Harmless(items[k])
    ensures i < |t| && t <= u <= s && Spoils(s, t, u, ReadItems(t, i, items), ReadItems(u, i, items))
    decreases |s| - i, 5
  {
    hide ReadItems, ReadTurn, ReadValue, Keeps;
    var turn, start := ReadTurn(s, i, CLOSE_BRACKET), RunEnd(s, i, Blanks);
    ItemAdded(s, i, items, turn);
    TurnStarts(s, i, CLOSE_BRACKET);
    if !Harmless(turn.node) {
      t, u := SpoilValue(s, start);
      TurnEnds(t, s, i, CLOSE_BRACKET, start);
      TurnEnds(u, s, i, CLOSE_BRACKET, start);
      ItemAdded(t, i, items, ReadTurn(t, i, CLOSE_BRACKET));
      ItemAdded(u, i, items, ReadTurn(u, i, CLOSE_BRACKET));
      ItemSpoils(items, ReadValue(t, start).value, ReadValue(u, start).value);
    } else {
      t, u := SpoilItems(s, turn.next, items + [turn.node]);
      TurnCut(t, s, i, CLOSE_BRACKET);
      TurnCut(u, s, i, CLOSE_BRACKET);
      ItemAdded(t, i, items, turn);
      ItemAdded(u, i, items, turn);
    }
  }

  lemma {:induction false} SpoilObject(s: Text, i: nat) returns (t: Text, u: Text)
    requires i < |s| && s[i] == OPEN_BRACE && ReadObject(s, i).Ok? && !Harmless(ReadObject(s, i).value)
    ensures i < |t| && t <= u <= s && Spoils(s, t, u, ReadObject(t, i), ReadObject(u, i))
    decreases |s| - i, 2
  {
    hide ReadMembers, Keeps;
    var j := RunEnd(s, i + 1, Blanks);
    t, u := SpoilMembers(s, j, []);
    RunEndCut(t, s, i + 1, Blanks);
    RunEndCut(u, s, i + 1, Blanks);
  }

  predicate ValuesHarmless(members: seq<Member>) {
    forall k :: 0 <= k < |members| ==> members[k].val.Some? ==> Harmless(members[k].val.value)
  }

  /** The key has occurred before, over another value than null or to show more than null. */
  predicate Clashes(members: seq<Member>, member: Member) {
    exists i :: 0 <= i < |members| && members[i].key == member.key
      && (MemberValue(members[i]) != JNull || !NeverShows(member.val))
  }

  lemma {:induction false} MoreHarmless(members: seq<Member>, member: Member)
    requires HarmlessRepeats(members) && ValuesHarmless(members)
    requires !Clashes(members, member) && (member.val.Some? ==> Harmless(member.val.value))
    ensures HarmlessRepeats(members + [member]) && ValuesHarmless(members + [member])
  {
    var all := members + [member];
    forall i, j | 0 <= i < j < |all| && all[i].key == all[j].key
      ensures MemberValue(all[i]) == JNull && NeverShows(all[j].val)
    {
      assert all[i] == members[i];
      assert j < |members| ==> all[j] == members[j];
    }
  }

  lemma {:induction false} HarmlessObject(members: seq<Member>, done: bool)
    ensures Harmless(Obj(members, done)) <==> HarmlessRepeats(members) && ValuesHarmless(members)
  {
  }

  lemma {:induction false} SpoilMembers(s: Text, i: nat, members: seq<Member>) returns (t: Text, u: Text)
    requires i <= |s| && ReadMembers(s, i, members).Ok? && !Harmless(ReadMembers(s, i, members).value)
    requires MembersDone(members) && HarmlessRepeats(members) && ValuesHarmless(members)
    ensures i < |t| && t <= u <= s && Spoils(s, t, u, ReadMembers(t, i, members), ReadMembers(u, i, members))
    decreases |s| - i, 5
  {
    hide ReadMembers, ReadKey, AfterTurn, ReadTurn, ReadValue, Keeps, Harmless, HarmlessRepeats, ValuesHarmless, NeverShows, Clashes;
    var key := ReadKey(s, i);
    MembersTurn(s, i, members, key);
    HarmlessObject(members, false);
    var turn := ReadTurn(s, key.colon + 1, CLOSE_BRACE);
    MemberAdded(s, key.colon + 1, members, key.key, turn);
    TurnStarts(s, key.colon + 1, CLOSE_BRACE);
    var member := TurnMember(key.key, turn);
    if Clashes(members, member) {
      t, u := SpoilClash(s, i, members);
    } else if member.val.Some? && !Harmless(member.val.value) {
      t, u := SpoilMember(s, i, members);
    } else {
      MoreHarmless(members, member);
      HarmlessObject(members + [member], true);
      HarmlessObject(members + [member], false);
      t, u := SpoilMembers(s, turn.next, members + [member]);
      SameTurnThen(t, s, i, members);
      SameTurnThen(u, s, i, members);
    }
  }

  /** A prefix that goes beyond a turn reads that turn. */
  lemma {:induction false} SameTurnThen(t: Text, s: Text, i: nat, members: seq<Member>)
    requires t <= s && i <= |s| && ReadKey(s, i).Key?
    requires var turn := ReadTurn(s, ReadKey(s, i).colon + 1, CLOSE_BRACE); turn.More? && turn.next <= |t|
    ensures var turn := ReadTurn(s, ReadKey(s, i).colon + 1, CLOSE_BRACE);
      ReadMembers(t, i, members) == ReadMembers(t, turn.next, members + [TurnMember(ReadKey(s, i).key, turn)])
  {
    hide ReadMembers, ReadKey, AfterTurn, ReadTurn;
    var key := ReadKey(s, i);
    var turn := ReadTurn(s, key.colon + 1, CLOSE_BRACE);
    KeyStays(t, s, i);
    TurnCut(t, s, key.colon + 1, CLOSE_BRACE);
    MembersTurn(t, i, members, key);
    MemberAdded(t, key.colon + 1, members, key.key, turn);
  }

  /** The harm is inside the value of this member. */
  lemma {:induction false} SpoilMember(s: Text, i: nat, members: seq<Member>) returns (t: Text, u: Text)
    requires i <= |s| && ReadKey(s, i).Key?
    requires var turn := ReadTurn(s, ReadKey(s, i).colon + 1, CLOSE_BRACE); (turn.Last? || turn.More?) && !Harmless(turn.node)
    ensures i < |t| && t <= u <= s && Spoils(s, t, u, ReadMembers(t, i, members), ReadMembers(u, i, members))
    decreases |s| - i, 4
  {
    hide ReadMembers, ReadKey, AfterTurn, ReadTurn, ReadValue, Keeps, Harmless;
    var key := ReadKey(s, i);
    var at := key.colon + 1;
    var start := RunEnd(s, at, Blanks);
    TurnStarts(s, at, CLOSE_BRACE);
    t, u := SpoilValue(s, start);
    EndsInValue(t, s, i, members, start);
    EndsInValue(u, s, i, members, start);
    MemberSpoils(members, key.key, ReadValue(t, start).value, ReadValue(u, start).value);
  }

  /** A prefix that ends inside the value of a member. */
  lemma {:induction false} EndsInValue(t: Text, s: Text, i: nat, members: seq<Member>, start: nat)
    requires t <= s && i <= |s| && ReadKey(s, i).Key? && start == RunEnd(s, ReadKey(s, i).colon + 1, Blanks) < |t|
    requires ReadValue(t, start).Ok? && !ReadValue(t, start).value.done
    ensures var r := ReadMembers(t, i, members);
      r.Ok? && r.value == Obj(members + [Member(ReadKey(s, i).key, Some(ReadValue(t, start).value))], false)
  {
    hide ReadMembers, ReadKey, AfterTurn, ReadTurn, ReadValue;
    var key := ReadKey(s, i);
    var at := key.colon + 1;
    KeyStays(t, s, i);
    TurnEnds(t, s, at, CLOSE_BRACE, start);
    MembersTurn(t, i, members, key);
    MemberAdded(t, at, members, key.key, ReadTurn(t, at, CLOSE_BRACE));
  }

  /** A prefix that ends at the colon, and one that ends behind it. */
  lemma {:induction false} EndsAtColon(t: Text, s: Text, i: nat, members: seq<Member>)
    requires t <= s && i <= |s| && ReadKey(s, i).Key?
    requires |t| == ReadKey(s, i).colon || |t| == ReadKey(s, i).colon + 1
    ensures var r := ReadMembers(t, i, members);
      r.Ok? && r.value == Obj(members + if |t| == ReadKey(s, i).colon then [] else [Member(ReadKey(s, i).key, None)], false)
  {
    hide ReadMembers, ReadKey, AfterTurn, ReadValue;
    var key := ReadKey(s, i);
    KeyStays(t, s, i);
    MembersTurn(t, i, members, ReadKey(t, i));
    if |t| == key.colon + 1 {
      MemberAdded(t, key.colon + 1, members, key.key, ReadTurn(t, key.colon + 1, CLOSE_BRACE));
    } else {
      assert members + [] == members;
    }
  }

  lemma {:induction false} SpoilClash(s: Text, i: nat, members: seq<Member>) returns (t: Text, u: Text)
    requires i <= |s| && ReadKey(s, i).Key? && MembersDone(members) && HarmlessRepeats(members)
    requires var turn := ReadTurn(s, ReadKey(s, i).colon + 1, CLOSE_BRACE);
      !turn.TurnFail? && Clashes(members, TurnMember(ReadKey(s, i).key, turn))
    ensures i < |t| && t <= u <= s && Spoils(s, t, u, ReadMembers(t, i, members), ReadMembers(u, i, members))
  {
    hide ReadMembers, ReadKey, AfterTurn, ReadTurn, ReadValue, Keeps, HarmlessRepeats, NeverShows, MembersDone, EntriesOf;
    var key := ReadKey(s, i);
    var at := key.colon + 1;
    var turn := ReadTurn(s, at, CLOSE_BRACE);
    var member := TurnMember(key.key, turn);
    var k :| 0 <= k < |members| && members[k].key == key.key && (MemberValue(members[k]) != JNull || !NeverShows(member.val));
    t := s[..key.colon];
    EndsAtColon(t, s, i, members);
    ShownBefore(members, k, key.key);
    if MemberValue(members[k]) != JNull {
      u := s[..at];
      EndsAtColon(u, s, i, members);
      TakenBack(members, Member(key.key, None));
    } else {
      TurnStarts(s, at, CLOSE_BRACE);
      var start := RunEnd(s, at, Blanks);
      NothingNeverShows(member);
      u := ShowsSomething(s, start);
      EndsInValue(u, s, i, members, start);
      TakenBack(members, Member(key.key, Some(ReadValue(u, start).value)));
    }
    assert members + [] == members;
  }

  lemma {:induction false} NothingNeverShows(member: Member)
    requires !NeverShows(member.val)
    ensures member.val.Some?
  {
  }

  // ----- the whole buffer

  lemma {:induction false} SpoilCard(s: Text) returns (t: Text, u: Text)
    requires ReadCard(s).Ok? && !Harmless(NodeRead(s))
    ensures t <= u <= s && HoldsBrace(t, s) && ReadCard(t).Ok? && ReadCard(u).Ok?
    ensures !Keeps(NodeRead(t), ValueOf(NodeRead(u)))
  {
    hide ReadObject, Keeps, Harmless;
    var i := RunEnd(s, 0, Blanks);
    t, u := SpoilObject(s, i);
    RunEndCut(t, s, 0, Blanks);
    RunEndCut(u, s, 0, Blanks);
  }

  /** Along the stream that leads to the buffer nothing shown is ever taken back. */
  ghost predicate NeverTakesBack(s: Text) {
    forall t, u :: t <= u <= s && HoldsBrace(t, s) ==>
      ReadCard(t).Ok? && ParseOf(u).value.Some? && Keeps(NodeRead(t), ParseOf(u).value.value)
  }

  lemma {:induction false} HoldsBraceCut(t: Text, u: Text, s: Text)
    requires t <= u <= s && HoldsBrace(t, s)
    ensures HoldsBrace(u, s) && HoldsBrace(t, u)
  {
    RunEndCut(u, s, 0, Blanks);
  }

  /** Nothing is ever taken back exactly when no repeated key does harm. */
  lemma {:induction false} NeverTakesBackIff(s: Text)
    requires ParseOf(s).value.Some?
    ensures ReadCard(s).Ok?
    ensures NeverTakesBack(s) <==> Harmless(NodeRead(s))
  {
    hide ReadCard, Keeps, Harmless, ParseOf, Grows;
    AcceptedMeans(s);
    if Harmless(NodeRead(s)) {
      forall t, u | t <= u <= s && HoldsBrace(t, s)
        ensures ReadCard(t).Ok? && ParseOf(u).value.Some? && Keeps(NodeRead(t), ParseOf(u).value.value)
      {
        HoldsBraceCut(t, u, s);
        PrefixAccepted(u, s);
        HarmlessCut(NodeRead(u), NodeRead(s));
        ShownOnlyGrows(t, u);
      }
    } else {
      var t, u := SpoilCard(s);
      HoldsBraceCut(t, u, s);
      PrefixAccepted(u, s);
    }
  }
}
