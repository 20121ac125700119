/** The flat scanner follows the recursive parser.

    On every buffer the parser accepts, the scanner's state is a function of what the parser
    read: its stack is the nest of containers left unfinished, and its closed paths are the
    paths of the finished objects. The one exception is a torn string. */
module ScanRefinement {
  import opened JsonText
  import opened NumberToken
  import opened PartialReader
  import opened CardScanner

  // ----- what a node says about the scanner's state

  /** The card paths closed inside a node whose own path is `path`. */
  function ClosedIn(node: Node, path: Text): seq<Text> {
    match node
    case Arr(items, _) => ItemsClosed(items, path)
    case Obj(members, done) => MembersClosed(members, path) + if done && IsCardPath(path) then [path] else []
    case _ => []
  }

  function ItemsClosed(items: seq<Node>, path: Text): seq<Text> {
    if items == [] then []
    else
      var k := |items| - 1;
      ItemsClosed(items[..k], path) + ClosedIn(items[k], ItemPath(path, k))
  }

  function MemberClosed(member: Member, path: Text): seq<Text> {
    match member.val
    case None => []
    case Some(node) => ClosedIn(node, KeyPath(path, member.key))
  }

  function MembersClosed(members: seq<Member>, path: Text): seq<Text> {
    if members == [] then []
    else
      var k := |members| - 1;
      MembersClosed(members[..k], path) + MemberClosed(members[k], path)
  }

  /** The containers a reading left unfinished, outermost first. */
  function OpenNest(node: Node): seq<Kind>
  {
    if node.done then []
    else
      match node
      case Arr(items, _) => [Array] + if items == [] then [] else OpenNest(items[|items| - 1])
      case Obj(members, _) => [Object] + MembersNest(members)
      case _ => []
  }

  function MembersNest(members: seq<Member>): seq<Kind> {
    if members == [] then []
    else
      match members[|members| - 1].val
      case None => []
      case Some(node) => OpenNest(node)
  }

  predicate IsContainer(node: Node) {
    node.Arr? || node.Obj?
  }

  /** The scanner's state after a finished node. */
  function AfterNode(st: ScanState, node: Node): ScanState {
    st.(frames := if IsContainer(node) then WithoutKey(st.frames) else st.frames,
        closed := st.closed + ClosedIn(node, ChildPath(st.frames)),
        l0Active := st.l0Active || (|st.frames| == 1 && node.Arr? && ChildPath(st.frames) == STEPS))
  }

  predicate InObject(st: ScanState) {
    st.frames != [] && st.frames[|st.frames| - 1].kind == Object
  }

  predicate ColonFollows(s: Text, j: nat)
    requires j <= |s|
  {
    RunEnd(s, j, Blanks) < |s| && s[RunEnd(s, j, Blanks)] == COLON
  }

  /** A string the parser never saw the end of begins at `start`. */
  ghost predicate OpenString(s: Text, start: nat, torn: bool) {
    && start < |s| && s[start] == QUOTE
    && var r := ReadString(s, start); r.StringOk? && !r.token.done && r.token.torn == torn
  }

  function HaltPoint(next: nat, halt: Halt): nat {
    if halt.InString? then halt.start + 1 else next
  }

  function HaltMode(halt: Halt): Mode {
    if halt.InString? then Inside(halt.start, false) else Outside
  }

  /** The scan from `i` comes to the state `fin` where the reading of `node` stopped. */
  ghost predicate Arrives(s: Text, i: nat, st: ScanState, node: Node, next: nat, halt: Halt, fin: ScanState) {
    && (halt.InString? ==> OpenString(s, halt.start, halt.torn))
    && i <= |s| && HaltPoint(next, halt) <= |s|
    && Scan(s, i, st) == Scan(s, HaltPoint(next, halt), fin)
    && fin.mode == HaltMode(halt)
    && fin.closed == AfterNode(st, node).closed
    && fin.l0Active == AfterNode(st, node).l0Active
    && if node.done then fin == AfterNode(st, node) && halt == BetweenTokens
       else Kinds(fin.frames) == Kinds(st.frames) + OpenNest(node)
  }

  // ----- appending to lists

  lemma {:induction false} ItemsClosedAppend(items: seq<Node>, item: Node, path: Text)
    ensures ItemsClosed(items + [item], path) == ItemsClosed(items, path) + ClosedIn(item, ItemPath(path, |items|))
  {
    assert (items + [item])[..|items|] == items;
  }

  lemma {:induction false} MembersClosedAppend(members: seq<Member>, member: Member, path: Text)
    ensures MembersClosed(members + [member], path) == MembersClosed(members, path) + MemberClosed(member, path)
  {
    assert (members + [member])[..|members|] == members;
  }

  lemma {:induction false} KindsSplit(frames: seq<Frame>)
    requires frames != []
    ensures Kinds(frames) == Kinds(frames[..|frames| - 1]) + [frames[|frames| - 1].kind]
  {
  }

  lemma {:induction false} KindsWithoutKey(frames: seq<Frame>)
    ensures Kinds(WithoutKey(frames)) == Kinds(frames)
  {
  }

  lemma {:induction false} ArrivalKinds(s: Text, i: nat, st: ScanState, node: Node, next: nat, halt: Halt, fin: ScanState)
    requires Arrives(s, i, st, node, next, halt, fin)
    ensures Kinds(fin.frames) == Kinds(st.frames) + OpenNest(node)
  {
    hide Scan, ReadString;
    KindsWithoutKey(st.frames);
  }

  /** Opening a container and closing it again. */
  lemma {:induction false} Opened(kind: Kind, st: ScanState)
    ensures var inside := OpenContainer(kind, st);
            && inside.frames[..|inside.frames| - 1] == WithoutKey(st.frames)
            && Kinds(inside.frames) == Kinds(st.frames) + [kind]
  {
    var inside := OpenContainer(kind, st);
    KindsSplit(inside.frames);
    KindsWithoutKey(st.frames);
    assert inside.frames[..|inside.frames| - 1] == WithoutKey(st.frames);
  }

  // ----- single steps and runs of plain characters

  predicate IsPlain(c: Code) {
    && c != QUOTE && c != COMMA
    && c != OPEN_BRACE && c != CLOSE_BRACE && c != OPEN_BRACKET && c != CLOSE_BRACKET
  }

  lemma {:induction false} ScanPlain(s: Text, i: nat, j: nat, st: ScanState)
    requires i <= j <= |s| && st.mode == Outside
    requires forall k :: i <= k < j ==> IsPlain(s[k])
    ensures Scan(s, i, st) == Scan(s, j, st)
    decreases j - i
  {
    if i == j {
    } else {
      ScanUnrolled(s, i, st);
      ScanPlain(s, i + 1, j, st);
    }
  }

  lemma {:induction false} SkipBlankRun(s: Text, i: nat, st: ScanState)
    requires i <= |s| && st.mode == Outside
    ensures Scan(s, i, st) == Scan(s, RunEnd(s, i, Blanks), st)
  {
    ScanPlain(s, i, RunEnd(s, i, Blanks), st);
  }

  lemma {:induction false} FollowLiteral(s: Text, i: nat, st: ScanState)
    requires i <= |s| && st.mode == Outside
    ensures Scan(s, i, st) == Scan(s, RunEnd(s, i, Letters), st)
  {
    ScanPlain(s, i, RunEnd(s, i, Letters), st);
  }

  lemma {:induction false} FollowNumber(s: Text, i: nat, st: ScanState)
    requires i <= |s| && st.mode == Outside
    requires ReadNumber(s, i).Ok?
    ensures Scan(s, i, st) == Scan(s, RunEnd(s, i, NumberBody), st)
  {
    var j := RunEnd(s, i, NumberBody);
    forall k | i <= k < j
      ensures IsPlain(s[k])
    {
      ToleratedCharacters(s[i..j], k - i);
      assert s[i..j][k - i] == s[k];
    }
    ScanPlain(s, i, j, st);
  }

  // ----- strings

  /** Inside a finished string the scanner reaches its closing quote. */
  lemma {:induction false} FollowCharacters(s: Text, i: nat, text: Text, st: ScanState, start: nat)
    requires i <= |s| && st.mode == Inside(start, false)
    requires ReadCharacters(s, i, text).StringOk? && ReadCharacters(s, i, text).token.done
    ensures var q := ReadCharacters(s, i, text).next - 1;
            i <= q < |s| && s[q] == QUOTE && Scan(s, i, st) == Scan(s, q, st)
    decreases |s| - i
  {
    if s[i] == QUOTE {
    } else if s[i] != BACKSLASH {
      ScanUnrolled(s, i, st);
      FollowCharacters(s, i + 1, text + [s[i]], st, start);
    } else {
      ScanUnrolled(s, i, st);
      ScanUnrolled(s, i + 1, st.(mode := Inside(start, true)));
      if s[i + 1] == LOWER_U {
        ScanHex(s, i + 2, st, start);
        FollowCharacters(s, i + 6, text + [HexValue(s[i + 2], s[i + 3], s[i + 4], s[i + 5])], st, start);
      } else {
        FollowCharacters(s, i + 2, text + [Unescape(s[i + 1]).value], st, start);
      }
    }
  }

  lemma {:induction false} ScanHex(s: Text, i: nat, st: ScanState, start: nat)
    requires i + 4 <= |s| && FourHex(s, i) && st.mode == Inside(start, false)
    ensures Scan(s, i, st) == Scan(s, i + 4, st)
  {
    hide Scan;
    ScanUnrolled(s, i, st);
    ScanUnrolled(s, i + 1, st);
    ScanUnrolled(s, i + 2, st);
    ScanUnrolled(s, i + 3, st);
  }

  /** The string read out of the buffer is the string read on its own. */
  lemma {:induction false} CharactersAlone(s: Text, a: nat, b: nat, i: nat, text: Text)
    requires a <= i <= b <= |s|
    requires ReadCharacters(s, i, text).StringOk? && ReadCharacters(s, i, text).token.done
    requires ReadCharacters(s, i, text).next == b
    ensures ReadCharacters(s[a..b], i - a, text) == StringOk(ReadCharacters(s, i, text).token, b - a)
    decreases |s| - i
  {
    var u := s[a..b];
    assert u[i - a] == s[i];
    if s[i] == QUOTE {
    } else if s[i] != BACKSLASH {
      CharactersAlone(s, a, b, i + 1, text + [s[i]]);
    } else {
      assert u[i + 1 - a] == s[i + 1];
      if s[i + 1] == LOWER_U {
        assert u[i + 2 - a] == s[i + 2] && u[i + 3 - a] == s[i + 3] && u[i + 4 - a] == s[i + 4] && u[i + 5 - a] == s[i + 5];
        CharactersAlone(s, a, b, i + 6, text + [HexValue(s[i + 2], s[i + 3], s[i + 4], s[i + 5])]);
      } else {
        CharactersAlone(s, a, b, i + 2, text + [Unescape(s[i + 1]).value]);
      }
    }
  }

  lemma {:induction false} StringAlone(s: Text, i: nat)
    requires i < |s| && s[i] == QUOTE
    requires ReadString(s, i).StringOk? && ReadString(s, i).token.done
    ensures var r := ReadString(s, i); ReadString(s[i..r.next], 0) == StringOk(r.token, r.next - i)
  {
    CharactersAlone(s, i, ReadString(s, i).next, i + 1, []);
  }

  /** A finished string that is not a key leaves the scanner as it was. */
  lemma {:induction false} FollowStringValue(s: Text, i: nat, st: ScanState)
    requires i < |s| && s[i] == QUOTE && st.mode == Outside
    requires ReadString(s, i).StringOk? && ReadString(s, i).token.done
    requires InObject(st) ==> !ColonFollows(s, ReadString(s, i).next)
    ensures Scan(s, i, st) == Scan(s, ReadString(s, i).next, st)
  {
    hide Scan, ReadCharacters;
    var inside := st.(mode := Inside(i, false));
    ScanUnrolled(s, i, st);
    FollowCharacters(s, i + 1, [], inside, i);
    ScanUnrolled(s, ReadString(s, i).next - 1, inside);
  }

  /** A finished string before a colon becomes the pending key. */
  lemma {:induction false} FollowKeyString(s: Text, i: nat, st: ScanState)
    requires i < |s| && s[i] == QUOTE && st.mode == Outside && InObject(st)
    requires ReadString(s, i).StringOk? && ReadString(s, i).token.done
    requires ColonFollows(s, ReadString(s, i).next)
    ensures Scan(s, i, st) == Scan(s, ReadString(s, i).next, WithKey(st, ReadString(s, i).token.text))
  {
    hide Scan, ReadString, ReadCharacters;
    var r := ReadString(s, i);
    var inside := st.(mode := Inside(i, false));
    ScanUnrolled(s, i, st);
    StringCloses(s, i, inside);
    StringAlone(s, i);
    ScanUnrolled(s, r.next - 1, inside);
    assert s[i..r.next - 1 + 1] == s[i..r.next];
  }

  lemma {:induction false} StringCloses(s: Text, i: nat, st: ScanState)
    requires i < |s| && s[i] == QUOTE && st.mode == Inside(i, false)
    requires ReadString(s, i).StringOk? && ReadString(s, i).token.done
    ensures var q := ReadString(s, i).next - 1;
            i < q < |s| && s[q] == QUOTE && Scan(s, i + 1, st) == Scan(s, q, st)
  {
    FollowCharacters(s, i + 1, [], st, i);
  }

  function WithKey(st: ScanState, key: Text): ScanState
    requires st.frames != []
  {
    var k := |st.frames| - 1;
    st.(frames := st.frames[k := st.frames[k].(pendingKey := Some(key))])
  }

  lemma {:induction false} FollowString(s: Text, i: nat, st: ScanState) returns (fin: ScanState)
    requires i < |s| && s[i] == QUOTE && st.mode == Outside
    requires ReadString(s, i).StringOk?
    requires ReadString(s, i).token.done && InObject(st) ==> !ColonFollows(s, ReadString(s, i).next)
    ensures var r := ReadString(s, i);
            Arrives(s, i, st, Str(r.token.text, r.token.done), r.next, HaltOf(i, r.token), fin)
  {
    hide Scan, ReadString, ChildPath;
    var r := ReadString(s, i);
    if r.token.done {
      FollowStringValue(s, i, st);
      fin := st;
    } else {
      ScanUnrolled(s, i, st);
      fin := st.(mode := Inside(i, false));
    }
  }

  // ----- values and turns

  lemma {:induction false} FollowValue(s: Text, i: nat, st: ScanState) returns (fin: ScanState)
    requires i < |s| && st.mode == Outside && st.frames != []
    requires ReadValue(s, i).Ok?
    requires ReadValue(s, i).value.Str? && ReadValue(s, i).value.done && InObject(st) ==> !ColonFollows(s, ReadValue(s, i).next)
    ensures var r := ReadValue(s, i); Arrives(s, i, st, r.value, r.next, r.halt, fin)
    decreases |s| - i, 3
  {
    hide Scan, ReadString, ReadArray, ReadObject, ChildPath;
    if s[i] == OPEN_BRACE {
      fin := FollowObject(s, i, st);
    } else if s[i] == OPEN_BRACKET {
      fin := FollowArray(s, i, st);
    } else if s[i] == QUOTE {
      fin := FollowString(s, i, st);
    } else if StartsLiteral(s[i]) {
      FollowLiteral(s, i, st);
      fin := st;
    } else {
      FollowNumber(s, i, st);
      fin := st;
    }
  }

  /** A turn of a loop, up to the closer or comma behind the value. */
  lemma {:induction false} FollowTurn(s: Text, i: nat, closer: Code, st: ScanState, turn: Turn) returns (fin: ScanState)
    requires i <= |s| && st.mode == Outside && st.frames != []
    requires closer == CLOSE_BRACE || closer == CLOSE_BRACKET
    requires turn == ReadTurn(s, i, closer) && !turn.TurnFail?
    ensures turn.Nothing? ==> Scan(s, i, st) == Scan(s, |s|, st)
    ensures turn.More? || (turn.Last? && turn.closed) ==>
      fin == AfterNode(st, turn.node) && Scan(s, i, st) == Scan(s, turn.next - 1, fin)
    ensures turn.More? ==> s[turn.next - 1] == COMMA
    ensures turn.Last? && turn.closed ==> s[turn.next - 1] == closer
    ensures turn.Last? && !turn.closed ==> Arrives(s, i, st, turn.node, turn.next, turn.halt, fin)
    decreases |s| - i, 4
  {
    hide Scan, ReadValue, ChildPath, ClosedIn;
    var start := RunEnd(s, i, Blanks);
    SkipBlankRun(s, i, st);
    fin := st;
    if start < |s| {
      fin := FollowValue(s, start, st);
      var r := ReadValue(s, start);
      if r.value.done {
        SkipBlankRun(s, r.next, fin);
      }
    }
  }

  lemma {:induction false} EmptyContainer(closed: seq<Text>, path: Text)
    ensures ItemsClosed([], path) == [] && MembersClosed([], path) == []
    ensures closed + [] == closed
    ensures OpenNest(Arr([], false)) == [Array] && OpenNest(Obj([], false)) == [Object]
  {
  }

  // ----- arrays

  lemma {:induction false} FollowArray(s: Text, i: nat, st: ScanState) returns (fin: ScanState)
    requires i < |s| && s[i] == OPEN_BRACKET && st.mode == Outside && st.frames != []
    requires ReadArray(s, i).Ok?
    ensures var r := ReadArray(s, i); Arrives(s, i, st, r.value, r.next, r.halt, fin)
    decreases |s| - i, 2
  {
    hide Scan, ReadItems, ChildPath;
    var inside := OpenContainer(Array, st);
    Opened(Array, st);
    KindsWithoutKey(st.frames);
    ScanUnrolled(s, i, st);
    SkipBlankRun(s, i + 1, inside);
    var j := RunEnd(s, i + 1, Blanks);
    EmptyContainer(st.closed, ChildPath(st.frames));
    if j == |s| {
      fin := inside;
    } else if s[j] == CLOSE_BRACKET {
      ScanUnrolled(s, j, inside);
      fin := CloseContainer(Array, inside).value;
    } else {
      fin := FollowItems(s, j, [], inside, st.closed);
    }
  }

  /** Inside an array, after the items read so far. */
  ghost predicate AtItem(st: ScanState, items: seq<Node>, base: seq<Text>) {
    && st.mode == Outside && |st.frames| >= 2
    && var top := st.frames[|st.frames| - 1];
       && top.kind == Array && top.nextIndex == |items|
       && st.closed == base + ItemsClosed(items, top.path)
  }

  /** The scan of the rest of a container whose frame is on top of `st`. */
  ghost predicate Leaves(s: Text, i: nat, st: ScanState, node: Node, next: nat, halt: Halt, fin: ScanState) {
    && (halt.InString? ==> OpenString(s, halt.start, halt.torn))
    && st.frames != [] && i <= |s| && HaltPoint(next, halt) <= |s|
    && Scan(s, i, st) == Scan(s, HaltPoint(next, halt), fin)
    && fin.mode == HaltMode(halt)
    && if node.done then fin.frames == st.frames[..|st.frames| - 1] && halt == BetweenTokens
       else Kinds(fin.frames) == Kinds(st.frames[..|st.frames| - 1]) + OpenNest(node)
  }

  lemma {:induction false} NothingMore(closed: seq<Text>)
    ensures closed + [] == closed
  {
  }

  lemma {:induction false} BelowTop(frames: seq<Frame>)
    requires frames != []
    ensures WithoutKey(frames)[..|frames| - 1] == frames[..|frames| - 1]
  {
  }

  /** A finished item and the comma or bracket behind it. */
  lemma {:induction false} ItemPassed(st: ScanState, items: seq<Node>, item: Node, base: seq<Text>)
    requires AtItem(st, items, base)
    ensures var after := AfterNode(st, item);
            var frames := st.frames[..|st.frames| - 1];
            var closed := base + ItemsClosed(items + [item], st.frames[|st.frames| - 1].path);
            && CloseContainer(Array, after) == Some(st.(frames := frames, closed := closed))
            && AtItem(PassComma(after), items + [item], base)
            && |PassComma(after).frames| == |st.frames| && PassComma(after).frames[..|st.frames| - 1] == frames
            && PassComma(after).frames[|st.frames| - 1].path == st.frames[|st.frames| - 1].path
            && PassComma(after).l0Active == st.l0Active
  {
    hide ClosedIn, ItemsClosed;
    var path := st.frames[|st.frames| - 1].path;
    ItemsClosedAppend(items, item, path);
    Regroups(base, ItemsClosed(items, path), ClosedIn(item, ItemPath(path, |items|)));
    BelowTop(st.frames);
  }

  /** What an unfinished array leaves open. */
  lemma {:induction false} ItemsNest(st: ScanState, items: seq<Node>)
    requires st.frames != [] && st.frames[|st.frames| - 1].kind == Array && ItemsDone(items)
    ensures Kinds(st.frames) == Kinds(st.frames[..|st.frames| - 1]) + OpenNest(Arr(items, false))
    ensures forall item ::
              Kinds(st.frames) + OpenNest(item) == Kinds(st.frames[..|st.frames| - 1]) + OpenNest(Arr(items + [item], false))
  {
    KindsSplit(st.frames);
    assert OpenNest(Arr(items, false)) == [Array];
    forall item
      ensures Kinds(st.frames) + OpenNest(item) == Kinds(st.frames[..|st.frames| - 1]) + OpenNest(Arr(items + [item], false))
    {
      assert OpenNest(Arr(items + [item], false)) == [Array] + OpenNest(item);
    }
  }

  lemma {:induction false} FollowItems(s: Text, i: nat, items: seq<Node>, st: ScanState, base: seq<Text>)
    returns (fin: ScanState)
    requires i <= |s| && AtItem(st, items, base) && ItemsDone(items)
    requires ReadItems(s, i, items).Ok?
    ensures var r := ReadItems(s, i, items);
            && Leaves(s, i, st, r.value, r.next, r.halt, fin)
            && fin.closed == base + ItemsClosed(r.value.items, st.frames[|st.frames| - 1].path)
            && fin.l0Active == st.l0Active
    decreases |s| - i, 5
  {
    hide Scan, ReadItems, ReadTurn, ClosedIn, ItemsClosed, OpenNest, Kinds, PassComma, CloseContainer;
    var turn := ReadTurn(s, i, CLOSE_BRACKET);
    ItemAdded(s, i, items, turn);
    ItemsNest(st, items);
    var after := FollowTurn(s, i, CLOSE_BRACKET, st, turn);
    if turn.Nothing? {
      fin := st;
    } else {
      ItemsClosedAppend(items, turn.node, st.frames[|st.frames| - 1].path);
      ItemPassed(st, items, turn.node, base);
      if turn.Last? && !turn.closed {
        ArrivalKinds(s, i, st, turn.node, turn.next, turn.halt, after);
        fin := after;
      } else {
        ScanUnrolled(s, turn.next - 1, after);
        if turn.Last? {
          fin := CloseContainer(Array, after).value;
        } else {
          fin := FollowItems(s, turn.next, items + [turn.node], PassComma(after), base);
        }
      }
    }
  }

  // ----- objects

  lemma {:induction false} FollowObject(s: Text, i: nat, st: ScanState) returns (fin: ScanState)
    requires i < |s| && s[i] == OPEN_BRACE && st.mode == Outside && st.frames != []
    requires ReadObject(s, i).Ok?
    ensures var r := ReadObject(s, i); Arrives(s, i, st, r.value, r.next, r.halt, fin)
    decreases |s| - i, 2
  {
    hide Scan, ReadMembers, ChildPath;
    var inside := OpenContainer(Object, st);
    Opened(Object, st);
    KindsWithoutKey(st.frames);
    ScanUnrolled(s, i, st);
    SkipBlankRun(s, i + 1, inside);
    var j := RunEnd(s, i + 1, Blanks);
    EmptyContainer(st.closed, ChildPath(st.frames));
    if j == |s| {
      fin := inside;
    } else if s[j] == CLOSE_BRACE {
      ScanUnrolled(s, j, inside);
      fin := CloseContainer(Object, inside).value;
    } else {
      fin := FollowMembers(s, j, [], inside, st.closed, st.l0Active);
    }
  }

  /** `steps` is a key of this object and its value is an array. */
  predicate HasStepsArray(members: seq<Member>) {
    exists k :: 0 <= k < |members| && IsStepsArray(members[k])
  }

  predicate IsStepsArray(member: Member) {
    member.key == STEPS && member.val.Some? && member.val.value.Arr?
  }

  /** Inside an object, after the members read so far. In the top-level object an array
      under `steps` has set the flag. */
  ghost predicate AtMember(st: ScanState, members: seq<Member>, base: seq<Text>, flag: bool) {
    && st.mode == Outside && st.frames != []
    && var top := st.frames[|st.frames| - 1];
       && top.kind == Object && (|st.frames| == 1 ==> top.path == [])
       && st.closed == base + MembersClosed(members, top.path)
       && (st.l0Active <==> flag || (|st.frames| == 1 && HasStepsArray(members)))
  }

  /** A finished member and the comma or brace behind it. */
  lemma {:induction false} MemberPassed(st: ScanState, members: seq<Member>, key: Text, val: Node, base: seq<Text>, flag: bool)
    requires AtMember(st, members, base, flag) && st.frames[|st.frames| - 1].pendingKey == Some(key)
    ensures var after := AfterNode(st, val);
            var all := members + [Member(key, Some(val))];
            var frames := st.frames[..|st.frames| - 1];
            var path := st.frames[|st.frames| - 1].path;
            && CloseContainer(Object, after) ==
                 Some(after.(frames := frames,
                             closed := base + MembersClosed(all, path) + if IsCardPath(path) then [path] else []))
            && AtMember(PassComma(after), all, base, flag)
            && (after.l0Active <==> flag || (|st.frames| == 1 && HasStepsArray(all)))
            && |PassComma(after).frames| == |st.frames| && PassComma(after).frames[..|st.frames| - 1] == frames
            && PassComma(after).frames[|st.frames| - 1].path == path
  {
    hide ClosedIn, MembersClosed, IsCardPath, HasStepsArray;
    var path := st.frames[|st.frames| - 1].path;
    MembersClosedAppend(members, Member(key, Some(val)), path);
    StepsAppend(members, Member(key, Some(val)));
    var inner := ClosedIn(val, KeyPath(path, key));
    Regroups(base, MembersClosed(members, path), inner);
    NothingMore(base + (MembersClosed(members, path) + inner));
    BelowTop(st.frames);
  }

  /** What an unfinished object leaves open. */
  lemma {:induction false} MembersNestOpen(st: ScanState, members: seq<Member>)
    requires InObject(st) && MembersDone(members)
    ensures Kinds(st.frames) == Kinds(st.frames[..|st.frames| - 1]) + OpenNest(Obj(members, false))
  {
    KindsSplit(st.frames);
    if members != [] {
      assert members[|members| - 1].val.value.done;
    }
    assert MembersNest(members) == [];
    assert OpenNest(Obj(members, false)) == [Object];
  }

  lemma {:induction false} MemberNest(st: ScanState, members: seq<Member>, member: Member)
    requires InObject(st)
    ensures Kinds(st.frames) + (if member.val.Some? then OpenNest(member.val.value) else []) ==
              Kinds(st.frames[..|st.frames| - 1]) + OpenNest(Obj(members + [member], false))
  {
    hide Kinds;
    KindsSplit(st.frames);
    var inner := if member.val.Some? then OpenNest(member.val.value) else [];
    assert MembersNest(members + [member]) == inner;
    assert OpenNest(Obj(members + [member], false)) == [Object] + inner;
    Regroups(Kinds(st.frames[..|st.frames| - 1]), [Object], inner);
  }

  lemma {:induction false} FollowMembers(s: Text, i: nat, members: seq<Member>, st: ScanState, base: seq<Text>, flag: bool)
    returns (fin: ScanState)
    requires i <= |s| && AtMember(st, members, base, flag) && MembersDone(members)
    requires ReadMembers(s, i, members).Ok?
    ensures var r := ReadMembers(s, i, members);
            && Leaves(s, i, st, r.value, r.next, r.halt, fin)
            && Collected(st, r.value, base, flag, fin)
    decreases |s| - i, 5
  {
    hide Scan, ReadMembers, ReadKey, AfterTurn, ReadTurn, MembersClosed, OpenNest, Kinds, IsCardPath;
    var key := ReadKey(s, i);
    MembersTurn(s, i, members, key);
    MembersNestOpen(st, members);
    if key.NoKey? {
      fin := FollowNoKey(s, i, st);
    } else {
      FollowKey(s, i, st);
      var keyed := WithKey(st, key.key);
      assert keyed.frames[..|st.frames| - 1] == st.frames[..|st.frames| - 1];
      fin := FollowAfterKey(s, key.colon + 1, members, key.key, keyed, base, flag);
    }
  }

  /** The closed paths and the flag at the end of an object whose frame is on top of `st`. */
  ghost predicate Collected(st: ScanState, node: Node, base: seq<Text>, flag: bool, fin: ScanState)
    requires st.frames != [] && node.Obj?
  {
    var path := st.frames[|st.frames| - 1].path;
    && fin.closed == base + MembersClosed(node.members, path) + (if node.done && IsCardPath(path) then [path] else [])
    && (fin.l0Active <==> flag || (|st.frames| == 1 && HasStepsArray(node.members)))
  }

  /** A key that the buffer ends in, or before the colon of. */
  lemma {:induction false} FollowNoKey(s: Text, i: nat, st: ScanState) returns (fin: ScanState)
    requires i <= |s| && st.mode == Outside && InObject(st)
    requires ReadKey(s, i).NoKey?
    ensures var r := ReadKey(s, i);
            && (r.halt.InString? ==> OpenString(s, r.halt.start, r.halt.torn))
            && HaltPoint(r.next, r.halt) <= |s|
            && Scan(s, i, st) == Scan(s, HaltPoint(r.next, r.halt), fin)
            && fin == st.(mode := HaltMode(r.halt))
  {
    hide Scan, ReadString;
    var start := RunEnd(s, i, Blanks);
    SkipBlankRun(s, i, st);
    fin := st;
    if start < |s| {
      var r := ReadString(s, start);
      if r.token.done {
        FollowStringValue(s, start, st);
        SkipBlankRun(s, r.next, st);
      } else {
        ScanUnrolled(s, start, st);
        fin := st.(mode := Inside(start, false));
      }
    }
  }

  /** A key and its colon. */
  lemma {:induction false} FollowKey(s: Text, i: nat, st: ScanState)
    requires i <= |s| && st.mode == Outside && InObject(st)
    requires ReadKey(s, i).Key?
    ensures var r := ReadKey(s, i); Scan(s, i, st) == Scan(s, r.colon + 1, WithKey(st, r.key))
  {
    hide Scan, ReadString;
    var start := RunEnd(s, i, Blanks);
    SkipBlankRun(s, i, st);
    var r := ReadString(s, start);
    var keyed := WithKey(st, r.token.text);
    FollowKeyString(s, start, st);
    SkipBlankRun(s, r.next, keyed);
    ScanUnrolled(s, ReadKey(s, i).colon, keyed);
  }

  lemma {:induction false} FollowAfterKey(s: Text, i: nat, members: seq<Member>, key: Text, st: ScanState,
                                          base: seq<Text>, flag: bool)
    returns (fin: ScanState)
    requires i <= |s| && AtMember(st, members, base, flag) && MembersDone(members)
    requires st.frames[|st.frames| - 1].pendingKey == Some(key)
    requires AfterTurn(s, i, members, key, ReadTurn(s, i, CLOSE_BRACE)).Ok?
    ensures var r := AfterTurn(s, i, members, key, ReadTurn(s, i, CLOSE_BRACE));
            && Leaves(s, i, st, r.value, r.next, r.halt, fin)
            && Collected(st, r.value, base, flag, fin)
    decreases |s| - i, 5
  {
    hide Scan, ReadMembers, AfterTurn, ReadTurn, MembersClosed, OpenNest, Kinds, IsCardPath, PassComma, CloseContainer;
    var turn := ReadTurn(s, i, CLOSE_BRACE);
    MemberAdded(s, i, members, key, turn);
    var after := FollowTurn(s, i, CLOSE_BRACE, st, turn);
    var member := TurnMember(key, turn);
    MembersClosedAppend(members, member, st.frames[|st.frames| - 1].path);
    StepsAppend(members, member);
    MemberNest(st, members, member);
    if turn.Nothing? {
      fin := st;
    } else {
      MemberPassed(st, members, key, turn.node, base, flag);
      if turn.Last? && !turn.closed {
        ArrivalKinds(s, i, st, turn.node, turn.next, turn.halt, after);
        fin := after;
      } else {
        ScanUnrolled(s, turn.next - 1, after);
        if turn.Last? {
          fin := CloseContainer(Object, after).value;
        } else {
          fin := FollowMembers(s, turn.next, members + [member], PassComma(after), base, flag);
        }
      }
    }
  }

  lemma {:induction false} StepsAppend(members: seq<Member>, member: Member)
    ensures HasStepsArray(members + [member]) <==> HasStepsArray(members) || IsStepsArray(member)
  {
    var all := members + [member];
    if HasStepsArray(members) {
      var k :| 0 <= k < |members| && IsStepsArray(members[k]);
      assert all[k] == members[k];
    }
    assert all[|members|] == member;
  }
}
