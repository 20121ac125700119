/** `parse_partial_card`: the scan and the parse of one buffer, put together. */
module PartialCard {
  import opened JsonText
  import opened PartialReader
  import opened CardScanner
  import opened ScanRefinement
  import opened Truncation
  import PartialJsonParser

  datatype PartialParse = PartialParse(value: Option<Json>, closed: seq<Text>, complete: bool)

  const REFUSED := PartialParse(None, [], false)

  function ParseOf(buffer: Text): PartialParse {
    var scan := ScanOf(buffer);
    if !scan.valid then REFUSED
    else
      match ReadCard(buffer)
      case Fail => REFUSED
      case Ok(node, _, _) =>
        PartialParse(Some(ValueOf(node)), scan.closed, scan.lexicalComplete && scan.openStack == [])
  }

  method ParsePartialCard(buffer: Text) returns (parse: PartialParse)
    ensures parse == ParseOf(buffer)
  {
    hide ReadCard, ScanOf;
    var scan := ScanCardStructure(buffer);
    if !scan.valid {
      return PartialParse(None, [], false);
    }
    var parser := new PartialJsonParser.Parser(buffer);
    var value := parser.Parse();
    if value.Failure? {
      return PartialParse(None, [], false);
    }
    var complete := scan.lexicalComplete && scan.openStack == [];
    return PartialParse(Some(value.value), scan.closed, complete);
  }

  // ----- the scanner and the parser agree exactly when no string is torn

  /** The parser's last string was torn: the guard of the branch at line 188 with a quote in
      the characters that are left. */
  predicate IsTorn(buffer: Text) {
    ReadCard(buffer).Ok? && Torn(ReadCard(buffer).halt)
  }

  /** The scanner ends in the state the parser's reading stands for. */
  ghost predicate Agrees(buffer: Text, node: Node, halt: Halt)
    requires node.Obj?
  {
    var end := Scan(buffer, 0, INITIAL);
    && end.Some?
    && Kinds(end.value.frames) == OpenNest(node)
    && end.value.closed == MembersClosed(node.members, [])
    && (end.value.l0Active <==> HasStepsArray(node.members))
    && match halt
       case BetweenTokens => end.value.mode == Outside
       case InString(start, _) => end.value.mode.Inside? && end.value.mode.start == start
  }

  /** The whole buffer, up to where the parser stopped. */
  lemma {:induction false} FollowCard(s: Text) returns (fin: ScanState)
    requires ReadCard(s).Ok?
    ensures var r := ReadCard(s);
            && (r.halt.InString? ==> OpenString(s, r.halt.start, r.halt.torn))
            && HaltPoint(|s|, r.halt) <= |s|
            && Scan(s, 0, INITIAL) == Scan(s, HaltPoint(|s|, r.halt), fin)
            && fin.mode == HaltMode(r.halt)
            && Kinds(fin.frames) == OpenNest(r.value)
            && fin.closed == MembersClosed(r.value.members, [])
            && (fin.l0Active <==> HasStepsArray(r.value.members))
  {
    hide Scan, ReadObject, MembersClosed, ReadString;
    var i := RunEnd(s, 0, Blanks);
    SkipBlankRun(s, 0, INITIAL);
    fin := FollowTop(s, i);
    var r := ReadObject(s, i);
    if r.value.done {
      SkipBlankRun(s, r.next, fin);
    }
  }

  lemma {:induction false} NothingInside()
    ensures MembersClosed([], []) == [] && !HasStepsArray([])
    ensures Kinds([]) == [] && Kinds([Frame(Object, [], 0, None)]) == [Object]
    ensures OpenNest(Obj([], true)) == [] && OpenNest(Obj([], false)) == [Object]
  {
  }

  lemma {:induction false} FinishedNest(node: Node)
    ensures node.done ==> OpenNest(node) == []
  {
  }

  lemma {:induction false} ObjectOpens(s: Text, i: nat)
    requires i < |s| && s[i] == OPEN_BRACE
    ensures var j := RunEnd(s, i + 1, Blanks);
      ReadObject(s, i) ==
        if j == |s| then Ok(Obj([], false), j, BetweenTokens)
        else if s[j] == CLOSE_BRACE then Ok(Obj([], true), j + 1, BetweenTokens)
        else ReadMembers(s, j, [])
  {
    hide ReadMembers;
  }

  lemma {:induction false} TopOpens()
    ensures OpenContainer(Object, INITIAL) == INITIAL.(frames := [Frame(Object, [], 0, None)])
    ensures CloseContainer(Object, OpenContainer(Object, INITIAL)) == Some(INITIAL)
    ensures !IsCardPath([])
  {
  }

  lemma {:induction false} FollowTop(s: Text, i: nat) returns (fin: ScanState)
    requires i < |s| && s[i] == OPEN_BRACE && ReadObject(s, i).Ok?
    ensures var r := ReadObject(s, i);
            && (r.halt.InString? ==> OpenString(s, r.halt.start, r.halt.torn))
            && HaltPoint(r.next, r.halt) <= |s|
            && Scan(s, i, INITIAL) == Scan(s, HaltPoint(r.next, r.halt), fin)
            && fin.mode == HaltMode(r.halt)
            && Kinds(fin.frames) == OpenNest(r.value)
            && fin.closed == MembersClosed(r.value.members, [])
            && (fin.l0Active <==> HasStepsArray(r.value.members))
  {
    hide Scan, ReadObject, ReadMembers, ReadString, MembersClosed, HasStepsArray, OpenNest, Kinds, RunEnd, ChildPath, WithoutKey,
      IsCardPath;
    ObjectOpens(s, i);
    TopOpens();
    NothingInside();
    var inside := OpenContainer(Object, INITIAL);
    ScanUnrolled(s, i, INITIAL);
    SkipBlankRun(s, i + 1, inside);
    var j := RunEnd(s, i + 1, Blanks);
    assert inside.frames == [Frame(Object, [], 0, None)];
    if j == |s| {
      fin := inside;
    } else if s[j] == CLOSE_BRACE {
      ScanUnrolled(s, j, inside);
      fin := CloseContainer(Object, inside).value;
      assert fin.frames == [];
    } else {
      fin := FollowMembers(s, j, [], inside, [], false);
      assert inside.frames[..0] == [];
      var node := ReadMembers(s, j, []).value;
      FinishedNest(node);
      assert [] + OpenNest(node) == OpenNest(node);
    }
  }

  /** In a string whose rest holds no closing quote the scanner stays to the end. */
  lemma {:induction false} StaysInside(s: Text, i: nat, st: ScanState, start: nat)
    requires i <= |s| && st.mode == Inside(start, false) && !ClosesString(s, i)
    ensures exists escape :: Scan(s, i, st) == Some(st.(mode := Inside(start, escape)))
    decreases |s| - i
  {
    if i == |s| {
      ScanAtEnd(s, st);
    } else {
      ScanUnrolled(s, i, st);
      if s[i] != BACKSLASH {
        StaysInside(s, i + 1, st, start);
      } else {
        var escaped := st.(mode := Inside(start, true));
        if i + 1 == |s| {
          ScanAtEnd(s, escaped);
        } else {
          ScanUnrolled(s, i + 1, escaped);
          StaysInside(s, i + 2, st, start);
        }
      }
    }
  }

  /** An unfinished, untorn string has no closing quote for the scanner either. */
  lemma {:induction false} UntornStaysOpen(s: Text, i: nat, text: Text)
    requires i <= |s|
    requires ReadCharacters(s, i, text).StringOk?
    requires var token := ReadCharacters(s, i, text).token; !token.done
    ensures ReadCharacters(s, i, text).token.torn <==> ClosesString(s, i)
    decreases |s| - i
  {
    if i == |s| {
    } else if s[i] != BACKSLASH {
      UntornStaysOpen(s, i + 1, text + [s[i]]);
    } else if i + 1 == |s| {
    } else if s[i + 1] == LOWER_U {
      if i + 6 <= |s| {
        UntornStaysOpen(s, i + 6, text + [HexValue(s[i + 2], s[i + 3], s[i + 4], s[i + 5])]);
        HexThenRest(s, i + 2);
      }
    } else {
      UntornStaysOpen(s, i + 2, text + [Unescape(s[i + 1]).value]);
    }
  }

  lemma {:induction false} HexThenRest(s: Text, i: nat)
    requires i + 4 <= |s| && FourHex(s, i)
    ensures ClosesString(s, i) <==> ClosesString(s, i + 4)
  {
    assert ClosesString(s, i) <==> ClosesString(s, i + 1);
    assert ClosesString(s, i + 1) <==> ClosesString(s, i + 2);
    assert ClosesString(s, i + 2) <==> ClosesString(s, i + 3);
  }

  /** A scan outside strings, or in a late one, never comes back into an earlier string. */
  lemma {:induction false} LaterStrings(s: Text, i: nat, st: ScanState, least: nat)
    requires i <= |s| && least <= i
    requires st.mode.Inside? ==> st.mode.start >= least
    ensures var end := Scan(s, i, st); end.Some? && end.value.mode.Inside? ==> end.value.mode.start >= least
    decreases |s| - i
  {
    hide Scan, ReadString, ChildPath, WithoutKey, IsCardPath;
    ScanAtEnd(s, st);
    if i == |s| {
    } else {
      ScanUnrolled(s, i, st);
      if Step(s, i, st) != None {
        LaterStrings(s, i + 1, Step(s, i, st).value, least);
      }
    }
  }

  /** In a string whose rest holds a closing quote the scanner leaves that string. */
  lemma {:induction false} LeavesString(s: Text, i: nat, st: ScanState, start: nat)
    requires start < i <= |s| && st.mode == Inside(start, false) && ClosesString(s, i)
    ensures var end := Scan(s, i, st); end.Some? && end.value.mode.Inside? ==> end.value.mode.start > start
    decreases |s| - i
  {
    hide ReadString;
    ScanUnrolled(s, i, st);
    if s[i] == QUOTE {
      var closed := Step(s, i, st);
      if closed != None {
        LaterStrings(s, i + 1, closed.value, i + 1);
      }
    } else if s[i] == BACKSLASH {
      ScanUnrolled(s, i + 1, st.(mode := Inside(start, true)));
      LeavesString(s, i + 2, st, start);
    } else {
      LeavesString(s, i + 1, st, start);
    }
  }

  /** On every buffer the parser accepts, the scanner's stack is the nest of containers the
      parser left unfinished, its closed paths are those of the finished objects in order,
      and it is inside the string the parser stopped in, if and only if no string is torn. */
  lemma {:induction false} AgreesUnlessTorn(buffer: Text)
    requires ReadCard(buffer).Ok?
    ensures Agrees(buffer, ReadCard(buffer).value, ReadCard(buffer).halt) <==> !IsTorn(buffer)
  {
    hide Scan, ReadCard, MembersClosed, OpenNest, ReadCharacters, ClosesString;
    var r := ReadCard(buffer);
    var fin := FollowCard(buffer);
    match r.halt
    case BetweenTokens =>
      ScanAtEnd(buffer, fin);
    case InString(start, torn) =>
      UntornStaysOpen(buffer, start + 1, []);
      if torn {
        LeavesString(buffer, start + 1, fin, start);
      } else {
        StaysInside(buffer, start + 1, fin, start);
      }
  }
}
