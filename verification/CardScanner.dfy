/** The one-pass scanner that says which cards are really closed.

    It looks only at quotes, brackets and commas, keeps a stack of frames with the path of
    each open container, and learns a key when a colon follows its closing quote. */
module CardScanner {
  import opened JsonText
  import opened PartialReader
  import PartialJsonParser

  datatype Kind = Object | Array

  datatype Frame = Frame(kind: Kind, path: Text, nextIndex: nat, pendingKey: Option<Text>)

  datatype Mode = Outside | Inside(start: nat, escape: bool)

  datatype ScanState = ScanState(frames: seq<Frame>, closed: seq<Text>, mode: Mode, l0Active: bool)

  const INITIAL := ScanState([], [], Outside, false)

  datatype StructuralScan =
    StructuralScan(closed: seq<Text>, openStack: seq<Kind>, l0Active: bool, valid: bool, lexicalComplete: bool)

  // ----- paths

  function Decimal(n: nat): Text {
    if n < 10 then [0x30 + n] else Decimal(n / 10) + [0x30 + n % 10]
  }

  function ItemPath(path: Text, k: nat): Text {
    path + [OPEN_BRACKET] + Decimal(k) + [CLOSE_BRACKET]
  }

  function KeyPath(path: Text, key: Text): Text {
    if path == [] then key else path + [DOT] + key
  }

  /** `steps[` digits `]` */
  predicate IsCardPath(path: Text) {
    && |path| > 7
    && path[..6] == STEPS + [OPEN_BRACKET]
    && path[|path| - 1] == CLOSE_BRACKET
    && (forall k :: 6 <= k < |path| - 1 ==> IsDigit(path[k]))
  }

  /** The path of a container that opens now. */
  function ChildPath(frames: seq<Frame>): Text {
    if frames == [] then []
    else
      var parent := frames[|frames| - 1];
      if parent.kind == Array then ItemPath(parent.path, parent.nextIndex)
      else
        match parent.pendingKey
        case None => parent.path
        case Some(key) => KeyPath(parent.path, key)
  }

  /** The frames after that path has been asked for: an object forgets its key. */
  function WithoutKey(frames: seq<Frame>): (r: seq<Frame>)
    ensures |r| == |frames|
  {
    if frames == [] || frames[|frames| - 1].kind == Array then frames
    else frames[|frames| - 1 := frames[|frames| - 1].(pendingKey := None)]
  }

  // ----- steps

  /** What the closing quote of the string that began at `start` does: if a colon follows in
      an object, the string is the pending key. */
  function CloseQuote(s: Text, i: nat, st: ScanState, start: nat): Option<ScanState>
    requires i < |s|
  {
    var j := RunEnd(s, i + 1, Blanks);
    var frames := st.frames;
    if frames != [] && frames[|frames| - 1].kind == Object && j < |s| && s[j] == COLON then
      if start > i then None
      else
        match ReadString(s[start..i + 1], 0)
        case StringFail => None
        case StringOk(token, next) =>
          if token.done && next == i + 1 - start then
            Some(st.(mode := Outside,
                     frames := frames[|frames| - 1 := frames[|frames| - 1].(pendingKey := Some(token.text))]))
          else None
    else Some(st.(mode := Outside))
  }

  function OpenContainer(kind: Kind, st: ScanState): ScanState {
    var path := ChildPath(st.frames);
    st.(frames := WithoutKey(st.frames) + [Frame(kind, path, 0, None)],
        l0Active := st.l0Active || (kind == Array && path == STEPS && |st.frames| == 1))
  }

  function CloseContainer(kind: Kind, st: ScanState): Option<ScanState> {
    if st.frames == [] || st.frames[|st.frames| - 1].kind != kind then None
    else
      var frame := st.frames[|st.frames| - 1];
      Some(st.(frames := st.frames[..|st.frames| - 1],
               closed := if kind == Object && IsCardPath(frame.path) then st.closed + [frame.path] else st.closed))
  }

  function PassComma(st: ScanState): ScanState {
    if st.frames == [] then st
    else
      var frame := st.frames[|st.frames| - 1];
      st.(frames := st.frames[|st.frames| - 1 :=
            if frame.kind == Array then frame.(nextIndex := frame.nextIndex + 1) else frame.(pendingKey := None)])
  }

  function Step(s: Text, i: nat, st: ScanState): Option<ScanState>
    requires i < |s|
  {
    var c := s[i];
    match st.mode
    case Inside(start, escape) =>
      if escape then Some(st.(mode := Inside(start, false)))
      else if c == BACKSLASH then Some(st.(mode := Inside(start, true)))
      else if c == QUOTE then CloseQuote(s, i, st, start)
      else Some(st)
    case Outside =>
      if c == QUOTE then Some(st.(mode := Inside(i, false)))
      else if c == OPEN_BRACE then Some(OpenContainer(Object, st))
      else if c == OPEN_BRACKET then Some(OpenContainer(Array, st))
      else if c == CLOSE_BRACE then CloseContainer(Object, st)
      else if c == CLOSE_BRACKET then CloseContainer(Array, st)
      else if c == COMMA then Some(PassComma(st))
      else Some(st)
  }

  /** The state after the whole buffer, or none when a bracket or a key is wrong. */
  function Scan(s: Text, i: nat, st: ScanState): Option<ScanState>
    requires i <= |s|
    decreases |s| - i
  {
    if i == |s| then Some(st)
    else
      match Step(s, i, st)
      case None => None
      case Some(next) => Scan(s, i + 1, next)
  }

  function Kinds(frames: seq<Frame>): (r: seq<Kind>)
    ensures |r| == |frames|
  {
    seq(|frames|, k requires 0 <= k < |frames| => frames[k].kind)
  }

  /** What the scanner reports about a buffer. */
  function ScanOf(buffer: Text): StructuralScan {
    match Scan(buffer, 0, INITIAL)
    case None => StructuralScan([], [], false, false, true)
    case Some(st) => StructuralScan(st.closed, Kinds(st.frames), st.l0Active, true, st.mode.Outside?)
  }

  /** The scanner itself, over mutable frames. */
  method ScanCardStructure(buffer: Text) returns (scan: StructuralScan)
    ensures scan == ScanOf(buffer)
  {
    hide Scan, Step, CloseQuote, ChildPath, WithoutKey, IsCardPath;
    var frames: seq<Frame> := [];
    var closed: seq<Text> := [];
    var index := 0;
    var inString, escape := false, false;
    var stringStart: nat := 0;
    var l0Active := false;
    var valid := true;
    while index < |buffer|
      invariant 0 <= index <= |buffer|
      invariant valid && (escape ==> inString)
      invariant inString ==> stringStart < index
      invariant Scan(buffer, 0, INITIAL) ==
                Scan(buffer, index, ScanState(frames, closed, if inString then Inside(stringStart, escape) else Outside, l0Active))
      decreases |buffer| - index
    {
      ghost var st := ScanState(frames, closed, if inString then Inside(stringStart, escape) else Outside, l0Active);
      ScanUnrolled(buffer, index, st);
      StepUnrolled(buffer, index, st);
      var current := buffer[index];
      if inString {
        if escape {
          escape := false;
        } else if current == BACKSLASH {
          escape := true;
        } else if current == QUOTE {
          inString := false;
          var keyed, key := PendingKey(buffer, index, stringStart, frames);
          if keyed {
            if key == None {
              valid := false;
              break;
            }
            frames := frames[|frames| - 1 := frames[|frames| - 1].(pendingKey := key)];
          }
        }
        index := index + 1;
        continue;
      }
      if current == QUOTE {
        inString := true;
        stringStart := index;
        index := index + 1;
        continue;
      }
      if current == OPEN_BRACE || current == OPEN_BRACKET {
        var path := ChildPath(frames);
        if current == OPEN_BRACKET && path == STEPS && |frames| == 1 {
          l0Active := true;
        }
        frames := WithoutKey(frames) + [Frame(if current == OPEN_BRACE then Object else Array, path, 0, None)];
      } else if current == CLOSE_BRACE || current == CLOSE_BRACKET {
        var expected := if current == CLOSE_BRACE then Object else Array;
        if frames == [] || frames[|frames| - 1].kind != expected {
          valid := false;
          break;
        }
        var frame := frames[|frames| - 1];
        frames := frames[..|frames| - 1];
        if frame.kind == Object && IsCardPath(frame.path) {
          closed := closed + [frame.path];
        }
      } else if current == COMMA && frames != [] {
        var frame := frames[|frames| - 1];
        if frame.kind == Array {
          frames := frames[|frames| - 1 := frame.(nextIndex := frame.nextIndex + 1)];
        } else {
          frames := frames[|frames| - 1 := frame.(pendingKey := None)];
        }
      }
      index := index + 1;
    }
    var lexicalComplete := !inString && !escape;
    if !valid {
      return StructuralScan([], [], false, false, lexicalComplete);
    }
    ScanAtEnd(buffer, ScanState(frames, closed, if inString then Inside(stringStart, escape) else Outside, l0Active));
    return StructuralScan(closed, Kinds(frames), l0Active, true, lexicalComplete);
  }

  /** Whether the string that ends at `i` is a key, and the key, or none when it is not
      a whole JSON string. */
  method PendingKey(buffer: Text, i: nat, start: nat, frames: seq<Frame>) returns (keyed: bool, key: Option<Text>)
    requires start < i < |buffer|
    ensures !keyed ==> forall st: ScanState :: st.frames == frames ==>
                         CloseQuote(buffer, i, st, start) == Some(st.(mode := Outside))
    ensures keyed && key == None ==> forall st: ScanState :: st.frames == frames ==>
                                       CloseQuote(buffer, i, st, start) == None
    ensures keyed && key != None ==> frames != [] && forall st: ScanState :: st.frames == frames ==>
                                       CloseQuote(buffer, i, st, start) ==
                                         Some(st.(mode := Outside, frames := frames[|frames| - 1 := frames[|frames| - 1].(pendingKey := key)]))
  {
    hide ReadString;
    var next := i + 1;
    while next < |buffer| && IsBlank(buffer[next])
      invariant i < next <= |buffer|
      invariant RunEnd(buffer, next, Blanks) == RunEnd(buffer, i + 1, Blanks)
    {
      next := next + 1;
    }
    assert next == RunEnd(buffer, i + 1, Blanks);
    keyed, key := false, None;
    if frames != [] && frames[|frames| - 1].kind == Object && next < |buffer| && buffer[next] == COLON {
      keyed := true;
      var parser := new PartialJsonParser.Parser(buffer[start..i + 1]);
      var token := parser.ParseString();
      if token.Success? && token.value.1 && parser.index == |parser.source| {
        key := Some(token.value.0);
      }
    }
  }

  lemma {:induction false} ScanUnrolled(s: Text, i: nat, st: ScanState)
    requires i < |s|
    ensures Step(s, i, st) == None ==> Scan(s, i, st) == None
    ensures Step(s, i, st) != None ==> Scan(s, i, st) == Scan(s, i + 1, Step(s, i, st).value)
  {
  }

  lemma {:induction false} ScanAtEnd(s: Text, st: ScanState)
    ensures Scan(s, |s|, st) == Some(st)
  {
  }

  lemma {:induction false} StepUnrolled(s: Text, i: nat, st: ScanState)
    requires i < |s|
    ensures Step(s, i, st) ==
      if st.mode.Inside? then
        (var start := st.mode.start;
         if st.mode.escape then Some(st.(mode := Inside(start, false)))
         else if s[i] == BACKSLASH then Some(st.(mode := Inside(start, true)))
         else if s[i] == QUOTE then CloseQuote(s, i, st, start)
         else Some(st))
      else
        if s[i] == QUOTE then Some(st.(mode := Inside(i, false)))
        else if s[i] == OPEN_BRACE then Some(OpenContainer(Object, st))
        else if s[i] == OPEN_BRACKET then Some(OpenContainer(Array, st))
        else if s[i] == CLOSE_BRACE then CloseContainer(Object, st)
        else if s[i] == CLOSE_BRACKET then CloseContainer(Array, st)
        else if s[i] == COMMA then Some(PassComma(st))
        else Some(st)
  {
  }

  // ----- the scanner never takes a closed card back

  /** Over blanks the scanner stands still. */
  lemma {:induction false} ScanBlanks(s: Text, i: nat, j: nat, st: ScanState)
    requires i <= j <= |s| && st.mode == Outside
    requires forall k :: i <= k < j ==> IsBlank(s[k])
    ensures Scan(s, i, st) == Scan(s, j, st)
    decreases j - i
  {
    if i == j {
    } else {
      ScanBlanks(s, i + 1, j, st);
    }
  }

  lemma {:induction false} ClosedGrows(s: Text, i: nat, st: ScanState)
    requires i <= |s| && Scan(s, i, st) != None
    ensures st.closed <= Scan(s, i, st).value.closed
    ensures st.l0Active ==> Scan(s, i, st).value.l0Active
    decreases |s| - i
  {
    hide Scan, ChildPath, WithoutKey, ReadString;
    ScanAtEnd(s, st);
    if i == |s| {
    } else {
      ScanUnrolled(s, i, st);
      ClosedGrows(s, i + 1, Step(s, i, st).value);
    }
  }

  /** A step that reads past the cut only sees blanks there. */
  lemma {:induction false} StepCut(t: Text, s: Text, i: nat, st: ScanState)
    requires t <= s && i < |t| && Step(s, i, st) != None
    ensures Step(t, i, st) != None
    ensures Step(t, i, st) == Step(s, i, st) || RunEnd(t, i + 1, Blanks) == |t|
    ensures Step(t, i, st).value.closed == Step(s, i, st).value.closed
    ensures Step(t, i, st) != Step(s, i, st) ==> Step(t, i, st).value.mode == Outside
  {
    hide ReadString;
    RunEndCut(t, s, i + 1, Blanks);
    if st.mode.Inside? && st.mode.start <= i {
      assert t[st.mode.start..i + 1] == s[st.mode.start..i + 1];
    }
  }

  /** For every buffer at all: a prefix of a validly scanned buffer scans validly, and the
      cards it reports closed are the first ones of the longer report. */
  lemma {:induction false} ScanCut(t: Text, s: Text, i: nat, st: ScanState)
    requires t <= s && i <= |t| && Scan(s, i, st) != None
    ensures Scan(t, i, st) != None
    ensures Scan(t, i, st).value.closed <= Scan(s, i, st).value.closed
    decreases |t| - i
  {
    hide Scan, Step;
    ScanAtEnd(t, st);
    ClosedGrows(s, i, st);
    if i < |t| {
      ScanUnrolled(s, i, st);
      ScanUnrolled(t, i, st);
      StepCut(t, s, i, st);
      var short, long := Step(t, i, st).value, Step(s, i, st).value;
      if short == long {
        ScanCut(t, s, i + 1, long);
      } else {
        ScanBlanks(t, i + 1, |t|, short);
        ScanAtEnd(t, short);
        ClosedGrows(s, i + 1, long);
      }
    }
  }
}
