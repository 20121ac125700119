/** Code points, the character classes of RFC 8259, and spans of them.

    A text is a sequence of Python code points, so the surrogates a `\u` escape may
    produce are ordinary values here. */
module JsonText {
  type Code = c: int | 0 <= c < 0x11_0000
  type Text = seq<Code>

  datatype Option<+T> = None | Some(value: T)

  /** The code points of a literal. */
  function Codes(s: string): (t: Text)
    ensures |t| == |s| && forall k :: 0 <= k < |s| ==> t[k] == s[k] as int
  {
    seq(|s|, k requires 0 <= k < |s| => s[k] as int)
  }

  const QUOTE: Code := 0x22
  const BACKSLASH: Code := 0x5C
  const LOWER_U: Code := 0x75
  const COLON: Code := 0x3A
  const COMMA: Code := 0x2C
  const MINUS: Code := 0x2D
  const DOT: Code := 0x2E
  const OPEN_BRACE: Code := 0x7B
  const CLOSE_BRACE: Code := 0x7D
  const OPEN_BRACKET: Code := 0x5B
  const CLOSE_BRACKET: Code := 0x5D

  const TRUE: Text := [0x74, 0x72, 0x75, 0x65]
  const FALSE: Text := [0x66, 0x61, 0x6C, 0x73, 0x65]
  const NULL: Text := [0x6E, 0x75, 0x6C, 0x6C]
  const STEPS: Text := [0x73, 0x74, 0x65, 0x70, 0x73]

  predicate IsBlank(c: Code) {
    c == 0x20 || c == 0x09 || c == 0x0D || c == 0x0A
  }

  predicate IsDigit(c: Code) {
    0x30 <= c <= 0x39
  }

  predicate IsLetter(c: Code) {
    0x41 <= c <= 0x5A || 0x61 <= c <= 0x7A
  }

  predicate IsHex(c: Code) {
    IsDigit(c) || 0x41 <= c <= 0x46 || 0x61 <= c <= 0x66
  }

  /** The characters a number token stops at. */
  predicate IsDelimiter(c: Code) {
    IsBlank(c) || c == COMMA || c == CLOSE_BRACKET || c == CLOSE_BRACE
  }

  function HexDigit(c: Code): (d: nat)
    requires IsHex(c)
    ensures d < 16
  {
    if IsDigit(c) then c - 0x30 else if c <= 0x46 then c - 0x37 else c - 0x57
  }

  function HexValue(a: Code, b: Code, c: Code, d: Code): Code
    requires IsHex(a) && IsHex(b) && IsHex(c) && IsHex(d)
  {
    HexDigit(a) * 4096 + HexDigit(b) * 256 + HexDigit(c) * 16 + HexDigit(d)
  }

  /** The one-letter escapes and what they stand for (section 7 of RFC 8259). */
  function Unescape(c: Code): Option<Code> {
    if c == QUOTE || c == BACKSLASH || c == 0x2F then Some(c)
    else if c == 0x62 then Some(0x08)
    else if c == 0x66 then Some(0x0C)
    else if c == 0x6E then Some(0x0A)
    else if c == 0x72 then Some(0x0D)
    else if c == 0x74 then Some(0x09)
    else None
  }

  /** The runs of characters the parser skips or collects. */
  datatype Run = Blanks | Letters | NumberBody

  predicate InRun(run: Run, c: Code) {
    match run
    case Blanks => IsBlank(c)
    case Letters => IsLetter(c)
    case NumberBody => !IsDelimiter(c)
  }

  /** The first index at or after `i` that is not in the run. */
  function RunEnd(s: Text, i: nat, run: Run): (j: nat)
    requires i <= |s|
    decreases |s| - i
    ensures i <= j <= |s|
    ensures forall k :: i <= k < j ==> InRun(run, s[k])
    ensures j < |s| ==> !InRun(run, s[j])
  {
    if i < |s| && InRun(run, s[i]) then RunEnd(s, i + 1, run) else i
  }

  /** A run has only one end. */
  lemma {:induction false} RunEndIs(s: Text, i: nat, run: Run, j: nat)
    requires i <= j <= |s|
    requires forall k :: i <= k < j ==> InRun(run, s[k])
    requires j < |s| ==> !InRun(run, s[j])
    ensures RunEnd(s, i, run) == j
  {
  }

  /** Cutting the buffer cuts the run. */
  lemma {:induction false} RunEndCut(t: Text, s: Text, i: nat, run: Run)
    requires t <= s && i <= |t|
    ensures RunEnd(t, i, run) == (if RunEnd(s, i, run) < |t| then RunEnd(s, i, run) else |t|)
  {
    var e := RunEnd(s, i, run);
    RunEndIs(t, i, run, if e < |t| then e else |t|);
  }
}
