/** Number tokens: the two patterns `_parse_number` tries, as one automaton.

    The automaton decides, for a token, whether it is a number of section 6 of RFC 8259
    (first pattern), only the beginning of one (second pattern), or neither. */
module NumberToken {
  import opened JsonText

  datatype State =
    | Start | Sign | Zero | Whole | BarePoint | Point | Fraction | Mark | MarkSign | Exponent | Dead

  predicate IsMark(c: Code) {
    c == 0x45 || c == 0x65
  }

  predicate IsSign(c: Code) {
    c == MINUS || c == 0x2B
  }

  function Step(q: State, c: Code): State {
    match q
    case Start => if c == MINUS then Sign else AfterSign(c)
    case Sign => AfterSign(c)
    case Zero => if c == DOT then Point else if IsMark(c) then Mark else Dead
    case Whole => if IsDigit(c) then Whole else if c == DOT then Point else if IsMark(c) then Mark else Dead
    case Point => if IsDigit(c) then Fraction else Dead
    case Fraction => if IsDigit(c) then Fraction else if IsMark(c) then Mark else Dead
    case Mark => if IsSign(c) then MarkSign else if IsDigit(c) then Exponent else Dead
    case MarkSign => if IsDigit(c) then Exponent else Dead
    case Exponent => if IsDigit(c) then Exponent else Dead
    case BarePoint => Dead
    case Dead => Dead
  }

  function AfterSign(c: Code): State {
    if c == 0x30 then Zero else if IsDigit(c) then Whole else if c == DOT then BarePoint else Dead
  }

  function StateOf(t: Text): State {
    if t == [] then Start else Step(StateOf(t[..|t| - 1]), t[|t| - 1])
  }

  /** The token is a finished number. */
  predicate IsNumber(t: Text) {
    StateOf(t) in {Zero, Whole, Fraction, Exponent}
  }

  /** The token is a number or could be cut short from one: the parser does not fail on it. */
  predicate IsTolerated(t: Text) {
    StateOf(t) != Dead
  }

  /** Every beginning of a tolerated token is tolerated. */
  lemma {:induction false} BeginningTolerated(t: Text, u: Text)
    requires t <= u && IsTolerated(u)
    ensures IsTolerated(t)
  {
    if |t| < |u| {
      BeginningTolerated(t, u[..|u| - 1]);
    } else {
      assert t == u;
    }
  }

  /** A tolerated token has only the characters of numbers in it, so no quote, bracket or comma. */
  lemma {:induction false} ToleratedCharacters(t: Text, k: nat)
    requires IsTolerated(t) && k < |t|
    ensures IsDigit(t[k]) || IsSign(t[k]) || IsMark(t[k]) || t[k] == DOT
  {
    if k == |t| - 1 {
    } else {
      ToleratedCharacters(t[..|t| - 1], k);
    }
  }

  // The grammar of section 6 of RFC 8259, against which the automaton is judged.

  datatype Parts = Parts(sign: Text, whole: Text, fraction: Text, exponent: Text)

  function Join(p: Parts): Text {
    p.sign + p.whole + p.fraction + p.exponent
  }

  predicate AllDigits(t: Text) {
    forall k :: 0 <= k < |t| ==> IsDigit(t[k])
  }

  predicate IsWholePart(t: Text) {
    t == [0x30] || (t != [] && t[0] != 0x30 && AllDigits(t))
  }

  predicate IsFractionPart(t: Text) {
    t == [] || (|t| > 1 && t[0] == DOT && AllDigits(t[1..]))
  }

  /** How many characters of an exponent come before its digits. */
  function MarkLength(t: Text): nat {
    if |t| > 1 && IsSign(t[1]) then 2 else 1
  }

  predicate IsOpenExponent(t: Text) {
    0 < |t| == MarkLength(t) && IsMark(t[0])
  }

  predicate IsExponentPart(t: Text) {
    t == [] || (|t| > MarkLength(t) && IsMark(t[0]) && AllDigits(t[MarkLength(t)..]))
  }

  /** `number = [ minus ] int [ frac ] [ exp ]` */
  predicate IsGrammatical(p: Parts) {
    && p.sign <= [MINUS]
    && IsWholePart(p.whole) && IsFractionPart(p.fraction) && IsExponentPart(p.exponent)
  }

  /** The alternatives of the second pattern. */
  predicate IsUnfinished(p: Parts) {
    && p.sign <= [MINUS]
    && (|| ((p.whole == [] || IsWholePart(p.whole)) && p.fraction <= [DOT] && p.exponent == [])
        || (IsWholePart(p.whole) && IsFractionPart(p.fraction) && IsOpenExponent(p.exponent)))
  }

  /** What a token in each state is made of. */
  predicate Fits(q: State, p: Parts) {
    && p.sign <= [MINUS]
    && match q
       case Start => p.sign == p.whole == p.fraction == p.exponent == []
       case Sign => p.sign == [MINUS] && p.whole == p.fraction == p.exponent == []
       case Zero => p.whole == [0x30] && p.fraction == p.exponent == []
       case Whole => IsWholePart(p.whole) && p.whole != [0x30] && p.fraction == p.exponent == []
       case BarePoint => p.whole == [] && p.fraction == [DOT] && p.exponent == []
       case Point => IsWholePart(p.whole) && p.fraction == [DOT] && p.exponent == []
       case Fraction => IsWholePart(p.whole) && IsFractionPart(p.fraction) && p.fraction != [] && p.exponent == []
       case Mark => IsWholePart(p.whole) && IsFractionPart(p.fraction) && |p.exponent| == 1 && IsMark(p.exponent[0])
       case MarkSign => IsWholePart(p.whole) && IsFractionPart(p.fraction) && |p.exponent| == 2 && IsOpenExponent(p.exponent)
       case Exponent => IsWholePart(p.whole) && IsFractionPart(p.fraction) && IsExponentPart(p.exponent) && p.exponent != []
       case Dead => false
  }

  /** The parts without their last character. */
  function Shorter(p: Parts): (r: Parts)
    requires Join(p) != []
    ensures Join(r) == Join(p)[..|Join(p)| - 1]
  {
    if p.exponent != [] then p.(exponent := p.exponent[..|p.exponent| - 1])
    else if p.fraction != [] then p.(fraction := p.fraction[..|p.fraction| - 1])
    else if p.whole != [] then p.(whole := p.whole[..|p.whole| - 1])
    else p.(sign := p.sign[..|p.sign| - 1])
  }

  /** One more character moves the automaton and lengthens one part. */
  function Longer(q: State, p: Parts, c: Code): Parts {
    match Step(q, c)
    case Sign => p.(sign := p.sign + [c])
    case Zero => p.(whole := p.whole + [c])
    case Whole => p.(whole := p.whole + [c])
    case BarePoint => p.(fraction := p.fraction + [c])
    case Point => p.(fraction := p.fraction + [c])
    case Fraction => p.(fraction := p.fraction + [c])
    case _ => p.(exponent := p.exponent + [c])
  }

  lemma {:induction false} LongerJoins(q: State, p: Parts, c: Code)
    requires Fits(q, p) && Step(q, c) != Dead
    ensures Join(Longer(q, p, c)) == Join(p) + [c]
  {
  }

  lemma {:induction false} WholeGrows(t: Text, c: Code)
    ensures IsWholePart([0x30])
    ensures IsDigit(c) && c != 0x30 ==> IsWholePart([c])
    ensures IsWholePart(t) && t != [0x30] && IsDigit(c) ==> IsWholePart(t + [c]) && t + [c] != [0x30]
  {
  }

  lemma {:induction false} FractionGrows(t: Text, c: Code)
    ensures IsFractionPart([])
    ensures IsDigit(c) && (t == [DOT] || (IsFractionPart(t) && t != [])) ==> IsFractionPart(t + [c])
  {
    if t != [] {
      assert (t + [c])[1..] == t[1..] + [c];
    }
  }

  lemma {:induction false} ExponentGrows(t: Text, c: Code)
    requires t != [] && IsMark(t[0])
    ensures |t| == 1 && IsSign(c) ==> IsOpenExponent(t + [c])
    ensures IsDigit(c) && (|t| == 1 || IsOpenExponent(t) || IsExponentPart(t)) ==> IsExponentPart(t + [c])
  {
    var n := MarkLength(t + [c]);
    if |t| >= n {
      assert (t + [c])[n..] == t[n..] + [c];
    }
  }

  lemma {:induction false} ExponentStarts(t: Text)
    ensures (IsOpenExponent(t) || IsExponentPart(t)) && t != [] ==> IsMark(t[0])
  {
  }

  lemma {:induction false} LongerFits(q: State, p: Parts, c: Code)
    requires Fits(q, p) && Step(q, c) != Dead
    ensures Fits(Step(q, c), Longer(q, p, c))
  {
    hide IsWholePart, IsFractionPart, IsExponentPart, IsOpenExponent, MarkLength;
    WholeGrows(p.whole, c);
    FractionGrows(p.fraction, c);
    ExponentStarts(p.exponent);
    if p.exponent != [] {
      ExponentGrows(p.exponent, c);
    }
    assert [] + [c] == [c];
    match q
    case Start =>
    case Sign =>
    case Zero =>
    case Whole =>
    case BarePoint =>
    case Point =>
    case Fraction =>
    case Mark =>
    case MarkSign =>
    case Exponent =>
  }

  lemma {:induction false} PartsOf(t: Text) returns (p: Parts)
    requires IsTolerated(t)
    ensures Join(p) == t && Fits(StateOf(t), p)
  {
    if t == [] {
      p := Parts([], [], [], []);
    } else {
      var q := PartsOf(t[..|t| - 1]);
      LongerJoins(StateOf(t[..|t| - 1]), q, t[|t| - 1]);
      LongerFits(StateOf(t[..|t| - 1]), q, t[|t| - 1]);
      p := Longer(StateOf(t[..|t| - 1]), q, t[|t| - 1]);
    }
  }

  /** The state the automaton was in one character earlier. */
  function StateBefore(q: State, p: Parts): State
    requires Fits(q, p) && Join(p) != []
  {
    var r := Shorter(p);
    match q
    case Whole => if r.whole != [] then Whole else if p.sign == [] then Start else Sign
    case Zero => if p.sign == [] then Start else Sign
    case BarePoint => if p.sign == [] then Start else Sign
    case Point => if p.whole == [0x30] then Zero else Whole
    case Fraction => if |r.fraction| == 1 then Point else Fraction
    case Mark => if p.fraction != [] then Fraction else if p.whole == [0x30] then Zero else Whole
    case MarkSign => Mark
    case Exponent => if |r.exponent| == 1 then Mark else if IsOpenExponent(r.exponent) then MarkSign else Exponent
    case _ => Start
  }

  lemma {:induction false} StateOfParts(q: State, p: Parts)
    requires Fits(q, p)
    ensures StateOf(Join(p)) == q
    decreases |Join(p)|
  {
    if Join(p) != [] {
      StateOfShorter(q, p);
      StateOfParts(StateBefore(q, p), Shorter(p));
    }
  }

  lemma {:induction false} StateOfShorter(q: State, p: Parts)
    requires Fits(q, p) && Join(p) != []
    ensures Fits(StateBefore(q, p), Shorter(p))
    ensures Step(StateBefore(q, p), Join(p)[|Join(p)| - 1]) == q
  {
    if q == Exponent {
      ShorterExponent(p);
    } else if q == Fraction {
      ShorterFraction(p);
    }
  }

  lemma {:induction false} ShorterExponent(p: Parts)
    requires Fits(Exponent, p)
    ensures Fits(StateBefore(Exponent, p), Shorter(p))
    ensures Step(StateBefore(Exponent, p), Join(p)[|Join(p)| - 1]) == Exponent
  {
    var r := Shorter(p);
    assert p.exponent == r.exponent + [p.exponent[|p.exponent| - 1]];
    assert p.exponent[|p.exponent| - 1] == p.exponent[MarkLength(p.exponent)..][|p.exponent| - MarkLength(p.exponent) - 1];
  }

  lemma {:induction false} ShorterFraction(p: Parts)
    requires Fits(Fraction, p)
    ensures Fits(StateBefore(Fraction, p), Shorter(p))
    ensures Step(StateBefore(Fraction, p), Join(p)[|Join(p)| - 1]) == Fraction
  {
    var r := Shorter(p);
    assert p.fraction == r.fraction + [p.fraction[|p.fraction| - 1]];
    assert p.fraction[|p.fraction| - 1] == p.fraction[1..][|p.fraction| - 2];
  }

  /** The first pattern: a token is a number exactly when it derives from the grammar. */
  lemma {:induction false} NumberIsGrammatical(t: Text)
    ensures IsNumber(t) <==> exists p :: IsGrammatical(p) && Join(p) == t
  {
    if IsNumber(t) {
      var p := PartsOf(t);
      assert IsGrammatical(p);
    }
    forall p | IsGrammatical(p) && Join(p) == t
      ensures IsNumber(t)
    {
      StateOfParts(StateFor(p), p);
    }
  }

  /** The two patterns together: what the parser lets pass. */
  lemma {:induction false} ToleratedIsGrammatical(t: Text)
    ensures IsTolerated(t) <==> exists p :: (IsGrammatical(p) || IsUnfinished(p)) && Join(p) == t
  {
    if IsTolerated(t) {
      var p := PartsOf(t);
      assert IsGrammatical(p) || IsUnfinished(p);
    }
    forall p | (IsGrammatical(p) || IsUnfinished(p)) && Join(p) == t
      ensures IsTolerated(t)
    {
      StateOfParts(StateFor(p), p);
    }
  }

  /** The state that parts of either pattern end in. */
  function StateFor(p: Parts): State {
    if p.exponent != [] then (if |p.exponent| > MarkLength(p.exponent) then Exponent else if |p.exponent| == 1 then Mark else MarkSign)
    else if |p.fraction| > 1 then Fraction
    else if p.fraction != [] then (if p.whole == [] then BarePoint else Point)
    else if p.whole != [] then (if p.whole == [0x30] then Zero else Whole)
    else if p.sign != [] then Sign else Start
  }
}
