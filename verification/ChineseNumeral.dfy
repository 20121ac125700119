/** Reading a Chinese numeral, against the way numbers are written.

    A number is written in sections of four decimal places. The reader accepts any text of
    digits and units; what it makes of a written number is the subject here. */
module ChineseNumeral {
  import opened JsonText

  const LING: Code := 0x96F6
  const YI: Code := 0x4E00
  const SHI: Code := 0x5341
  const BAI: Code := 0x767E
  const QIAN: Code := 0x5343
  const WAN: Code := 0x4E07
  const HUNDRED_MILLION: Code := 0x4EBF

  function DigitOf(c: Code): Option<nat> {
    if c == LING then Some(0)
    else if c == YI then Some(1)
    else if c == 0x4E8C || c == 0x4E24 then Some(2)
    else if c == 0x4E09 then Some(3)
    else if c == 0x56DB then Some(4)
    else if c == 0x4E94 then Some(5)
    else if c == 0x516D then Some(6)
    else if c == 0x4E03 then Some(7)
    else if c == 0x516B then Some(8)
    else if c == 0x4E5D then Some(9)
    else None
  }

  function UnitOf(c: Code): Option<nat> {
    if c == SHI then Some(10)
    else if c == BAI then Some(100)
    else if c == QIAN then Some(1000)
    else if c == WAN then Some(1_0000)
    else if c == HUNDRED_MILLION then Some(1_0000_0000)
    else None
  }

  predicate IsSign(c: Code) {
    DigitOf(c).Some? || UnitOf(c).Some?
  }

  // ----- the reader

  datatype Reading = Reading(total: nat, section: nat, digit: nat)

  const START := Reading(0, 0, 0)

  function Sum(st: Reading): nat {
    st.total + st.section + st.digit
  }

  function Step(st: Reading, c: Code): Reading
    requires IsSign(c)
  {
    match DigitOf(c)
    case Some(d) => st.(digit := d)
    case None =>
      var unit := UnitOf(c).value;
      if unit < 10_000 then
        Reading(st.total, st.section + (if st.digit == 0 then 1 else st.digit) * unit, 0)
      else
        Reading(st.total + (st.section + st.digit) * unit, 0, 0)
  }

  ghost predicate AllSigns(text: Text) {
    forall k :: 0 <= k < |text| ==> IsSign(text[k])
  }

  ghost function After(st: Reading, text: Text): Reading
    requires AllSigns(text)
  {
    if text == [] then st else Step(After(st, text[..|text| - 1]), text[|text| - 1])
  }

  ghost function Evaluate(text: Text): Option<nat> {
    if AllSigns(text) then Some(Sum(After(START, text))) else None
  }

  lemma {:induction false} AfterNext(st: Reading, text: Text, k: nat)
    requires k < |text| && AllSigns(text[..k]) && IsSign(text[k])
    ensures AllSigns(text[..k + 1]) && After(st, text[..k + 1]) == Step(After(st, text[..k]), text[k])
  {
    assert text[..k + 1][..k] == text[..k];
  }

  lemma {:induction false} AfterNone(st: Reading)
    ensures AllSigns([]) && After(st, []) == st
  {
  }

  lemma {:induction false} NotASign(text: Text, k: nat)
    requires k < |text| && !IsSign(text[k])
    ensures !AllSigns(text)
  {
  }

  /** `None` is the `ValueError`. */
  method ParseChineseNumber(text: Text) returns (number: Option<nat>)
    ensures number == Evaluate(text)
  {
    hide AllSigns, After, DigitOf, UnitOf;
    var total, section, digit := 0, 0, 0;
    assert text[..0] == [];
    AfterNone(START);
    for k := 0 to |text|
      invariant AllSigns(text[..k])
      invariant Reading(total, section, digit) == After(START, text[..k])
    {
      var c := text[k];
      if IsSign(c) {
        AfterNext(START, text, k);
      } else {
        NotASign(text, k);
      }
      if DigitOf(c).Some? {
        digit := DigitOf(c).value;
      } else if UnitOf(c).Some? {
        var unit := UnitOf(c).value;
        if unit < 10_000 {
          section := section + (if digit != 0 then digit else 1) * unit;
        } else {
          total := total + (section + digit) * unit;
          section := 0;
        }
        digit := 0;
      } else {
        return None;
      }
    }
    assert text[..|text|] == text;
    return Some(total + section + digit);
  }

  // ----- how numbers are written

  /** What stands at one decimal place: nothing or zeros, a digit with the unit of its place,
      or the bare unit that stands for one ten. */
  datatype Figure = Gap(zeros: nat) | Plain(sign: Code, digit: nat) | Bare

  const DIGIT_SIGNS := "零一二三四五六七八九"

  /** The sign stands for this digit; two has another form before a unit. */
  predicate Stands(sign: Code, digit: nat) {
    0 < digit < 10 && (sign == DIGIT_SIGNS[digit] as int || (digit == 2 && sign == '两' as int))
  }

  datatype Section = Section(thousands: Figure, hundreds: Figure, tens: Figure, ones: Figure)

  /** `highMyriads` and `high` count hundred millions, `lowMyriads` counts ten thousands. */
  datatype Numeral = Numeral(highMyriads: Section, high: Section, lowMyriads: Section, low: Section)

  predicate IsFigure(f: Figure, bare: bool) {
    match f
    case Gap(_) => true
    case Plain(sign, digit) => Stands(sign, digit)
    case Bare => bare
  }

  predicate IsSection(s: Section) {
    && IsFigure(s.thousands, false)
    && IsFigure(s.hundreds, false)
    && IsFigure(s.tens, true)
    && IsFigure(s.ones, false)
  }

  predicate IsNumeral(x: Numeral) {
    IsSection(x.highMyriads) && IsSection(x.high) && IsSection(x.lowMyriads) && IsSection(x.low)
  }

  function FigureValue(f: Figure): (d: nat)
    requires IsFigure(f, true)
    ensures d < 10
  {
    match f
    case Gap(_) => 0
    case Plain(_, digit) => digit
    case Bare => 1
  }

  function SectionValue(s: Section): (m: nat)
    requires IsSection(s)
    ensures m < 1_0000
  {
    FigureValue(s.thousands) * 1000 + FigureValue(s.hundreds) * 100 + FigureValue(s.tens) * 10 + FigureValue(s.ones)
  }

  function NumeralValue(x: Numeral): (n: nat)
    requires IsNumeral(x)
    ensures n < 1_0000_0000_0000_0000
  {
    SectionValue(x.highMyriads) * 1_0000_0000_0000 + SectionValue(x.high) * 1_0000_0000
    + SectionValue(x.lowMyriads) * 1_0000 + SectionValue(x.low)
  }

  function Zeros(n: nat): Text {
    if n == 0 then [] else Zeros(n - 1) + Codes("零")
  }

  function FigureText(f: Figure, unit: Text): Text {
    match f
    case Gap(zeros) => Zeros(zeros)
    case Plain(sign, _) => [sign] + unit
    case Bare => unit
  }

  function SectionText(s: Section): Text {
    FigureText(s.thousands, Codes("千")) + FigureText(s.hundreds, Codes("百")) + FigureText(s.tens, Codes("十"))
    + FigureText(s.ones, [])
  }

  function UnitIf(written: bool, unit: Text): Text {
    if written then unit else []
  }

  function NumeralText(x: Numeral): Text
    requires IsNumeral(x)
  {
    SectionText(x.highMyriads) + UnitIf(SectionValue(x.highMyriads) > 0, Codes("万"))
    + SectionText(x.high) + UnitIf(SectionValue(x.highMyriads) + SectionValue(x.high) > 0, Codes("亿"))
    + SectionText(x.lowMyriads) + UnitIf(SectionValue(x.lowMyriads) > 0, Codes("万"))
    + SectionText(x.low)
  }

  /** The reader knows the signs of the writer. */
  lemma {:induction false} UnitsAre()
    ensures Codes("零") == [LING] && Codes("十") == [SHI] && Codes("百") == [BAI] && Codes("千") == [QIAN]
    ensures Codes("万") == [WAN] && Codes("亿") == [HUNDRED_MILLION]
  {
  }

  lemma {:induction false} SignIs(sign: Code, digit: nat)
    requires Stands(sign, digit)
    ensures DigitOf(sign) == Some(digit)
  {
  }

  // ----- what the reader makes of it

  lemma {:induction false} AfterJoined(st: Reading, a: Text, b: Text)
    requires AllSigns(a) && AllSigns(b)
    ensures AllSigns(a + b) && After(st, a + b) == After(After(st, a), b)
    decreases |b|
  {
    if b == [] {
      assert a + b == a;
    } else {
      var k := |b| - 1;
      AfterJoined(st, a, b[..k]);
      assert (a + b)[..|a| + k] == a + b[..k];
    }
  }

  /** `text` leads the reader from one state to the other. */
  ghost predicate Leads(st: Reading, text: Text, to: Reading) {
    AllSigns(text) && After(st, text) == to
  }

  lemma {:induction false} LeadsJoined(st: Reading, a: Text, mid: Reading, b: Text, to: Reading)
    requires Leads(st, a, mid) && Leads(mid, b, to)
    ensures Leads(st, a + b, to)
  {
    AfterJoined(st, a, b);
  }

  lemma {:induction false} LeadsNothing(st: Reading)
    ensures Leads(st, [], st)
  {
  }

  lemma {:induction false} LeadsOne(st: Reading, c: Code)
    requires IsSign(c)
    ensures Leads(st, [c], Step(st, c))
  {
    assert After(st, []) == st;
    assert [c][..0] == [];
  }

  lemma {:induction false} ZerosRead(st: Reading, n: nat)
    requires st.digit == 0
    ensures Leads(st, Zeros(n), st)
  {
    hide Leads;
    if n == 0 {
      LeadsNothing(st);
    } else {
      UnitsAre();
      ZerosRead(st, n - 1);
      LeadsOne(st, LING);
      LeadsJoined(st, Zeros(n - 1), st, [LING], st);
    }
  }

  /** A place above the ones adds its digit times its unit to the section. */
  lemma {:induction false} FigureRead(st: Reading, f: Figure, unit: Code)
    requires st.digit == 0 && unit in {SHI, BAI, QIAN} && IsFigure(f, unit == SHI)
    ensures Leads(st, FigureText(f, [unit]), Reading(st.total, st.section + FigureValue(f) * UnitOf(unit).value, 0))
  {
    hide Leads;
    match f {
      case Gap(zeros) =>
        ZerosRead(st, zeros);
        assert st == Reading(st.total, st.section, 0);
      case Plain(c, digit) =>
        SignIs(c, digit);
        LeadsOne(st, c);
        LeadsOne(Step(st, c), unit);
        LeadsJoined(st, [c], Step(st, c), [unit], Step(Step(st, c), unit));
      case Bare =>
        LeadsOne(st, unit);
    }
  }

  /** The ones stay pending as the digit. */
  lemma {:induction false} OnesRead(st: Reading, f: Figure)
    requires st.digit == 0 && IsFigure(f, false)
    ensures Leads(st, FigureText(f, []), st.(digit := FigureValue(f)))
  {
    hide Leads;
    match f {
      case Gap(zeros) =>
        ZerosRead(st, zeros);
        assert st == st.(digit := 0);
      case Plain(c, digit) =>
        SignIs(c, digit);
        LeadsOne(st, c);
        assert [c] + [] == [c];
    }
  }

  function SectionEnd(total: nat, s: Section): Reading
    requires IsSection(s)
  {
    Reading(total, SectionValue(s) - FigureValue(s.ones), FigureValue(s.ones))
  }

  lemma {:induction false} SectionRead(total: nat, s: Section)
    requires IsSection(s)
    ensures Leads(Reading(total, 0, 0), SectionText(s), SectionEnd(total, s))
  {
    hide Leads, FigureText, Codes;
    UnitsAre();
    var q, b, t, o := FigureText(s.thousands, [QIAN]), FigureText(s.hundreds, [BAI]), FigureText(s.tens, [SHI]), FigureText(s.ones, []);
    var start := Reading(total, 0, 0);
    var x := Reading(total, FigureValue(s.thousands) * 1000, 0);
    var y := Reading(total, x.section + FigureValue(s.hundreds) * 100, 0);
    var z := Reading(total, y.section + FigureValue(s.tens) * 10, 0);
    FigureRead(start, s.thousands, QIAN);
    FigureRead(x, s.hundreds, BAI);
    FigureRead(y, s.tens, SHI);
    OnesRead(z, s.ones);
    LeadsJoined(start, q, x, b, y);
    LeadsJoined(start, q + b, y, t, z);
    LeadsJoined(start, q + b + t, z, o, SectionEnd(total, s));
  }

  /** A section and its unit. The unit may be written for an empty section. */
  lemma {:induction false} PartRead(total: nat, s: Section, written: bool, unit: Code)
    requires IsSection(s) && unit in {WAN, HUNDRED_MILLION} && (SectionValue(s) > 0 ==> written)
    ensures Leads(Reading(total, 0, 0), SectionText(s) + UnitIf(written, [unit]),
                  Reading(total + SectionValue(s) * UnitOf(unit).value, 0, 0))
  {
    hide Leads, SectionText;
    SectionRead(total, s);
    var end := SectionEnd(total, s);
    if written {
      LeadsOne(end, unit);
      LeadsJoined(Reading(total, 0, 0), SectionText(s), end, [unit], Step(end, unit));
    } else {
      assert SectionText(s) + [] == SectionText(s);
    }
  }

  /** The sum the reader ends with: the highest section is multiplied by ten thousand only. */
  lemma {:induction false} NumeralIsRead(x: Numeral)
    requires IsNumeral(x)
    ensures Evaluate(NumeralText(x)) == Some(
      SectionValue(x.highMyriads) * 1_0000 + SectionValue(x.high) * 1_0000_0000
      + SectionValue(x.lowMyriads) * 1_0000 + SectionValue(x.low))
  {
    hide Leads, SectionText, UnitIf, SectionValue, Codes;
    UnitsAre();
    var hm, h, lm, l := SectionValue(x.highMyriads), SectionValue(x.high), SectionValue(x.lowMyriads), SectionValue(x.low);
    var a := SectionText(x.highMyriads) + UnitIf(hm > 0, [WAN]);
    var b := SectionText(x.high) + UnitIf(hm + h > 0, [HUNDRED_MILLION]);
    var c := SectionText(x.lowMyriads) + UnitIf(lm > 0, [WAN]);
    var d := SectionText(x.low);
    var i := Reading(hm * 1_0000, 0, 0);
    var j := Reading(i.total + h * 1_0000_0000, 0, 0);
    var k := Reading(j.total + lm * 1_0000, 0, 0);
    PartRead(0, x.highMyriads, hm > 0, WAN);
    PartRead(i.total, x.high, hm + h > 0, HUNDRED_MILLION);
    PartRead(j.total, x.lowMyriads, lm > 0, WAN);
    SectionRead(k.total, x.low);
    LeadsJoined(START, a, i, b, j);
    LeadsJoined(START, a + b, j, c, k);
    LeadsJoined(START, a + b + c, k, d, SectionEnd(k.total, x.low));
    assert NumeralText(x) == a + b + c + d;
    LeadsSum(NumeralText(x), SectionEnd(k.total, x.low));
  }

  lemma {:induction false} LeadsSum(text: Text, end: Reading)
    requires Leads(START, text, end)
    ensures Evaluate(text) == Some(Sum(end))
  {
  }

  /** A written number is read back exactly when it is below a million million. */
  lemma {:induction false} ReadBackIff(x: Numeral)
    requires IsNumeral(x)
    ensures Evaluate(NumeralText(x)) == Some(NumeralValue(x)) <==> NumeralValue(x) < 1_0000_0000_0000
  {
    hide Evaluate, NumeralText, SectionValue;
    NumeralIsRead(x);
  }

  /** Below the bound two different numbers are never written the same way. */
  lemma {:induction false} WritingIsUnambiguous(x: Numeral, y: Numeral)
    requires IsNumeral(x) && IsNumeral(y) && NumeralText(x) == NumeralText(y)
    requires NumeralValue(x) < 1_0000_0000_0000 && NumeralValue(y) < 1_0000_0000_0000
    ensures NumeralValue(x) == NumeralValue(y)
  {
    hide Evaluate, NumeralText, NumeralValue;
    ReadBackIff(x);
    ReadBackIff(y);
  }

  // ----- what the reader makes of any text of signs

  predicate IsMyriad(c: Code) {
    c == '万' as int || c == '亿' as int
  }

  ghost predicate NoMyriads(text: Text) {
    forall k :: 0 <= k < |text| ==> !IsMyriad(text[k])
  }

  /** Reading from another start: sums that have been put aside stay aside. */
  lemma {:induction false} AfterShifted(total: nat, section: nat, text: Text)
    requires AllSigns(text)
    requires section == 0 || NoMyriads(text)
    ensures var r := After(START, text);
      After(Reading(total, section, 0), text) == Reading(total + r.total, section + r.section, r.digit)
    ensures NoMyriads(text) ==> After(START, text).total == 0
    decreases |text|
  {
    hide DigitOf;
    if text == [] {
    } else {
      AfterShifted(total, section, text[..|text| - 1]);
      UnitsAre();
      assert NoMyriads(text) ==> !IsMyriad(text[|text| - 1]);
    }
  }

  lemma {:induction false} EvaluateIs(text: Text)
    requires AllSigns(text)
    ensures Evaluate(text) == Some(Sum(After(START, text)))
  {
  }

  lemma {:induction false} LastStep(text: Text, c: Code)
    requires AllSigns(text) && IsSign(c)
    ensures AllSigns(text + [c]) && After(START, text + [c]) == Step(After(START, text), c)
  {
    LeadsOne(After(START, text), c);
    AfterJoined(START, text, [c]);
  }

  /** What stands behind ten thousands or hundred millions is added to them. */
  lemma {:induction false} MyriadSplits(a: Text, c: Code, b: Text)
    requires AllSigns(a) && IsMyriad(c) && AllSigns(b)
    ensures Evaluate(a + [c]).Some? && Evaluate(b).Some?
    ensures Evaluate(a + [c] + b) == Some(Evaluate(a + [c]).value + Evaluate(b).value)
  {
    hide After, AllSigns;
    MyriadIsSign(c);
    LastStep(a, c);
    AfterJoined(START, a + [c], b);
    AfterShifted(After(START, a + [c]).total, 0, b);
    EvaluateIs(a + [c]);
    EvaluateIs(b);
    EvaluateIs(a + [c] + b);
  }

  lemma {:induction false} MyriadIsSign(c: Code)
    requires IsMyriad(c)
    ensures IsSign(c) && DigitOf(c).None? && UnitOf(c) == Some(if c == '万' as int then 1_0000 else 1_0000_0000)
  {
  }

  /** Before them stands what they count. */
  lemma {:induction false} MyriadMultiplies(a: Text, c: Code)
    requires AllSigns(a) && NoMyriads(a) && IsMyriad(c)
    ensures Evaluate(a).Some?
    ensures Evaluate(a + [c]) == Some(Evaluate(a).value * (if c == '万' as int then 1_0000 else 1_0000_0000))
  {
    hide After, AllSigns;
    MyriadIsSign(c);
    LastStep(a, c);
    AfterShifted(0, 0, a);
    EvaluateIs(a);
    EvaluateIs(a + [c]);
  }

  /** Behind a ten, a hundred or a thousand the rest is added, up to the next ten thousands. */
  lemma {:induction false} UnitSplits(a: Text, c: Code, b: Text)
    requires AllSigns(a) && NoMyriads(a) && AllSigns(b) && NoMyriads(b)
    requires c == '十' as int || c == '百' as int || c == '千' as int
    ensures IsSign(c) && Evaluate(a + [c]).Some? && Evaluate(b).Some?
    ensures Evaluate(a + [c] + b) == Some(Evaluate(a + [c]).value + Evaluate(b).value)
  {
    hide After, AllSigns;
    UnitIsSign(c);
    LastStep(a, c);
    AfterShifted(0, 0, a);
    AfterJoined(START, a + [c], b);
    AfterShifted(0, After(START, a + [c]).section, b);
    EvaluateIs(a + [c]);
    EvaluateIs(b);
    EvaluateIs(a + [c] + b);
  }

  lemma {:induction false} UnitIsSign(c: Code)
    requires c == '十' as int || c == '百' as int || c == '千' as int
    ensures IsSign(c) && DigitOf(c).None?
    ensures UnitOf(c) == Some(if c == '十' as int then 10 else if c == '百' as int then 100 else 1000)
  {
  }

  /** A unit counts as often as the digit before it says, and once without one or behind zero. */
  lemma {:induction false} UnitCounts(sign: Code, digit: nat, c: Code)
    requires Stands(sign, digit) && (c == '十' as int || c == '百' as int || c == '千' as int)
    ensures var unit := if c == '十' as int then 10 else if c == '百' as int then 100 else 1000;
      && Evaluate([sign, c]) == Some(digit * unit) && Evaluate([c]) == Some(unit) && Evaluate(['零' as int, c]) == Some(unit)
      && Evaluate([sign]) == Some(digit) && Evaluate(['零' as int]) == Some(0) && Evaluate([]) == Some(0)
  {
    hide Evaluate, DigitOf, UnitOf, Stands;
    var unit := if c == '十' as int then 10 else if c == '百' as int then 100 else 1000;
    SignIs(sign, digit);
    DigitIsPositive(sign, digit);
    UnitIsSign(c);
    ZeroIs();
    NoSigns();
    OneSign(sign);
    OneSign('零' as int);
    UnitAlone(c, unit);
    DigitThenUnit(sign, digit, c, unit);
    DigitThenUnit('零' as int, 0, c, unit);
  }

  lemma {:induction false} UnitAlone(c: Code, unit: nat)
    requires DigitOf(c).None? && UnitOf(c) == Some(unit) && unit < 1_0000
    ensures IsSign(c) && Evaluate([c]) == Some(unit)
  {
    hide Evaluate, DigitOf, UnitOf;
    OneSign(c);
  }

  lemma {:induction false} DigitThenUnit(sign: Code, digit: nat, c: Code, unit: nat)
    requires DigitOf(sign) == Some(digit) && DigitOf(c).None? && UnitOf(c) == Some(unit) && unit < 1_0000
    ensures Evaluate([sign, c]) == Some((if digit == 0 then 1 else digit) * unit)
  {
    hide Evaluate, DigitOf, UnitOf;
    TwoSigns(sign, c);
    assert Step(START, sign) == Reading(0, 0, digit);
  }

  lemma {:induction false} DigitIsPositive(sign: Code, digit: nat)
    requires Stands(sign, digit)
    ensures digit > 0
  {
  }

  lemma {:induction false} NoSigns()
    ensures Evaluate([]) == Some(0)
  {
    hide AllSigns, After;
    AfterNone(START);
  }

  lemma {:induction false} ZeroIs()
    ensures DigitOf('零' as int) == Some(0)
  {
  }

  lemma {:induction false} OneSign(c: Code)
    requires IsSign(c)
    ensures Evaluate([c]) == Some(Sum(Step(START, c)))
  {
    hide After, AllSigns;
    AfterNone(START);
    LastStep([], c);
    assert [] + [c] == [c];
    EvaluateIs([c]);
  }

  lemma {:induction false} TwoSigns(c: Code, d: Code)
    requires IsSign(c) && IsSign(d)
    ensures Evaluate([c, d]) == Some(Sum(Step(Step(START, c), d)))
  {
    hide After, AllSigns;
    AfterNone(START);
    LastStep([], c);
    assert [] + [c] == [c] && [c] + [d] == [c, d];
    LastStep([c], d);
    EvaluateIs([c, d]);
  }

  /** Of digits side by side only the last one counts. */
  lemma {:induction false} LastDigitCounts(a: Text, c: Code, d: Code, b: Text)
    requires AllSigns(a) && DigitOf(c).Some? && DigitOf(d).Some? && AllSigns(b)
    ensures Evaluate(a + [c] + [d] + b) == Evaluate(a + [d] + b)
  {
    hide After, AllSigns, DigitOf;
    LastStep(a, c);
    LastStep(a + [c], d);
    LastStep(a, d);
    AfterJoined(START, a + [c] + [d], b);
    AfterJoined(START, a + [d], b);
    EvaluateIs(a + [c] + [d] + b);
    EvaluateIs(a + [d] + b);
  }

  // ----- the canonical numeral

  /** One zero stands for a run of empty places between two digits. */
  function CanonicalFigure(d: nat, started: bool, next: nat): (f: Figure)
    requires d < 10
    ensures IsFigure(f, false) && FigureValue(f) == d
  {
    if d > 0 then Plain(DIGIT_SIGNS[d] as int, d) else if started && next > 0 then Gap(1) else Gap(0)
  }

  /** The section for `m`; `started` says that something is written before it. */
  function CanonicalSection(m: nat, started: bool, bare: bool): (s: Section)
    requires m < 1_0000
    ensures IsSection(s)
  {
    var q, b, t, o := m / 1000, m / 100 % 10, m / 10 % 10, m % 10;
    Section(
      CanonicalFigure(q, started, b),
      CanonicalFigure(b, started || q > 0, t),
      if t == 1 && bare && !started && m < 100 then Bare else CanonicalFigure(t, started || q + b > 0, o),
      CanonicalFigure(o, false, 0))
  }

  lemma {:induction false} CanonicalSectionValue(m: nat, started: bool, bare: bool)
    requires m < 1_0000
    ensures SectionValue(CanonicalSection(m, started, bare)) == m
  {
    hide CanonicalFigure, DigitOf;
    DigitsAdd(m);
  }

  lemma {:induction false} DigitsAdd(m: nat)
    requires m < 1_0000
    ensures m == (m / 1000) * 1000 + (m / 100 % 10) * 100 + (m / 10 % 10) * 10 + m % 10
  {
    var tens, hundreds := m / 10, m / 100;
    assert m == 10 * tens + m % 10;
    assert tens / 10 == hundreds && tens == 10 * hundreds + tens % 10;
    assert hundreds / 10 == m / 1000 && hundreds == 10 * (m / 1000) + hundreds % 10;
  }

  lemma {:induction false} MyriadsAdd(n: nat)
    ensures n == (n / 1_0000_0000_0000) * 1_0000_0000_0000 + (n / 1_0000_0000 % 1_0000) * 1_0000_0000
                 + (n / 1_0000 % 1_0000) * 1_0000 + n % 1_0000
  {
    var a, b := n / 1_0000, n / 1_0000_0000;
    assert n == 1_0000 * a + n % 1_0000;
    assert a / 1_0000 == b && a == 1_0000 * b + a % 1_0000;
    assert b / 1_0000 == n / 1_0000_0000_0000 && b == 1_0000 * (n / 1_0000_0000_0000) + b % 1_0000;
  }

  /** `bare` drops the one of a leading ten. Zero itself is a single zero. */
  function Canonical(n: nat, bare: bool): (x: Numeral)
    requires n < 1_0000_0000_0000_0000
    ensures IsNumeral(x)
  {
    var hm, h, lm, l := n / 1_0000_0000_0000, n / 1_0000_0000 % 1_0000, n / 1_0000 % 1_0000, n % 1_0000;
    if n == 0 then
      Numeral(CanonicalSection(0, false, bare), CanonicalSection(0, false, bare), CanonicalSection(0, false, bare),
              Section(Gap(0), Gap(0), Gap(0), Gap(1)))
    else
      Numeral(CanonicalSection(hm, false, bare), CanonicalSection(h, hm > 0, bare),
              CanonicalSection(lm, hm + h > 0, bare), CanonicalSection(l, hm + h + lm > 0, bare))
  }

  lemma {:induction false} CanonicalValue(n: nat, bare: bool)
    requires n < 1_0000_0000_0000_0000
    ensures NumeralValue(Canonical(n, bare)) == n
  {
    hide CanonicalSection, SectionValue;
    MyriadsAdd(n);
    var hm, h, lm, l := n / 1_0000_0000_0000, n / 1_0000_0000 % 1_0000, n / 1_0000 % 1_0000, n % 1_0000;
    CanonicalSectionValue(0, false, bare);
    CanonicalSectionValue(hm, false, bare);
    CanonicalSectionValue(h, hm > 0, bare);
    CanonicalSectionValue(lm, hm + h > 0, bare);
    CanonicalSectionValue(l, hm + h + lm > 0, bare);
    ZeroSection();
  }

  lemma {:induction false} ZeroSection()
    ensures SectionValue(Section(Gap(0), Gap(0), Gap(0), Gap(1))) == 0
  {
  }

  /** The canonical numeral is read back exactly below the bound. */
  lemma {:induction false} CanonicalReadBackIff(n: nat, bare: bool)
    requires n < 1_0000_0000_0000_0000
    ensures Evaluate(NumeralText(Canonical(n, bare))) == Some(n) <==> n < 1_0000_0000_0000
  {
    hide Evaluate, NumeralText, NumeralValue, Canonical;
    CanonicalValue(n, bare);
    ReadBackIff(Canonical(n, bare));
  }

  /** The first number past the bound is read as ten thousand. */
  lemma {:induction false} BoundIsTight()
    ensures NumeralText(Canonical(1_0000_0000_0000, true)) == Codes("一万亿")
    ensures Evaluate(Codes("一万亿")) == Some(1_0000)
  {
    hide SectionText, SectionValue, CanonicalSection, Evaluate;
    var x := Canonical(1_0000_0000_0000, true);
    EmptySection();
    OneSection();
    NumeralIsRead(x);
  }

  lemma {:induction false} EmptySection()
    ensures SectionText(CanonicalSection(0, true, true)) == []
    ensures SectionValue(CanonicalSection(0, true, true)) == 0
  {
  }

  lemma {:induction false} OneSection()
    ensures SectionText(CanonicalSection(1, false, true)) == [YI]
    ensures SectionValue(CanonicalSection(1, false, true)) == 1
  {
  }
}
