/** Polynomials over the field with two elements, as the finite sets of the exponents whose
    coefficient is one. Sets are equal exactly when the polynomials are. */
module Gf2Polynomial {
  type Poly = set<nat>

  function Plus(p: Poly, q: Poly): Poly {
    (p - q) + (q - p)
  }

  /** Multiplication by `x` to the `n`. */
  function Shift(p: Poly, n: nat): Poly {
    set e | e in p :: e + n
  }

  /** The exponents of `p` that meet an exponent of `q` to give `e`. */
  function Meeting(p: Poly, q: Poly, e: nat): set<nat> {
    set i | i in p && e - i in q
  }

  /** The product: coefficient `e` is the parity of the pairs of exponents that add up to `e`. */
  function Times(p: Poly, q: Poly): Poly {
    set i, j | i in p && j in q && |Meeting(p, q, i + j)| % 2 == 1 :: i + j
  }

  predicate Below(p: Poly, n: nat) {
    forall e :: e in p ==> e < n
  }

  // ----- coefficients

  lemma {:induction false} InShift(p: Poly, n: nat, e: nat)
    ensures e in Shift(p, n) <==> e >= n && e - n in p
  {
    if e >= n && e - n in p {
      assert (e - n) + n == e;
    }
  }

  lemma {:induction false} InTimes(p: Poly, q: Poly, e: nat)
    ensures e in Times(p, q) <==> |Meeting(p, q, e)| % 2 == 1
  {
    if |Meeting(p, q, e)| % 2 == 1 {
      var i :| i in Meeting(p, q, e);
      assert i in p && e - i in q && i + (e - i) == e;
    }
  }

  // ----- laws

  lemma {:induction false} PlusParity(a: set<nat>, b: set<nat>)
    ensures |Plus(a, b)| % 2 == (|a| + |b|) % 2
  {
    assert a == (a - b) + (a * b);
    assert b == (b - a) + (a * b);
    assert |a| == |a - b| + |a * b|;
    assert |b| == |b - a| + |a * b|;
  }

  lemma {:induction false} TimesDistributes(p: Poly, p': Poly, q: Poly)
    ensures Times(Plus(p, p'), q) == Plus(Times(p, q), Times(p', q))
  {
    hide Times;
    forall e: nat
      ensures e in Times(Plus(p, p'), q) <==> e in Plus(Times(p, q), Times(p', q))
    {
      InTimes(p, q, e);
      InTimes(p', q, e);
      InTimes(Plus(p, p'), q, e);
      assert Meeting(Plus(p, p'), q, e) == Plus(Meeting(p, q, e), Meeting(p', q, e));
      PlusParity(Meeting(p, q, e), Meeting(p', q, e));
    }
  }

  lemma {:induction false} ShiftSize(p: set<nat>, n: nat)
    ensures |Shift(p, n)| == |p|
    decreases p
  {
    if p == {} {
      assert Shift(p, n) == {};
    } else {
      hide Shift;
      var e :| e in p;
      ShiftSize(p - {e}, n);
      forall i: nat
        ensures i in Shift(p, n) <==> i in Shift(p - {e}, n) + {e + n}
      {
        InShift(p, n, i);
        InShift(p - {e}, n, i);
      }
      assert Shift(p, n) == Shift(p - {e}, n) + {e + n};
      InShift(p - {e}, n, e + n);
    }
  }

  lemma {:induction false} TimesShift(p: Poly, q: Poly, n: nat)
    ensures Times(Shift(p, n), q) == Shift(Times(p, q), n)
  {
    hide Times, Shift, Meeting;
    forall e: nat
      ensures e in Times(Shift(p, n), q) <==> e in Shift(Times(p, q), n)
    {
      InTimes(Shift(p, n), q, e);
      InShift(Times(p, q), n, e);
      MeetingShift(p, q, n, e);
      if e >= n {
        InTimes(p, q, e - n);
        ShiftSize(Meeting(p, q, e - n), n);
      }
    }
  }

  lemma {:induction false} MeetingShift(p: Poly, q: Poly, n: nat, e: nat)
    ensures Meeting(Shift(p, n), q, e) == if e >= n then Shift(Meeting(p, q, e - n), n) else {}
  {
    hide Shift;
    forall i: nat
      ensures i in Meeting(Shift(p, n), q, e) <==> e >= n && i in Shift(Meeting(p, q, e - n), n)
    {
      InShift(p, n, i);
      if e >= n {
        InShift(Meeting(p, q, e - n), n, i);
        assert i >= n ==> (e - n) - (i - n) == e - i;
      }
    }
  }

  lemma {:induction false} TimesOne(q: Poly)
    ensures Times({0}, q) == q
  {
    hide Times;
    forall e: nat
      ensures e in Times({0}, q) <==> e in q
    {
      InTimes({0}, q, e);
      assert Meeting({0}, q, e) == if e in q then {0} else {};
    }
  }

  lemma {:induction false} TimesZero(q: Poly)
    ensures Times({}, q) == {}
  {
  }

  /** The largest exponent. */
  ghost function Degree(p: Poly): (n: nat)
    requires p != {}
    ensures n in p && Below(p, n + 1)
    decreases p
  {
    DegreeExists(p);
    var n :| n in p && Below(p, n + 1);
    n
  }

  lemma {:induction false} DegreeExists(p: Poly)
    requires p != {}
    ensures exists n :: n in p && Below(p, n + 1)
    decreases p
  {
    var e :| e in p;
    if p == {e} {
      assert e in p && Below(p, e + 1);
    } else {
      var rest := p - {e};
      DegreeExists(rest);
      var n :| n in rest && Below(rest, n + 1);
      assert p == rest + {e};
      var top := if e > n then e else n;
      assert top in p && Below(p, top + 1);
    }
  }

  /** The top coefficients of the factors meet alone. */
  lemma {:induction false} TopOfProduct(p: Poly, q: Poly, d: nat)
    requires p != {} && d in q && Below(q, d + 1)
    ensures Degree(p) + d in Times(p, q)
  {
    hide Times;
    var n := Degree(p);
    InTimes(p, q, n + d);
    assert Meeting(p, q, n + d) == {n};
  }

  // ----- division

  /** `r` is the remainder of `p` divided by `g`, a polynomial of degree `d`. */
  ghost predicate IsRemainder(p: Poly, g: Poly, d: nat, r: Poly) {
    Below(r, d) && exists q :: p == Plus(Times(q, g), r)
  }

  /** There is only one remainder. */
  lemma {:induction false} RemainderUnique(p: Poly, g: Poly, d: nat, r: Poly, r': Poly)
    requires d in g && Below(g, d + 1)
    requires IsRemainder(p, g, d, r) && IsRemainder(p, g, d, r')
    ensures r == r'
  {
    hide Times;
    var q :| p == Plus(Times(q, g), r);
    var q' :| p == Plus(Times(q', g), r');
    var delta := Plus(q, q');
    TimesDistributes(q, q', g);
    assert Times(delta, g) == Plus(r, r');
    if delta != {} {
      TopOfProduct(delta, g, d);
      assert false;
    }
    TimesZero(g);
    assert r == r';
  }

  /** The next dividend, and the next remainder before the divisor is taken away: multiplied
      by `x`, with a coefficient brought in at degree `d`. */
  function Bring(p: Poly, d: nat, bit: bool): Poly {
    if bit then Plus(Shift(p, 1), {d}) else Shift(p, 1)
  }

  function Reduce(p: Poly, g: Poly, d: nat): Poly {
    if d in p then Plus(p, g) else p
  }

  /** One step of long division. */
  lemma {:induction false} DivisionStep(p: Poly, g: Poly, d: nat, r: Poly, bit: bool)
    requires d in g && Below(g, d + 1)
    requires IsRemainder(p, g, d, r)
    ensures IsRemainder(Bring(p, d, bit), g, d, Reduce(Bring(r, d, bit), g, d))
  {
    hide Times, Shift;
    var q :| p == Plus(Times(q, g), r);
    var t, s := Times(q, g), Bring(r, d, bit);
    TimesShift(q, g, 1);
    BringSum(p, t, r, d, bit);
    BringBelow(r, d, bit);
    if d in s {
      TimesDistributes(Shift(q, 1), {0}, g);
      TimesOne(g);
      assert Bring(p, d, bit) == Plus(Times(Plus(Shift(q, 1), {0}), g), Plus(s, g));
    } else {
      assert Bring(p, d, bit) == Plus(Times(Shift(q, 1), g), s);
    }
  }

  lemma {:induction false} BringSum(p: Poly, t: Poly, r: Poly, d: nat, bit: bool)
    requires p == Plus(t, r)
    ensures Bring(p, d, bit) == Plus(Shift(t, 1), Bring(r, d, bit))
  {
    hide Shift;
    forall e: nat
      ensures e in Bring(p, d, bit) <==> e in Plus(Shift(t, 1), Bring(r, d, bit))
    {
      InShift(p, 1, e);
      InShift(t, 1, e);
      InShift(r, 1, e);
    }
  }

  lemma {:induction false} BringBelow(r: Poly, d: nat, bit: bool)
    requires Below(r, d)
    ensures Below(Bring(r, d, bit), d + 1)
  {
  }
}
