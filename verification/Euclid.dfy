/** The Euclidean algorithm with its remainder steps. */
module Euclid {

  /** One division: `a == quotient * b + remainder`. */
  datatype Step = Step(a: nat, b: nat, quotient: nat, remainder: nat)

  datatype GcdTrace = GcdTrace(left: int, right: int, steps: seq<Step>, result: nat)

  function Abs(x: int): nat {
    if x < 0 then -x else x
  }

  ghost predicate Divides(d: int, x: int) {
    exists k: int :: x == k * d
  }

  /** Greatest for divisibility; this covers zero operands, where `IsGcd(0, 0, 0)`. */
  ghost predicate IsGcd(g: nat, a: int, b: int) {
    && Divides(g, a)
    && Divides(g, b)
    && forall d: int :: Divides(d, a) && Divides(d, b) ==> Divides(d, g)
  }

  predicate IsDivision(s: Step) {
    s.a == s.quotient * s.b + s.remainder && s.remainder < s.b
  }

  /** The divisions chain from the operands `(a, b)` to `(x, y)`. */
  ghost predicate Chain(a: nat, b: nat, steps: seq<Step>, x: nat, y: nat) {
    && (forall k :: 0 <= k < |steps| ==> IsDivision(steps[k]))
    && (forall k :: 0 < k < |steps| ==> steps[k].a == steps[k - 1].b && steps[k].b == steps[k - 1].remainder)
    && (if steps == [] then x == a && y == b
        else && steps[0].a == a && steps[0].b == b
             && x == steps[|steps| - 1].b && y == steps[|steps| - 1].remainder)
  }

  // ----- divisibility

  lemma {:induction false} DividesCombination(d: int, x: int, y: int, q: int)
    requires Divides(d, x) && Divides(d, y)
    ensures Divides(d, q * x + y) && Divides(d, y - q * x)
  {
    var i: int :| x == i * d;
    var j: int :| y == j * d;
    Distribute(q, i, j, d);
    assert q * x + y == (q * i + j) * d;
    assert y - q * x == (j - q * i) * d;
  }

  lemma {:induction false} Distribute(q: int, i: int, j: int, d: int)
    ensures q * (i * d) + j * d == (q * i + j) * d
    ensures j * d - q * (i * d) == (j - q * i) * d
  {
  }

  lemma {:induction false} DividesItselfAndZero(d: int)
    ensures Divides(d, d) && Divides(d, 0)
  {
    assert d == 1 * d;
    assert 0 == 0 * d;
  }

  lemma {:induction false} DividesNegated(d: int, x: int)
    ensures Divides(d, -x) <==> Divides(d, x)
  {
    if Divides(d, x) {
      var k: int :| x == k * d;
      assert -x == (-k) * d;
    }
    if Divides(d, -x) {
      var k: int :| -x == k * d;
      assert x == (-k) * d;
    }
  }

  lemma {:induction false} DividesAbs(d: int, x: int)
    ensures Divides(d, Abs(x)) <==> Divides(d, x)
  {
    DividesNegated(d, x);
  }

  /** A division does not change the common divisors. */
  lemma {:induction false} SameDivisors(s: Step, d: int)
    requires IsDivision(s)
    ensures Divides(d, s.a) && Divides(d, s.b) <==> Divides(d, s.b) && Divides(d, s.remainder)
  {
    if Divides(d, s.a) && Divides(d, s.b) {
      DividesCombination(d, s.b, s.a, s.quotient);
      assert s.a - s.quotient * s.b == s.remainder;
    }
    if Divides(d, s.b) && Divides(d, s.remainder) {
      DividesCombination(d, s.b, s.remainder, s.quotient);
    }
  }

  lemma {:induction false} ChainDivisors(a: nat, b: nat, steps: seq<Step>, x: nat, y: nat, d: int)
    requires Chain(a, b, steps, x, y)
    ensures Divides(d, a) && Divides(d, b) <==> Divides(d, x) && Divides(d, y)
    decreases |steps|
  {
    hide Divides, IsDivision;
    if steps == [] {
    } else {
      var k := |steps| - 1;
      ChainDivisors(a, b, steps[..k], steps[k].a, steps[k].b, d);
      SameDivisors(steps[k], d);
    }
  }

  /** A chain that has reached remainder zero has found the greatest common divisor. */
  lemma {:induction false} ChainEndsAtGcd(left: int, right: int, steps: seq<Step>, x: nat)
    requires Chain(Abs(left), Abs(right), steps, x, 0)
    ensures IsGcd(x, left, right)
  {
    hide Chain, Divides;
    forall d: int
      ensures Divides(d, left) && Divides(d, right) <==> Divides(d, x)
    {
      ChainDivisors(Abs(left), Abs(right), steps, x, 0, d);
      DividesAbs(d, left);
      DividesAbs(d, right);
      DividesItselfAndZero(d);
    }
    DividesItselfAndZero(x);
  }

  /** The two operands have one greatest common divisor. */
  lemma {:induction false} GcdUnique(g: nat, h: nat, a: int, b: int)
    requires IsGcd(g, a, b) && IsGcd(h, a, b)
    ensures g == h
  {
    DividesBounds(g, h);
    DividesBounds(h, g);
  }

  lemma {:induction false} DividesBounds(d: nat, x: nat)
    requires Divides(d, x)
    ensures x == 0 || d <= x
    ensures d == 0 ==> x == 0
  {
    var k: int :| x == k * d;
    FactorBound(k, d);
  }

  lemma {:induction false} FactorBound(k: int, d: nat)
    ensures k >= 1 ==> k * d >= d
    ensures k <= 0 ==> k * d <= 0
  {
  }

  // ----- the number of steps

  function Fib(n: nat): nat {
    if n < 2 then n else Fib(n - 1) + Fib(n - 2)
  }

  lemma {:induction false} FibNext(n: nat)
    ensures Fib(n + 2) == Fib(n + 1) + Fib(n)
    ensures Fib(0) == 0 && Fib(1) == 1
  {
  }

  /** A chain is its first division and the chain of what that division leaves. */
  lemma {:induction false} ChainHead(s: Step, rest: seq<Step>, x: nat, y: nat)
    ensures Chain(s.a, s.b, [s] + rest, x, y) <==> IsDivision(s) && Chain(s.b, s.remainder, rest, x, y)
  {
    hide IsDivision;
    var steps := [s] + rest;
    assert forall k :: 0 <= k < |rest| ==> rest[k] == steps[k + 1];
    assert steps[|steps| - 1] == if rest == [] then s else rest[|rest| - 1];
    if Chain(s.a, s.b, steps, x, y) {
      assert IsDivision(steps[0]);
      forall k | 0 <= k < |rest|
        ensures IsDivision(rest[k])
        ensures k > 0 ==> rest[k].a == rest[k - 1].b && rest[k].b == rest[k - 1].remainder
        ensures k == 0 ==> rest[k].a == s.b && rest[k].b == s.remainder
      {
        assert IsDivision(steps[k + 1]);
      }
    }
  }

  lemma {:induction false} ChainSplit(a: nat, b: nat, steps: seq<Step>, g: nat)
    requires Chain(a, b, steps, g, 0)
    ensures b > 0 ==> steps != []
    ensures b == 0 ==> steps == []
    ensures steps != [] ==>
      && steps[0].a == a && steps[0].b == b && IsDivision(steps[0])
      && Chain(b, steps[0].remainder, steps[1..], g, 0)
  {
    if steps != [] {
      assert IsDivision(steps[0]);
      assert [steps[0]] + steps[1..] == steps;
      ChainHead(steps[0], steps[1..], g, 0);
    }
  }

  /** Lamé's bound: `k` divisions need operands as large as consecutive Fibonacci numbers. */
  lemma {:induction false} Lame(a: nat, b: nat, steps: seq<Step>, g: nat)
    requires Chain(a, b, steps, g, 0) && a >= b > 0
    ensures b >= Fib(|steps| + 1)
    ensures a > b ==> a >= Fib(|steps| + 2)
    decreases |steps|
  {
    hide Chain, Fib, IsDivision;
    ChainSplit(a, b, steps, g);
    var s, rest := steps[0], steps[1..];
    QuotientPositive(s);
    FibNext(0);
    FibNext(1);
    FibNext(|rest| + 1);
    if s.remainder == 0 {
      ChainSplit(b, 0, rest, g);
    } else {
      Lame(b, s.remainder, rest, g);
    }
  }

  lemma {:induction false} QuotientPositive(s: Step)
    requires IsDivision(s)
    ensures s.remainder < s.b
    ensures s.a >= s.b ==> s.a >= s.b + s.remainder
    ensures s.a < s.b ==> s.remainder == s.a
  {
    FactorBound(s.quotient, s.b);
  }

  /** When the first operand is the smaller one, the first division only swaps the two. */
  lemma {:induction false} LameSwapped(a: nat, b: nat, steps: seq<Step>, g: nat)
    requires Chain(a, b, steps, g, 0) && 0 < a < b
    ensures a >= Fib(|steps|) && b >= Fib(|steps| + 1)
  {
    hide Chain, Fib;
    ChainSplit(a, b, steps, g);
    QuotientPositive(steps[0]);
    Lame(b, a, steps[1..], g);
  }

  /** The divisions that consecutive Fibonacci numbers need. */
  function FibSteps(k: nat): (steps: seq<Step>)
    requires k > 0
    ensures |steps| == k
  {
    if k == 1 then [Step(2, 1, 2, 0)]
    else [Step(Fib(k + 2), Fib(k + 1), 1, Fib(k))] + FibSteps(k - 1)
  }

  lemma {:induction false} FibPositive(n: nat)
    ensures n > 0 ==> Fib(n) > 0
    ensures n > 2 ==> Fib(n) > Fib(n - 1)
  {
    if n <= 2 {
    } else {
      FibPositive(n - 1);
      FibPositive(n - 2);
    }
  }

  /** The bound is reached for every number of divisions. */
  lemma {:induction false} LameTight(k: nat)
    requires k > 0
    ensures Chain(Fib(k + 2), Fib(k + 1), FibSteps(k), 1, 0)
  {
    hide Chain, Fib;
    FibNext(0);
    FibNext(1);
    var s, rest := FibSteps(k)[0], FibSteps(k)[1..];
    assert [s] + rest == FibSteps(k);
    if k == 1 {
      assert Chain(1, 0, [], 1, 0) by { ChainStarts(1, 0); }
    } else {
      LameTight(k - 1);
      FibPositive(k + 1);
      FibNext(k);
      assert rest == FibSteps(k - 1);
    }
    ChainHead(s, rest, 1, 0);
  }

  // ----- the tool

  lemma {:induction false} ChainExtends(a: nat, b: nat, steps: seq<Step>, s: Step)
    requires Chain(a, b, steps, s.a, s.b) && IsDivision(s)
    ensures Chain(a, b, steps + [s], s.b, s.remainder)
  {
    var longer := steps + [s];
    assert forall k :: 0 <= k < |steps| ==> longer[k] == steps[k];
  }

  method EuclideanGcd(left: int, right: int) returns (trace: GcdTrace)
    ensures trace.left == left && trace.right == right
    ensures Chain(Abs(left), Abs(right), trace.steps, trace.result, 0)
    ensures IsGcd(trace.result, left, right)
    ensures Abs(left) >= Abs(right) > 0 ==> Abs(right) >= Fib(|trace.steps| + 1)
  {
    hide Chain, IsGcd, Fib;
    var a, b := Abs(left), Abs(right);
    var steps := [];
    assert Chain(a, b, steps, a, b) by { ChainStarts(a, b); }
    while b != 0
      invariant Chain(Abs(left), Abs(right), steps, a, b)
      decreases b
    {
      var s := Step(a, b, a / b, a % b);
      ChainExtends(Abs(left), Abs(right), steps, s);
      steps := steps + [s];
      a, b := b, s.remainder;
    }
    ChainEndsAtGcd(left, right, steps, a);
    if Abs(left) >= Abs(right) > 0 {
      Lame(Abs(left), Abs(right), steps, a);
    }
    return GcdTrace(left, right, steps, a);
  }

  lemma {:induction false} ChainStarts(a: nat, b: nat)
    ensures Chain(a, b, [], a, b)
  {
  }
}
