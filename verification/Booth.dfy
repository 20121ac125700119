/** Booth multiplication on two's-complement registers, with its trace. */
module Booth {
  import opened PythonInt

  datatype Operation = Keep | Subtract | Add

  datatype Round = Round(
    number: nat, bit: int, previous: int, operation: Operation,
    before: int, afterOperation: int, afterShift: int, multiplierAfterShift: int, nextPrevious: int)

  function ToTwosComplement(value: int, width: nat): int {
    And(value, ShiftLeft(1, width) - 1)
  }

  function Signed(value: int, width: nat): int
    requires width >= 1
  {
    if And(value, ShiftLeft(1, width - 1)) != 0 then value - ShiftLeft(1, width) else value
  }

  predicate IsRegister(r: int, width: nat) {
    0 <= r < Pow2(width)
  }

  predicate InRange(v: int, width: nat)
    requires width >= 1
  {
    -Pow2(width - 1) <= v < Pow2(width - 1)
  }

  // ----- registers and the numbers they stand for

  lemma {:induction false} SignedMeans(r: int, width: nat)
    requires width >= 1 && IsRegister(r, width)
    ensures Signed(r, width) == (if r >= Pow2(width - 1) then r - Pow2(width) else r)
    ensures InRange(Signed(r, width), width)
  {
    AndTopBit(r, width - 1);
  }

  /** Masking a number that is congruent to `v` gives the register that stands for `v`. */
  lemma {:induction false} SignedOf(x: int, v: int, wraps: int, width: nat)
    requires width >= 1 && InRange(v, width) && x == v + wraps * Pow2(width)
    ensures IsRegister(ToTwosComplement(x, width), width)
    ensures Signed(ToTwosComplement(x, width), width) == v
    ensures ToTwosComplement(x, width) == if v >= 0 then v else v + Pow2(width)
  {
    var p := Pow2(width);
    AndMask(x, width);
    if v >= 0 {
      DivisionIs(x, p, wraps, v);
    } else {
      assert x == (wraps - 1) * p + (v + p);
      DivisionIs(x, p, wraps - 1, v + p);
    }
    SignedMeans(ToTwosComplement(x, width), width);
  }

  /** The two conversions undo each other. */
  lemma {:induction false} TwosComplementRoundTrip(v: int, width: nat)
    requires width >= 1 && InRange(v, width)
    ensures Signed(ToTwosComplement(v, width), width) == v
  {
    SignedOf(v, v, 0, width);
  }

  // ----- one arithmetic shift of the joined registers

  /** The three registers side by side, the accumulator's sign extended, moved right by one. */
  function Joined(a: int, q: int, p: int, width: nat): int
    requires width >= 1
  {
    var combined := Or(Or(ShiftLeft(a, width + 1), ShiftLeft(q, 1)), p);
    if And(a, ShiftLeft(1, width - 1)) != 0
    then ShiftRight(Or(combined, Invert(ShiftLeft(1, 2 * width + 1) - 1)), 1)
    else ShiftRight(combined, 1)
  }

  lemma {:induction false} JoinedMeans(a: int, q: int, p: int, width: nat)
    requires width >= 1 && IsRegister(a, width) && IsRegister(q, width) && 0 <= p <= 1
    ensures Joined(a, q, p, width) == Signed(a, width) * Pow2(width) + q
  {
    hide And, Or, Signed;
    var w := Pow2(width);
    var combined := JoinedValue(a, q, p, width);
    SignedMeans(a, width);
    AndTopBit(a, width - 1);
    if a >= Pow2(width - 1) {
      Pow2Adds(width, width + 1);
      DigitsBelow(a, 2 * q + p, 2 * w, w);
      OrExtendsSign(combined, 2 * width + 1);
      SignedShift(a - w, q, p, w);
      MulDistributes(a, -w, 2 * w);
      MulNegates(w, 2 * w);
    } else {
      SignedShift(a, q, p, w);
    }
  }

  lemma {:induction false} JoinedValue(a: int, q: int, p: int, width: nat) returns (combined: int)
    requires width >= 1 && IsRegister(a, width) && IsRegister(q, width) && 0 <= p <= 1
    ensures combined == a * (2 * Pow2(width)) + 2 * q + p
    ensures Or(Or(ShiftLeft(a, width + 1), ShiftLeft(q, 1)), p) == combined
  {
    hide And, Or;
    var w := Pow2(width);
    combined := a * (2 * w) + 2 * q + p;
    OrJoins(a, 2 * q, width + 1);
    OrJoins(a * w + q, p, 1);
    assert (a * w + q) * Pow2(1) == a * (2 * w) + 2 * q;
  }

  lemma {:induction false} SignedShift(s: int, q: int, p: int, w: int)
    requires 0 <= p <= 1
    ensures (s * (2 * w) + 2 * q + p) / 2 == s * w + q
  {
    MulRegroups(s, 2, w);
    DivisionIs(s * (2 * w) + 2 * q + p, 2, s * w + q, p);
  }

  /** What is read back out of the joined registers. */
  lemma {:induction false} SplitJoined(c: int, s: int, q: int, width: nat)
    requires width >= 1 && InRange(s, width) && IsRegister(q, width) && c == s * Pow2(width) + q
    ensures var a := And(ShiftRight(c, width + 1), ShiftLeft(1, width) - 1);
            IsRegister(a, width) && Signed(a, width) == s / 2
    ensures And(ShiftRight(c, 1), ShiftLeft(1, width) - 1) == (s % 2) * Pow2(width - 1) + q / 2
    ensures And(c, 1) == q % 2
  {
    hide And, Or;
    var w := Pow2(width);
    var half := (s % 2) * Pow2(width - 1) + q / 2;
    Halves(c, s, q, Pow2(width - 1));
    SignedOf(s / 2, s / 2, 0, width);
    DivisionIs((s / 2) * w + half, w, s / 2, half);
    AndMask((s / 2) * w + half, width);
    AndOne(c);
  }

  lemma {:induction false} Halves(c: int, s: int, q: int, h: int)
    requires h >= 1 && 0 <= q < 2 * h && c == s * (2 * h) + q
    ensures c / (4 * h) == s / 2
    ensures c / 2 == (s / 2) * (2 * h) + ((s % 2) * h + q / 2)
    ensures c % 2 == q % 2
    ensures 0 <= (s % 2) * h + q / 2 < 2 * h
  {
    var t, u := s / 2, s % 2;
    assert s * (2 * h) == t * (4 * h) + u * (2 * h) by {
      assert s == 2 * t + u;
    }
    assert u == 0 || u == 1;
    DivisionIs(c, 4 * h, t, u * (2 * h) + q);
    var half := u * h + q / 2;
    assert t * (4 * h) == 2 * (t * (2 * h));
    DivisionIs(c, 2, t * (2 * h) + half, q % 2);
  }

  // ----- the loop invariant, in plain arithmetic

  /** The value of the low `k` bits of a register, the last of them with negative weight. */
  function LowValue(r: int, k: nat): int {
    r % Pow2(k) - (if k == 0 then 0 else Bit(r, k - 1) * Pow2(k))
  }

  lemma {:induction false} LowValueStep(r: int, k: nat)
    ensures LowValue(r, k + 1) == LowValue(r, k) + ((if k == 0 then 0 else Bit(r, k - 1)) - Bit(r, k)) * Pow2(k)
    ensures -Pow2(k + 1) <= LowValue(r, k + 1) <= Pow2(k + 1)
    ensures -Pow2(k) <= LowValue(r, k) + ((if k == 0 then 0 else Bit(r, k - 1)) - Bit(r, k)) * Pow2(k) <= Pow2(k)
  {
    var p := Pow2(k);
    var h := r / p;
    assert r == h * p + r % p;
    assert r == (h / 2) * (2 * p) + ((h % 2) * p + r % p) by {
      assert h == 2 * (h / 2) + h % 2;
      assert (2 * (h / 2) + h % 2) * p == (h / 2) * (2 * p) + (h % 2) * p;
    }
    assert 0 <= (h % 2) * p + r % p < 2 * p;
    DivisionIs(r, 2 * p, h / 2, (h % 2) * p + r % p);
  }

  /** After `k` rounds: the accumulator and the top `k` bits of the multiplier register hold
      the product with the low `k` bits, and the rest of the register holds the other bits. */
  ghost predicate Invariant(m: int, r: int, width: nat, k: nat, s: int, q: int, p: int, low: int)
  {
    && k <= width && 0 <= low < Pow2(k)
    && p == (if k == 0 then 0 else Bit(r, k - 1))
    && q == low * Pow2(width - k) + r / Pow2(k)
    && s * Pow2(k) + low == m * LowValue(r, k)
  }

  /** The parts of the register stay in it. */
  lemma {:induction false} RegisterHolds(r: int, width: nat, k: nat, low: int)
    requires IsRegister(r, width) && k <= width && 0 <= low < Pow2(k)
    ensures 0 <= r / Pow2(k) < Pow2(width - k)
    ensures IsRegister(low * Pow2(width - k) + r / Pow2(k), width)
  {
    var p, w := Pow2(k), Pow2(width - k);
    Pow2Adds(k, width - k);
    assert p * w == w * p;
    QuotientBelow(r, p, w);
    DigitsBelow(low, r / p, w, p);
  }

  /** The sum that a round leaves in the accumulator never leaves the range of the operand. */
  lemma {:induction false} NoWrap(m: int, s: int, low: int, p: int, v: int)
    requires p >= 1 && 0 <= low < p && s * p + low == m * v && -p <= v <= p
    ensures var size := if m >= 0 then m else -m; -size <= s <= size
  {
    var size := if m >= 0 then m else -m;
    MulMonotonic(v, p, size);
    MulMonotonic(-p, v, size);
    MulNegates(p, size);
    MulNegates(v, m);
    MulDistributes(size, 1, p);
    MulNegates(size + 1, p);
    if s >= size + 1 {
      MulMonotonic(size + 1, s, p);
    } else if s <= -size - 1 {
      MulMonotonic(s, -(size + 1), p);
    }
  }

  lemma {:induction false} OperationKeeps(m: int, r: int, width: nat, k: nat, s: int, q: int, p: int, low: int)
    requires Invariant(m, r, width, k, s, q, p, low) && k < width && IsRegister(r, width)
    ensures q % 2 == Bit(r, k)
    ensures var after := s + (p - q % 2) * m;
            var size := if m >= 0 then m else -m;
            && after * Pow2(k) + low == m * LowValue(r, k + 1)
            && -size <= after <= size
  {
    hide LowValue;
    var w, x, y := Pow2(width - k - 1), Pow2(k), LowValue(r, k);
    LowBitShows(low, w, r / x, q);
    LowValueStep(r, k);
    OperationSum(m, s, p - q % 2, x, y, low);
    NoWrap(m, s + (p - q % 2) * m, low, x, LowValue(r, k + 1));
  }

  lemma {:induction false} LowBitShows(low: int, w: int, h: int, q: int)
    requires q == low * (2 * w) + h
    ensures q % 2 == h % 2
  {
    MulRegroups(low, 2, w);
  }

  lemma {:induction false} OperationSum(m: int, s: int, d: int, x: int, y: int, low: int)
    requires s * x + low == m * y
    ensures (s + d * m) * x + low == m * (y + d * x)
  {
    MulDistributes(s, d * m, x);
    MulDistributes(y, d * x, m);
    MulRegroups(d, m, x);
  }

  /** The shift moves the low bit of the accumulator into the finished part. */
  lemma {:induction false} ShiftKeeps(m: int, r: int, width: nat, k: nat, after: int, q: int, low: int) returns (next: int)
    requires k < width && IsRegister(r, width) && 0 <= low < Pow2(k)
    requires q == low * Pow2(width - k) + r / Pow2(k)
    requires after * Pow2(k) + low == m * LowValue(r, k + 1)
    requires q % 2 == Bit(r, k)
    ensures Invariant(m, r, width, k + 1, after / 2, (after % 2) * Pow2(width - 1) + q / 2, q % 2, next)
  {
    var p, w := Pow2(k), Pow2(width - k - 1);
    next := low + (after % 2) * p;
    Pow2Adds(k, width - k - 1);
    ShiftedAccumulator(after, p, low);
    ShiftedMultiplier(after % 2, low, p, w, r / p, q);
    QuotientHalves(r, p);
  }

  lemma {:induction false} ShiftedAccumulator(after: int, p: int, low: int)
    requires p >= 1 && 0 <= low < p
    ensures (after / 2) * (2 * p) + (low + (after % 2) * p) == after * p + low
    ensures 0 <= low + (after % 2) * p < 2 * p
  {
    var h, t := after / 2, after % 2;
    assert after * p == h * (2 * p) + t * p by {
      assert after == 2 * h + t;
    }
    assert t == 0 || t == 1;
  }

  lemma {:induction false} ShiftedMultiplier(t: int, low: int, p: int, w: int, h: int, q: int)
    requires q == low * (2 * w) + h
    ensures t * (p * w) + q / 2 == (low + t * p) * w + h / 2
  {
    assert low * (2 * w) == 2 * (low * w);
    assert q / 2 == low * w + h / 2;
    assert (low + t * p) * w == low * w + t * (p * w);
  }

  lemma {:induction false} QuotientHalves(r: int, p: int)
    requires p >= 1
    ensures (r / p) / 2 == r / (2 * p)
  {
    var h := r / p;
    assert r == h * p + r % p;
    assert h == 2 * (h / 2) + h % 2;
    assert (2 * (h / 2) + h % 2) * p == (h / 2) * (2 * p) + (h % 2) * p;
    DivisionIs(r, 2 * p, h / 2, (h % 2) * p + r % p);
  }

  // ----- bits of the multiplier

  lemma {:induction false} RegisterBit(v: int, width: nat, k: nat)
    requires width >= 1 && InRange(v, width) && k < width
    ensures Bit(ToTwosComplement(v, width), k) == Bit(v, k)
  {
    SignedOf(v, v, 0, width);
    if v < 0 {
      Pow2Adds(k, width - k - 1);
      EvenShift(v, Pow2(k), Pow2(width - k - 1));
    }
  }

  /** Adding an even number of blocks changes no bit below. */
  lemma {:induction false} EvenShift(v: int, p: int, w: int)
    requires p >= 1
    ensures ((v + 2 * (p * w)) / p) % 2 == (v / p) % 2
  {
    assert v == (v / p) * p + v % p;
    assert (v / p + 2 * w) * p == (v / p) * p + 2 * (p * w);
    DivisionIs(v + 2 * (p * w), p, v / p + 2 * w, v % p);
  }

  /** The bit below bit `k`; below the lowest there is a zero. */
  function BitBelow(x: int, k: nat): int {
    if k == 0 then 0 else Bit(x, k - 1)
  }

  function OperationOf(bit: int, previous: int): Operation {
    if bit == 1 && previous == 0 then Subtract else if bit == 0 && previous == 1 then Add else Keep
  }

  /** The multiplicand times the value of the multiplier's low `n` bits. */
  function ProductSoFar(m: int, q: int, width: nat, n: nat): int {
    m * LowValue(ToTwosComplement(q, width), n)
  }

  /** The multiplier register after `n` rounds: the low `n` bits of the product so far, and below
      them the bits of the multiplier that have not been looked at. */
  function MultiplierAfter(m: int, q: int, width: nat, n: nat): int
    requires 1 <= width && n <= width
  {
    Signed((ProductSoFar(m, q, width, n) % Pow2(n)) * Pow2(width - n) + ToTwosComplement(q, width) / Pow2(n), width)
  }

  lemma {:induction false} RegistersHold(m: int, q: int, width: nat, n: nat, s: int, register: int, p: int, low: int)
    requires 1 <= width && Invariant(m, ToTwosComplement(q, width), width, n, s, register, p, low)
    ensures s == ProductSoFar(m, q, width, n) / Pow2(n) && Signed(register, width) == MultiplierAfter(m, q, width, n)
  {
    hide LowValue, ToTwosComplement, Signed;
    DivisionIs(ProductSoFar(m, q, width, n), Pow2(n), s, low);
  }

  /** What the trace says about round `k`. The accumulator never wraps: it is the exact
      difference or sum, and it is at most as big as the multiplicand. After the shift the two
      registers hold the product so far and the rest of the multiplier. */
  ghost predicate TrueRound(m: int, q: int, width: nat, k: nat, round: Round) {
    && k < width && round.number == k + 1
    && round.bit == Bit(q, k) && round.previous == BitBelow(q, k)
    && round.operation == OperationOf(round.bit, round.previous)
    && round.afterOperation == (match round.operation
                                case Keep => round.before
                                case Subtract => round.before - m
                                case Add => round.before + m)
    && round.afterShift == round.afterOperation / 2 == ProductSoFar(m, q, width, k + 1) / Pow2(k + 1)
    && round.multiplierAfterShift == MultiplierAfter(m, q, width, k + 1)
    && round.nextPrevious == Bit(q, k)
    && var size := if m >= 0 then m else -m;
       -size <= round.before <= size && -size <= round.afterOperation <= size
  }

  ghost predicate TrueTrace(m: int, q: int, width: nat, rounds: seq<Round>) {
    && (forall k :: 0 <= k < |rounds| ==> TrueRound(m, q, width, k, rounds[k]))
    && (rounds != [] ==> rounds[0].before == 0)
    && (forall k :: 0 < k < |rounds| ==> rounds[k].before == rounds[k - 1].afterShift)
  }

  /** The whole register is the low value of all its bits. */
  lemma {:induction false} FullValue(v: int, width: nat)
    requires width >= 1 && InRange(v, width)
    ensures var r := ToTwosComplement(v, width); LowValue(r, width) == v && r / Pow2(width) == 0
  {
    var r, h := ToTwosComplement(v, width), Pow2(width - 1);
    SignedOf(v, v, 0, width);
    DivisionIs(r, Pow2(width), 0, r);
    if r >= h {
      DivisionIs(r, h, 1, r - h);
    } else {
      DivisionIs(r, h, 0, r);
    }
  }

  /** The double-width register read as a signed number. */
  lemma {:induction false} DoubleWidth(a: int, q: int, width: nat)
    requires width >= 1 && IsRegister(a, width) && IsRegister(q, width)
    ensures Signed(Or(ShiftLeft(a, width), q), 2 * width) == Signed(a, width) * Pow2(width) + q
  {
    hide And, Or, Signed;
    var w, h := Pow2(width), Pow2(width - 1);
    OrJoins(a, q, width);
    DigitsBelow(a, q, w, w);
    Pow2Adds(width, width);
    Pow2Adds(width, width - 1);
    SignedMeans(a, width);
    SignedMeans(a * w + q, 2 * width);
    assert w * h == h * w;
    if a >= h {
      MulMonotonic(h, a, w);
      MulDistributes(a, -w, w);
      MulNegates(w, w);
    } else {
      DigitsBelow(a, q, w, h);
    }
  }

  /** One turn of the loop, on registers: operation, shift, and the invariant afterwards. */
  lemma {:induction false} RoundKeeps(m: int, r: int, width: nat, k: nat, a: int, q: int, p: int, low: int, a1: int)
    returns (next: int)
    requires width >= 1 && k < width && IsRegister(r, width) && IsRegister(a, width) && IsRegister(a1, width)
    requires -Pow2(width - 1) < m < Pow2(width - 1)
    requires Invariant(m, r, width, k, Signed(a, width), q, p, low)
    requires Signed(a1, width) == Signed(a, width) + (p - q % 2) * m
    ensures var c := Joined(a1, q, p, width);
            var mask := ShiftLeft(1, width) - 1;
            var a2 := And(ShiftRight(c, width + 1), mask);
            && IsRegister(a2, width)
            && Signed(a2, width) == Signed(a1, width) / 2
            && Invariant(m, r, width, k + 1, Signed(a2, width), And(ShiftRight(c, 1), mask), And(c, 1), next)
            && IsRegister(And(ShiftRight(c, 1), mask), width)
            && And(c, 1) == Bit(r, k)
  {
    hide And, Or, Joined, LowValue;
    var s1 := Signed(a1, width);
    OperationKeeps(m, r, width, k, Signed(a, width), q, p, low);
    RegisterHolds(r, width, k, low);
    SignedMeans(a1, width);
    JoinedMeans(a1, q, p, width);
    SplitJoined(Joined(a1, q, p, width), s1, q, width);
    next := ShiftKeeps(m, r, width, k, s1, q, low);
    RegisterHolds(r, width, k + 1, next);
  }

  /** Adding or subtracting the multiplicand's register is exact. */
  lemma {:induction false} OperationExact(m: int, a: int, sign: int, width: nat)
    requires width >= 1 && IsRegister(a, width) && -Pow2(width - 1) < m < Pow2(width - 1)
    requires InRange(Signed(a, width) + sign * m, width) && (sign == 1 || sign == -1)
    ensures var a1 := ToTwosComplement(a + sign * ToTwosComplement(m, width), width);
            IsRegister(a1, width) && Signed(a1, width) == Signed(a, width) + sign * m
  {
    hide And;
    SignedMeans(a, width);
    SignedOf(m, m, 0, width);
    var wraps := (if a >= Pow2(width - 1) then 1 else 0) + sign * (if m >= 0 then 0 else 1);
    SignedOf(a + sign * ToTwosComplement(m, width), Signed(a, width) + sign * m, wraps, width);
  }

  // ----- the register loop

  /** The accumulator after the operation of a round. */
  function Operated(a: int, q: int, p: int, register: int, width: nat): int {
    if And(q, 1) == 1 && p == 0 then And(a - register, ShiftLeft(1, width) - 1)
    else if And(q, 1) == 0 && p == 1 then And(a + register, ShiftLeft(1, width) - 1)
    else a
  }

  function RoundOf(k: nat, m: int, a: int, q: int, p: int, width: nat): Round
    requires width >= 1
  {
    var a1 := Operated(a, q, p, ToTwosComplement(m, width), width);
    var c := Joined(a1, q, p, width);
    var mask := ShiftLeft(1, width) - 1;
    Round(k + 1, And(q, 1), p, OperationOf(And(q, 1), p), Signed(a, width), Signed(a1, width),
          Signed(And(ShiftRight(c, width + 1), mask), width), Signed(And(ShiftRight(c, 1), mask), width), And(c, 1))
  }

  predicate FitsWidth(m: int, v: int, width: nat) {
    width >= 1 && -Pow2(width - 1) < m < Pow2(width - 1) && InRange(v, width)
  }

  /** The state of the loop after `k` rounds. */
  ghost predicate LoopState(m: int, v: int, width: nat, k: nat, a: int, q: int, p: int, low: int, rounds: seq<Round>) {
    && FitsWidth(m, v, width)
    && IsRegister(ToTwosComplement(v, width), width) && IsRegister(a, width) && IsRegister(q, width)
    && Invariant(m, ToTwosComplement(v, width), width, k, Signed(a, width), q, p, low)
    && |rounds| == k && TrueTrace(m, v, width, rounds)
    && Signed(a, width) == (if k == 0 then 0 else rounds[k - 1].afterShift)
    && var size := if m >= 0 then m else -m; -size <= Signed(a, width) <= size
  }

  lemma {:induction false} LoopStarts(m: int, v: int, width: nat) returns (low: int)
    requires FitsWidth(m, v, width)
    ensures LoopState(m, v, width, 0, 0, ToTwosComplement(v, width), 0, low, [])
  {
    hide And;
    low := 0;
    SignedOf(v, v, 0, width);
    SignedMeans(0, width);
    EmptyInvariant(m, ToTwosComplement(v, width), width);
  }

  lemma {:induction false} EmptyInvariant(m: int, r: int, width: nat)
    ensures Invariant(m, r, width, 0, 0, r, 0, 0)
  {
    assert r % 1 == 0 && r / 1 == r;
  }

  lemma {:induction false} RoundAppended(m: int, v: int, width: nat, rounds: seq<Round>, round: Round)
    requires TrueTrace(m, v, width, rounds) && TrueRound(m, v, width, |rounds|, round)
    requires round.before == if rounds == [] then 0 else rounds[|rounds| - 1].afterShift
    ensures TrueTrace(m, v, width, rounds + [round])
  {
    hide TrueRound;
  }

  lemma {:induction false} OperatedMeans(m: int, v: int, width: nat, k: nat, a: int, q: int, p: int, low: int, rounds: seq<Round>)
    requires LoopState(m, v, width, k, a, q, p, low, rounds) && k < width
    ensures And(q, 1) == q % 2 == Bit(v, k) && p == BitBelow(v, k)
    ensures var a1 := Operated(a, q, p, ToTwosComplement(m, width), width);
            var size := if m >= 0 then m else -m;
            && IsRegister(a1, width)
            && Signed(a1, width) == Signed(a, width) + (p - q % 2) * m
            && -size <= Signed(a1, width) <= size
  {
    hide And, LowValue, TrueTrace;
    OperationKeeps(m, ToTwosComplement(v, width), width, k, Signed(a, width), q, p, low);
    AndOne(q);
    RegisterBit(v, width, k);
    if k > 0 {
      RegisterBit(v, width, k - 1);
    }
    if q % 2 == 1 && p == 0 {
      OperationExact(m, a, -1, width);
    } else if q % 2 == 0 && p == 1 {
      OperationExact(m, a, 1, width);
    }
  }

  lemma {:induction false} LoopContinues(m: int, v: int, width: nat, k: nat, a: int, q: int, p: int, low: int, rounds: seq<Round>)
    returns (next: int)
    requires LoopState(m, v, width, k, a, q, p, low, rounds) && k < width
    ensures var c := Joined(Operated(a, q, p, ToTwosComplement(m, width), width), q, p, width);
            var mask := ShiftLeft(1, width) - 1;
            LoopState(m, v, width, k + 1, And(ShiftRight(c, width + 1), mask), And(ShiftRight(c, 1), mask), And(c, 1), next,
                      rounds + [RoundOf(k, m, a, q, p, width)])
  {
    hide And, Joined, LowValue, Signed, Operated, Invariant, ToTwosComplement, TrueTrace, Bit, Pow2, ShiftLeft, ShiftRight,
      ProductSoFar, MultiplierAfter;
    var a1 := Operated(a, q, p, ToTwosComplement(m, width), width);
    OperatedMeans(m, v, width, k, a, q, p, low, rounds);
    next := RoundKeeps(m, ToTwosComplement(v, width), width, k, a, q, p, low, a1);
    RegisterBit(v, width, k);
    RegistersHold(m, v, width, k + 1, RoundOf(k, m, a, q, p, width).afterShift,
                  And(ShiftRight(Joined(a1, q, p, width), 1), ShiftLeft(1, width) - 1),
                  And(Joined(a1, q, p, width), 1), next);
    RoundAppended(m, v, width, rounds, RoundOf(k, m, a, q, p, width));
    HalfStays(m, Signed(a1, width));
  }

  lemma {:induction false} HalfStays(m: int, s: int)
    requires var size := if m >= 0 then m else -m; -size <= s <= size
    ensures var size := if m >= 0 then m else -m; -size <= s / 2 <= size
  {
  }

  /** After the last round the joined registers are the product. */
  lemma {:induction false} LoopEnds(m: int, v: int, width: nat, a: int, q: int, p: int, low: int, rounds: seq<Round>)
    requires LoopState(m, v, width, width, a, q, p, low, rounds)
    ensures Signed(Or(ShiftLeft(a, width), q), 2 * width) == m * v
  {
    hide And, Or, LowValue, TrueTrace;
    FullValue(v, width);
    DoubleWidth(a, q, width);
  }

  /** The register loop, for any width that holds both operands. */
  method RunRegisters(multiplicand: int, multiplier: int, width: nat) returns (rounds: seq<Round>, result: int)
    requires FitsWidth(multiplicand, multiplier, width)
    ensures result == multiplicand * multiplier
    ensures |rounds| == width && TrueTrace(multiplicand, multiplier, width, rounds)
  {
    hide And, Or, Joined, Signed, LoopState, TrueTrace;
    var mask := ShiftLeft(1, width) - 1;
    var accumulator := 0;
    var multiplicandRegister := ToTwosComplement(multiplicand, width);
    var multiplierRegister := ToTwosComplement(multiplier, width);
    var previous := 0;
    rounds := [];
    ghost var low := LoopStarts(multiplicand, multiplier, width);
    for k := 0 to width
      invariant LoopState(multiplicand, multiplier, width, k, accumulator, multiplierRegister, previous, low, rounds)
    {
      low := LoopContinues(multiplicand, multiplier, width, k, accumulator, multiplierRegister, previous, low, rounds);
      var bit := And(multiplierRegister, 1);
      var before := Signed(accumulator, width);
      var operation := Keep;
      if bit == 1 && previous == 0 {
        accumulator := And(accumulator - multiplicandRegister, mask);
        operation := Subtract;
      } else if bit == 0 && previous == 1 {
        accumulator := And(accumulator + multiplicandRegister, mask);
        operation := Add;
      }
      var afterOperation := Signed(accumulator, width);
      var combined := Joined(accumulator, multiplierRegister, previous, width);
      var last := previous;
      accumulator := And(ShiftRight(combined, width + 1), mask);
      multiplierRegister := And(ShiftRight(combined, 1), mask);
      previous := And(combined, 1);
      rounds := rounds + [Round(k + 1, bit, last, operation, before, afterOperation, Signed(accumulator, width),
                                Signed(multiplierRegister, width), previous)];
    }
    LoopEnds(multiplicand, multiplier, width, accumulator, multiplierRegister, previous, low, rounds);
    TraceOf(multiplicand, multiplier, width, accumulator, multiplierRegister, previous, low, rounds);
    result := Signed(Or(ShiftLeft(accumulator, width), multiplierRegister), 2 * width);
  }

  lemma {:induction false} TraceOf(m: int, v: int, width: nat, a: int, q: int, p: int, low: int, rounds: seq<Round>)
    requires LoopState(m, v, width, width, a, q, p, low, rounds)
    ensures |rounds| == width && TrueTrace(m, v, width, rounds)
  {
  }

  // ----- recoding

  /** A coefficient of plus or minus one and the power of two it stands before. */
  datatype Term = Term(coefficient: int, power: int)

  function TermAt(magnitude: nat, sign: int, k: nat): seq<Term> {
    match OperationOf(Bit(magnitude, k), BitBelow(magnitude, k))
    case Keep => []
    case Subtract => [Term(-sign, Pow2(k))]
    case Add => [Term(sign, Pow2(k))]
  }

  /** The terms of the bit positions below `n`, the lowest first. */
  function TermsBelow(magnitude: nat, sign: int, n: nat): seq<Term> {
    if n == 0 then [] else TermsBelow(magnitude, sign, n - 1) + TermAt(magnitude, sign, n - 1)
  }

  function Reversed<T>(s: seq<T>): seq<T> {
    if s == [] then [] else Reversed(s[1..]) + [s[0]]
  }

  function SumOf(terms: seq<Term>): int {
    if terms == [] then 0 else SumOf(terms[..|terms| - 1]) + terms[|terms| - 1].coefficient * terms[|terms| - 1].power
  }

  function SignOf(value: int): int {
    if value < 0 then -1 else 1
  }

  function Magnitude(value: int): nat {
    if value < 0 then -value else value
  }

  ghost predicate IsPower(p: int) {
    exists k: nat :: p == Pow2(k)
  }

  /** From high to low: powers of two that fall strictly, signs that alternate, and a first
      term with the sign of the value. */
  ghost predicate IsRecoding(terms: seq<Term>, sign: int) {
    && (forall i :: 0 <= i < |terms| ==> terms[i].coefficient == if i % 2 == 0 then sign else -sign)
    && (forall i :: 0 <= i < |terms| ==> IsPower(terms[i].power))
    && (forall i, j :: 0 <= i < j < |terms| ==> terms[i].power > terms[j].power)
  }

  method BoothTerms(value: int) returns (terms: seq<Term>)
    ensures terms == Reversed(TermsBelow(Magnitude(value), SignOf(value), BitLength(Magnitude(value)) + 1))
  {
    hide Bit, BitLength, TermsBelow, BitBelow, Reversed;
    if value == 0 {
      ZeroHasNoTerms();
      return [];
    }
    var sign := if value < 0 then -1 else 1;
    var magnitude: nat := if value < 0 then -value else value;
    terms := [];
    var previous := 0;
    NoTermsYet(magnitude, sign);
    for index := 0 to BitLength(magnitude) + 1
      invariant terms == TermsBelow(magnitude, sign, index)
      invariant previous == BitBelow(magnitude, index)
    {
      var current := Bit(magnitude, index);
      NextTerm(magnitude, sign, index);
      if previous == 0 && current == 1 {
        terms := terms + [Term(-sign, Pow2(index))];
      } else if previous == 1 && current == 0 {
        terms := terms + [Term(sign, Pow2(index))];
      }
      previous := current;
    }
    terms := Reversed(terms);
  }

  lemma {:induction false} NoTermsYet(magnitude: nat, sign: int)
    ensures TermsBelow(magnitude, sign, 0) == [] && BitBelow(magnitude, 0) == 0
  {
  }

  lemma {:induction false} NextTerm(magnitude: nat, sign: int, k: nat)
    ensures TermsBelow(magnitude, sign, k + 1) == TermsBelow(magnitude, sign, k) + TermAt(magnitude, sign, k)
    ensures BitBelow(magnitude, k + 1) == Bit(magnitude, k)
  {
    hide Bit;
  }

  lemma {:induction false} ZeroHasNoTerms()
    ensures Reversed(TermsBelow(0, 1, BitLength(0) + 1)) == []
  {
    assert TermAt(0, 1, 0) == [];
    assert TermsBelow(0, 1, 0) == [];
  }

  lemma {:induction false} ReversedAt<T>(s: seq<T>)
    ensures |Reversed(s)| == |s|
    ensures forall k :: 0 <= k < |s| ==> Reversed(s)[k] == s[|s| - 1 - k]
  {
    if s == [] {
    } else {
      ReversedAt(s[1..]);
    }
  }

  ghost predicate IsPowerBelow(p: int, n: nat) {
    exists k :: 0 <= k < n && p == Pow2(k)
  }

  lemma {:induction false} PowerBelow(p: int, n: nat)
    ensures IsPowerBelow(p, n) ==> p < Pow2(n) && IsPowerBelow(p, n + 1)
    ensures IsPowerBelow(Pow2(n), n + 1)
  {
    if IsPowerBelow(p, n) {
      var k :| 0 <= k < n && p == Pow2(k);
      Pow2Monotonic(k + 1, n);
    }
  }

  /** Low to high, below position `n`: powers rise and signs alternate; the last sign tells
      the bit below `n`. */
  ghost predicate RisingTerms(terms: seq<Term>, sign: int, n: nat, below: int) {
    && (forall i :: 0 <= i < |terms| ==> IsPowerBelow(terms[i].power, n))
    && (forall i, j :: 0 <= i < j < |terms| ==> terms[i].power < terms[j].power)
    && (forall i :: 0 <= i < |terms| ==> terms[i].coefficient == if i % 2 == 0 then -sign else sign)
    && (below == 1 <==> |terms| % 2 == 1)
  }

  lemma {:induction false} TermsRise(magnitude: nat, sign: int, n: nat)
    ensures RisingTerms(TermsBelow(magnitude, sign, n), sign, n, BitBelow(magnitude, n))
  {
    hide Bit;
    if n == 0 {
    } else {
      TermsRise(magnitude, sign, n - 1);
      TermAppended(magnitude, sign, n - 1, TermsBelow(magnitude, sign, n - 1));
    }
  }

  lemma {:induction false} TermAppended(magnitude: nat, sign: int, k: nat, terms: seq<Term>)
    requires RisingTerms(terms, sign, k, BitBelow(magnitude, k))
    ensures RisingTerms(terms + TermAt(magnitude, sign, k), sign, k + 1, BitBelow(magnitude, k + 1))
  {
    hide Bit, IsPowerBelow;
    var all := terms + TermAt(magnitude, sign, k);
    PowerBelow(0, k);
    forall i | 0 <= i < |terms|
      ensures terms[i].power < Pow2(k) && IsPowerBelow(terms[i].power, k + 1)
    {
      PowerBelow(terms[i].power, k);
    }
  }

  lemma {:induction false} SumAppend(terms: seq<Term>, more: seq<Term>)
    requires |more| <= 1
    ensures SumOf(terms + more) == SumOf(terms) + SumOf(more)
  {
    if more == [] {
      assert terms + more == terms;
    } else {
      assert (terms + more)[..|terms|] == terms;
      assert more[..0] == [];
    }
  }

  /** The terms below position `n` add up to the value of the low bits. */
  lemma {:induction false} TermsSum(magnitude: nat, sign: int, n: nat)
    ensures SumOf(TermsBelow(magnitude, sign, n)) == sign * LowValue(magnitude, n)
  {
    hide Bit, LowValue, Pow2, SumOf, TermAt;
    if n == 0 {
      NoTerms(magnitude, sign);
    } else {
      var k := n - 1;
      TermsSum(magnitude, sign, k);
      assert |TermAt(magnitude, sign, k)| <= 1 by {
        OneTerm(magnitude, sign, k);
      }
      SumAppend(TermsBelow(magnitude, sign, k), TermAt(magnitude, sign, k));
      LowValueStep(magnitude, k);
      TermValue(magnitude, sign, k);
    }
  }

  lemma {:induction false} NoTerms(magnitude: nat, sign: int)
    ensures SumOf([]) == 0 == sign * LowValue(magnitude, 0)
  {
    assert magnitude % 1 == 0;
  }

  lemma {:induction false} OneTerm(magnitude: nat, sign: int, k: nat)
    ensures |TermAt(magnitude, sign, k)| <= 1
  {
  }

  lemma {:induction false} TermValue(magnitude: nat, sign: int, k: nat)
    ensures SumOf(TermAt(magnitude, sign, k)) == sign * ((BitBelow(magnitude, k) - Bit(magnitude, k)) * Pow2(k))
    ensures sign * (LowValue(magnitude, k) + (BitBelow(magnitude, k) - Bit(magnitude, k)) * Pow2(k)) ==
              sign * LowValue(magnitude, k) + SumOf(TermAt(magnitude, sign, k))
  {
    hide Bit, LowValue, Pow2;
    var t := TermAt(magnitude, sign, k);
    if t != [] {
      assert t[..0] == [];
      assert SumOf(t) == t[0].coefficient * t[0].power;
    }
  }

  lemma {:induction false} SumReversed(terms: seq<Term>)
    ensures SumOf(Reversed(terms)) == SumOf(terms)
    decreases |terms|
  {
    if terms == [] {
    } else {
      var rest := terms[1..];
      SumReversed(rest);
      SumAppend(Reversed(rest), [terms[0]]);
      SumPrepend(terms[0], rest);
      assert [terms[0]] + rest == terms;
      assert [terms[0]][..0] == [];
    }
  }

  lemma {:induction false} SumPrepend(term: Term, terms: seq<Term>)
    ensures SumOf([term] + terms) == term.coefficient * term.power + SumOf(terms)
  {
    if terms == [] {
      assert [term] + terms == [term];
      assert [term][..0] == [];
    } else {
      var k := |terms| - 1;
      SumPrepend(term, terms[..k]);
      assert ([term] + terms)[..k + 1] == [term] + terms[..k];
    }
  }

  /** All the bits of a number, and one zero more, have its value. */
  lemma {:induction false} AllBits(magnitude: nat)
    ensures var n := BitLength(magnitude) + 1; LowValue(magnitude, n) == magnitude && BitBelow(magnitude, n) == 0
  {
    hide BitLength;
    var n := BitLength(magnitude);
    BitLengthBounds(magnitude);
    DivisionIs(magnitude, Pow2(n), 0, magnitude);
    DivisionIs(magnitude, Pow2(n + 1), 0, magnitude);
  }

  /** For every integer the recoding adds up to it, with falling powers of two and
      alternating signs. */
  lemma {:induction false} RecodingIsExact(value: int)
    ensures var terms := Reversed(TermsBelow(Magnitude(value), SignOf(value), BitLength(Magnitude(value)) + 1));
            SumOf(terms) == value && IsRecoding(terms, SignOf(value))
  {
    hide BitLength, Bit, LowValue, TermsBelow, SumOf, Reversed, IsRecoding, RisingTerms;
    var magnitude, sign := Magnitude(value), SignOf(value);
    var n := BitLength(magnitude) + 1;
    var low := TermsBelow(magnitude, sign, n);
    AllBits(magnitude);
    TermsSum(magnitude, sign, n);
    SumReversed(low);
    TermsRise(magnitude, sign, n);
    RisingReversed(low, sign, n);
  }

  lemma {:induction false} RisingReversed(low: seq<Term>, sign: int, n: nat)
    requires RisingTerms(low, sign, n, 0)
    ensures IsRecoding(Reversed(low), sign)
  {
    hide IsPower, IsPowerBelow, Reversed;
    ReversedAt(low);
    var terms := Reversed(low);
    forall i | 0 <= i < |terms|
      ensures IsPower(terms[i].power)
    {
      PowerIsPower(low[|low| - 1 - i].power, n);
    }
  }

  lemma {:induction false} PowerIsPower(p: int, n: nat)
    requires IsPowerBelow(p, n)
    ensures IsPower(p)
  {
  }

  function PartialProducts(terms: seq<Term>, m: int): (products: seq<int>)
    ensures |products| == |terms|
  {
    seq(|terms|, k requires 0 <= k < |terms| => terms[k].coefficient * terms[k].power * m)
  }

  function Total(values: seq<int>): int {
    if values == [] then 0 else Total(values[..|values| - 1]) + values[|values| - 1]
  }

  /** The partial products add up to the product. */
  lemma {:induction false} PartialProductsSum(terms: seq<Term>, m: int)
    ensures Total(PartialProducts(terms, m)) == SumOf(terms) * m
  {
    if terms == [] {
    } else {
      var k := |terms| - 1;
      PartialProductsSum(terms[..k], m);
      assert PartialProducts(terms, m)[..k] == PartialProducts(terms[..k], m);
      assert (SumOf(terms[..k]) + terms[k].coefficient * terms[k].power) * m ==
             SumOf(terms[..k]) * m + terms[k].coefficient * terms[k].power * m;
    }
  }

  // ----- recoding and registers

  /** The adding and subtracting rounds of a trace, as terms, the first round first. */
  function Acting(rounds: seq<Round>): seq<Term> {
    if rounds == [] then []
    else
      var last := rounds[|rounds| - 1];
      Acting(rounds[..|rounds| - 1]) +
      match last.operation
      case Keep => []
      case Subtract => [Term(-1, Pow2(|rounds| - 1))]
      case Add => [Term(1, Pow2(|rounds| - 1))]
  }

  lemma {:induction false} ActingAreTerms(m: int, q: nat, width: nat, rounds: seq<Round>)
    requires TrueTrace(m, q, width, rounds)
    ensures Acting(rounds) == TermsBelow(q, 1, |rounds|)
  {
    hide Bit;
    if rounds == [] {
    } else {
      var k := |rounds| - 1;
      ActingAreTerms(m, q, width, rounds[..k]);
      assert TrueRound(m, q, width, k, rounds[k]);
    }
  }

  /** Above its top bit a number has no terms but the one that ends its last run of ones. */
  lemma {:induction false} NoTermsAbove(q: nat, n: nat)
    requires n > BitLength(q)
    ensures TermsBelow(q, 1, n) == TermsBelow(q, 1, BitLength(q) + 1)
    decreases n
  {
    hide Bit, BitLength;
    if n == BitLength(q) + 1 {
    } else {
      NoTermsAbove(q, n - 1);
      BitAbove(q, n - 1);
      BitAbove(q, n - 2);
    }
  }

  lemma {:induction false} BitAbove(q: nat, k: nat)
    requires k >= BitLength(q)
    ensures Bit(q, k) == 0
  {
    BitLengthBounds(q);
    Pow2Monotonic(BitLength(q), k);
    DivisionIs(q, Pow2(k), 0, q);
  }

  /** For a multiplier that is not negative, the recoding lists exactly the rounds that add
      or subtract, the last round first. */
  lemma {:induction false} RecodingIsTheTrace(m: int, q: nat, width: nat, rounds: seq<Round>)
    requires TrueTrace(m, q, width, rounds) && |rounds| > BitLength(q)
    ensures Reversed(Acting(rounds)) == Reversed(TermsBelow(q, 1, BitLength(q) + 1))
  {
    ActingAreTerms(m, q, width, rounds);
    NoTermsAbove(q, |rounds|);
  }

  // ----- the tool

  datatype BoothError = OutOfRange
  datatype Outcome<+T> = Success(value: T) | Failure(error: BoothError)

  datatype BoothTrace = BoothTrace(
    width: nat, terms: seq<Term>, partialProducts: seq<int>, rounds: seq<Round>, result: int)

  function Max(a: nat, b: nat): nat {
    if a >= b then a else b
  }

  function WidthOf(m: int, q: int): nat {
    Max(Max(BitLength(Magnitude(m)), BitLength(Magnitude(q))), 1) + 1
  }

  /** The least width from two up that leaves a bit for the sign. */
  predicate IsLeastWidth(width: nat, a: nat, b: nat) {
    width >= 2 && width > a && width > b && (width == 2 || width == a + 1 || width == b + 1)
  }

  lemma {:induction false} WidthFits(m: int, q: int)
    ensures FitsWidth(m, q, WidthOf(m, q))
    ensures WidthOf(m, q) > BitLength(Magnitude(q))
  {
    hide BitLength;
    var width := WidthOf(m, q);
    BitLengthBounds(Magnitude(m));
    BitLengthBounds(Magnitude(q));
    Pow2Monotonic(BitLength(Magnitude(m)), width - 1);
    Pow2Monotonic(BitLength(Magnitude(q)), width - 1);
  }

  /** The tool: refused above 62 bits, and otherwise the product with a true trace. The check
      of the result against the product never fails. */
  method BoothMultiply(multiplicand: int, multiplier: int) returns (outcome: Outcome<BoothTrace>)
    ensures outcome.Failure? <==> BitLength(Magnitude(multiplicand)) > 62 || BitLength(Magnitude(multiplier)) > 62
    ensures outcome.Success? ==>
      var trace := outcome.value;
      && trace.result == multiplicand * multiplier
      && trace.width == WidthOf(multiplicand, multiplier)
      && IsLeastWidth(trace.width, BitLength(Magnitude(multiplicand)), BitLength(Magnitude(multiplier)))
      && |trace.rounds| == trace.width && TrueTrace(multiplicand, multiplier, trace.width, trace.rounds)
      && SumOf(trace.terms) == multiplier && IsRecoding(trace.terms, SignOf(multiplier))
      && Total(trace.partialProducts) == trace.result
      && (multiplier >= 0 ==> trace.terms == Reversed(Acting(trace.rounds)))
  {
    hide TrueTrace, IsRecoding, SumOf, Total, Reversed, Acting, BitLength, TermsBelow;
    if BitLength(Magnitude(multiplicand)) > 62 || BitLength(Magnitude(multiplier)) > 62 {
      return Failure(OutOfRange);
    }
    var width := WidthOf(multiplicand, multiplier);
    WidthFits(multiplicand, multiplier);
    var rounds, result := RunRegisters(multiplicand, multiplier, width);
    if result != multiplicand * multiplier {
      assert false;
    }
    var terms := BoothTerms(multiplier);
    RecodingIsExact(multiplier);
    PartialProductsSum(terms, multiplicand);
    assert multiplier * multiplicand == multiplicand * multiplier;
    if multiplier >= 0 {
      RecodingIsTheTrace(multiplicand, multiplier, width, rounds);
    }
    return Success(BoothTrace(width, terms, PartialProducts(terms, multiplicand), rounds, result));
  }
}
