/** The bit operators of Python's unbounded integers, in two's complement without end.

    `/` and `%` by a positive number already round down in Dafny, as Python's do. */
module PythonInt {
  function Pow2(n: nat): (p: int)
    ensures p >= 1
  {
    if n == 0 then 1 else 2 * Pow2(n - 1)
  }

  function ShiftLeft(x: int, n: nat): int {
    x * Pow2(n)
  }

  function ShiftRight(x: int, n: nat): int {
    x / Pow2(n)
  }

  function Invert(x: int): int {
    -x - 1
  }

  function And(x: int, y: int): int
    decreases if x >= 0 then x else -x
  {
    if x == 0 then 0
    else if x == -1 then y
    else 2 * And(x / 2, y / 2) + (x % 2) * (y % 2)
  }

  function Or(x: int, y: int): int
    decreases if x >= 0 then x else -x
  {
    if x == 0 then y
    else if x == -1 then -1
    else 2 * Or(x / 2, y / 2) + if x % 2 == 1 || y % 2 == 1 then 1 else 0
  }

  /** `abs(n).bit_length()` */
  function BitLength(n: nat): nat {
    if n == 0 then 0 else 1 + BitLength(n / 2)
  }

  /** Bit `k` of the two's complement of `x`. */
  function Bit(x: int, k: nat): (b: int)
    ensures 0 <= b <= 1
  {
    (x / Pow2(k)) % 2
  }

  // ----- arithmetic of powers of two

  lemma {:induction false} Pow2Adds(m: nat, n: nat)
    ensures Pow2(m + n) == Pow2(m) * Pow2(n)
  {
    if m == 0 {
    } else {
      Pow2Adds(m - 1, n);
    }
  }

  lemma {:induction false} Pow2Monotonic(m: nat, n: nat)
    requires m <= n
    ensures Pow2(m) <= Pow2(n)
  {
    if m == n {
    } else {
      Pow2Monotonic(m, n - 1);
    }
  }

  lemma {:induction false} BitLengthBounds(n: nat)
    ensures n < Pow2(BitLength(n))
    ensures n > 0 ==> Pow2(BitLength(n) - 1) <= n
  {
    if n <= 1 {
    } else {
      BitLengthBounds(n / 2);
    }
  }

  lemma {:induction false} MulMonotonic(a: int, b: int, c: int)
    requires a <= b && c >= 0
    ensures a * c <= b * c
  {
  }

  lemma {:induction false} MulDistributes(a: int, b: int, c: int)
    ensures (a + b) * c == a * c + b * c && c * (a + b) == c * a + c * b
  {
  }

  lemma {:induction false} MulRegroups(a: int, b: int, c: int)
    ensures (a * b) * c == a * (b * c) && a * (b * c) == b * (a * c)
  {
  }

  lemma {:induction false} MulNegates(a: int, b: int)
    ensures (-a) * b == -(a * b) && a * (-b) == -(a * b)
  {
  }

  /** A digit and a rest below the base stay below the bound of the digit. */
  lemma {:induction false} DigitsBelow(high: int, low: int, base: int, bound: int)
    requires 0 <= low < base && 0 <= high < bound
    ensures 0 <= high * base + low < bound * base
  {
    MulMonotonic(high + 1, bound, base);
    MulMonotonic(0, high, base);
  }

  /** Of a number below `bound * base` the quotient is below `bound`. */
  lemma {:induction false} QuotientBelow(x: int, base: int, bound: int)
    requires base >= 1 && 0 <= x < bound * base
    ensures 0 <= x / base < bound
  {
    var h := x / base;
    assert x == base * h + x % base;
    if h >= bound {
      MulMonotonic(bound, h, base);
      assert false;
    }
  }

  /** A quotient and remainder are the only ones. */
  lemma {:induction false} DivisionIs(x: int, d: int, q: int, r: int)
    requires d > 0 && x == q * d + r && 0 <= r < d
    ensures x / d == q && x % d == r
  {
    var e := x / d - q;
    assert x == d * (x / d) + x % d;
    assert e * d == r - x % d by {
      assert e * d == (x / d) * d - q * d;
    }
    assert e >= 1 ==> e * d >= d;
    assert e <= -1 ==> e * d <= -d;
  }

  lemma {:induction false} HalvePow2(x: int, n: nat)
    ensures (x / 2) / Pow2(n) == x / Pow2(n + 1)
    ensures x % Pow2(n + 1) == 2 * ((x / 2) % Pow2(n)) + x % 2
  {
    var p := Pow2(n);
    var h := x / 2;
    var q, r := h / p, h % p;
    assert h == q * p + r;
    assert x == 2 * h + x % 2;
    assert x == q * (2 * p) + (2 * r + x % 2) by {
      assert 2 * (q * p) == q * (2 * p);
    }
    DivisionIs(x, 2 * p, q, 2 * r + x % 2);
  }

  // ----- what the operators compute

  /** Masking keeps the low bits. */
  lemma {:induction false} AndMask(x: int, n: nat)
    ensures And(x, Pow2(n) - 1) == x % Pow2(n)
    decreases n
  {
    if n == 0 {
      AndZero(x);
    } else if x == 0 {
      DivisionIs(0, Pow2(n), 0, 0);
    } else if x == -1 {
      DivisionIs(-1, Pow2(n), -1, Pow2(n) - 1);
    } else {
      HalvePow2(x, n - 1);
      assert (Pow2(n) - 1) / 2 == Pow2(n - 1) - 1;
      AndMask(x / 2, n - 1);
    }
  }

  lemma {:induction false} AndZero(x: int)
    ensures And(x, 0) == 0
    decreases if x >= 0 then x else -x
  {
    if x == 0 || x == -1 {
    } else {
      AndZero(x / 2);
    }
  }

  lemma {:induction false} AndOne(x: int)
    ensures And(x, 1) == x % 2
  {
    AndMask(x, 1);
  }

  /** Testing the top bit of a register compares it with half its range. */
  lemma {:induction false} AndTopBit(v: int, n: nat)
    requires 0 <= v < Pow2(n + 1)
    ensures And(v, Pow2(n)) != 0 <==> v >= Pow2(n)
    decreases n
  {
    if n == 0 {
      AndOne(v);
    } else if v != 0 {
      AndTopBit(v / 2, n - 1);
    }
  }

  /** Joining two registers side by side adds them. */
  lemma {:induction false} OrJoins(x: int, y: int, n: nat)
    requires 0 <= y < Pow2(n)
    ensures Or(x * Pow2(n), y) == x * Pow2(n) + y
    decreases n
  {
    var p := x * Pow2(n);
    if n == 0 {
      OrZero(x);
    } else {
      assert p == 2 * (x * Pow2(n - 1));
      if p != 0 {
        OrJoins(x, y / 2, n - 1);
      }
    }
  }

  lemma {:induction false} OrZero(x: int)
    ensures Or(x, 0) == x
    decreases if x >= 0 then x else -x
  {
    if x == 0 || x == -1 {
    } else {
      OrZero(x / 2);
    }
  }

  /** Setting all bits from `n` up subtracts the range of the register. */
  lemma {:induction false} OrExtendsSign(c: int, n: nat)
    requires 0 <= c < Pow2(n)
    ensures Or(c, -Pow2(n)) == c - Pow2(n)
    decreases n
  {
    if n > 0 && c > 0 {
      assert -Pow2(n) / 2 == -Pow2(n - 1);
      OrExtendsSign(c / 2, n - 1);
    }
  }
}
