/** Exact money arithmetic: cent rounding and Python's `int()` truncation, on `real`. */
module Money {

  /** True iff `x` is a whole number of cents. */
  predicate IsCents(x: real) {
    (x * 100.0).Floor as real == x * 100.0
  }

  /** Rounds to two decimals, ties upward. */
  function Round2(x: real): (r: real)
    ensures IsCents(r)
    ensures x - 0.005 < r <= x + 0.005
    ensures x >= 0.0 ==> r >= 0.0
  {
    (x * 100.0 + 0.5).Floor as real / 100.0
  }

  /** Rounding a whole number of cents changes nothing. */
  lemma Round2OfCents(x: real)
    requires IsCents(x)
    ensures Round2(x) == x
  {
    var n := (x * 100.0).Floor;
    assert (x * 100.0 + 0.5).Floor == n;
  }

  /** Rounding preserves order. */
  lemma Round2Monotone(x: real, y: real)
    requires x <= y
    ensures Round2(x) <= Round2(y)
  {
    assert (x * 100.0 + 0.5).Floor <= (y * 100.0 + 0.5).Floor;
  }

  lemma Round2Zero()
    ensures Round2(0.0) == 0.0
  {
    assert (0.0 * 100.0 + 0.5).Floor == 0;
  }

  /** Python's `int()` applied to a float: truncation toward zero. */
  function Trunc(x: real): (n: int)
    ensures 0.0 <= x ==> 0 <= n && n as real <= x < n as real + 1.0
    ensures x < 0.0 ==> n <= 0 && n as real - 1.0 < x <= n as real
  {
    if x >= 0.0 then x.Floor else -((-x).Floor)
  }

  /** For a non-negative quotient, truncation is integer division. */
  lemma TruncOfQuotient(a: int, b: int)
    requires 0 <= a && 0 < b
    ensures Trunc(a as real / b as real) == a / b
  {
    var q, m := a / b, a % b;
    assert a == q * b + m && 0 <= m < b;
    assert a as real / b as real == q as real + m as real / b as real;
    assert 0.0 <= m as real / b as real < 1.0;
  }

  function Min(a: real, b: real): real {
    if a <= b then a else b
  }
}
