/** The two rounding rules the server applies to money and quantities: Python's
    `round` (ties to the even neighbour) and Odoo's `float_round` (ties away from
    zero). Amounts are real numbers; the rounded value is an integer count of the
    smallest unit. */
module Rounding {

  function RoundHalfEven(x: real): (r: int)
    ensures -0.5 <= r as real - x <= 0.5
    ensures (r as real - x == 0.5 || r as real - x == -0.5) ==> r % 2 == 0
  {
    var f := x.Floor;
    var d := x - f as real;
    if d < 0.5 || (d == 0.5 && f % 2 == 0) then f else f + 1
  }

  function RoundHalfUp(x: real): (r: int)
    ensures -0.5 <= r as real - x <= 0.5
    ensures r as real - x == -0.5 ==> x < 0.0
    ensures r as real - x == 0.5 ==> x > 0.0
  {
    if x >= 0.0 then (x + 0.5).Floor else -((-x + 0.5).Floor)
  }

  /** Distance at most one half, with ties going to the even side, pins the result. */
  lemma RoundHalfEvenUnique(x: real, n: int)
    requires -0.5 <= n as real - x <= 0.5
    requires (n as real - x == 0.5 || n as real - x == -0.5) ==> n % 2 == 0
    ensures RoundHalfEven(x) == n
  {
    var r := RoundHalfEven(x);
    assert -1.0 <= (r - n) as real <= 1.0;
  }

  lemma RoundHalfEvenOfInt(n: int)
    ensures RoundHalfEven(n as real) == n
  {
    RoundHalfEvenUnique(n as real, n);
  }

  /** Rounding is symmetric around zero, so a negated total has the negated count. */
  lemma RoundHalfEvenNegates(x: real)
    ensures RoundHalfEven(-x) == -RoundHalfEven(x)
  {
    RoundHalfEvenUnique(-x, -RoundHalfEven(x));
  }

  lemma RoundHalfEvenMonotone(x: real, y: real)
    requires x <= y
    ensures RoundHalfEven(x) <= RoundHalfEven(y)
  {
    assert RoundHalfEven(x) as real - 0.5 <= x <= y <= RoundHalfEven(y) as real + 0.5;
  }

  /** True when `x` lies exactly between two integers. */
  predicate IsTie(x: real) {
    x - x.Floor as real == 0.5
  }

  /** Shifting by a whole number of units commutes with half-even rounding exactly
      when the shift is even or there is no tie to break. */
  lemma RoundHalfEvenShift(x: real, k: int)
    ensures RoundHalfEven(x - k as real) == RoundHalfEven(x) - k <==> (k % 2 == 0 || !IsTie(x))
  {
    var f := x.Floor;
    assert (x - k as real).Floor == f - k;
    assert (x - k as real) - (f - k) as real == x - f as real;
  }
}
