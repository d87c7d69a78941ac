/** Rounding to whole units of a quantum, as Python's `round` and `Decimal.quantize` do it by default. */
module Rounding {
  /** The nearest integer, ties to the even one. */
  function HalfEven(x: real): int {
    var f := x.Floor;
    var rest := x - f as real;
    if rest < 0.5 || (rest == 0.5 && f % 2 == 0) then f else f + 1
  }

  /** The result is the one integer at distance at most one half, even when two are that close. */
  lemma HalfEvenIsNearest(x: real, n: int)
    ensures n == HalfEven(x) <==>
            -0.5 <= n as real - x <= 0.5 && (n as real - x == 0.5 || n as real - x == -0.5 ==> n % 2 == 0)
  {
  }

  lemma HalfEvenMonotone(x: real, y: real)
    requires x <= y
    ensures HalfEven(x) <= HalfEven(y)
  {
  }
}
