/** Python's `round` on exact numbers: nearest, ties to the even neighbour. */
module Rounding {

  function HalfEven(x: real): (n: int)
    ensures -0.5 <= n as real - x <= 0.5
  {
    var f := x.Floor;
    var d := x - f as real;
    if d < 0.5 then f
    else if d > 0.5 then f + 1
    else if f % 2 == 0 then f
    else f + 1
  }

  /** `n` is nearest to `x`, and even if another integer is as near. */
  predicate NearestEven(x: real, n: int) {
    && -0.5 <= n as real - x <= 0.5
    && (n as real - x == 0.5 || n as real - x == -0.5 ==> n % 2 == 0)
  }

  lemma HalfEvenExactly(x: real, n: int)
    ensures HalfEven(x) == n <==> NearestEven(x, n)
  {
    assert HalfEven(x) != n ==> NearestEven(x, HalfEven(x));
  }

  lemma HalfEvenMonotone(x: real, y: real)
    requires x <= y
    ensures HalfEven(x) <= HalfEven(y)
  {
    assert x.Floor <= y.Floor;
  }

  lemma HalfEvenInteger(k: int)
    ensures HalfEven(k as real) == k
  {
  }

  // Adding an even integer moves every rounding by exactly that integer, ties included.
  lemma HalfEvenShift(x: real, k: int)
    requires k % 2 == 0
    ensures HalfEven(x + k as real) == HalfEven(x) + k
  {
    assert (x + k as real).Floor == x.Floor + k;
  }

  lemma WholeFloor(y: real, n: int)
    requires y == n as real
    ensures y.Floor == n
  {
  }

  /** PostgreSQL's rounding of a NUMERIC: nearest, ties away from zero. */
  function HalfAway(x: real): (n: int)
    ensures -0.5 <= n as real - x <= 0.5
  {
    if x >= 0.0 then (x + 0.5).Floor else -(0.5 - x).Floor
  }

  /** `n` is nearest to `x`, and the one away from zero if another integer is as near. */
  predicate NearestAway(x: real, n: int) {
    && -0.5 <= n as real - x <= 0.5
    && (n as real - x == 0.5 ==> x > 0.0) && (n as real - x == -0.5 ==> x < 0.0)
  }

  lemma HalfAwayExactly(x: real, n: int)
    ensures HalfAway(x) == n <==> NearestAway(x, n)
  {
    assert HalfAway(x) != n ==> NearestAway(x, HalfAway(x));
  }

  function Numeric2(x: real): real {
    HalfAway(x * 100.0) as real / 100.0
  }

  function Numeric3(x: real): real {
    HalfAway(x * 1000.0) as real / 1000.0
  }

  function Round2(x: real): real {
    HalfEven(x * 100.0) as real / 100.0
  }

  function Round3(x: real): real {
    HalfEven(x * 1000.0) as real / 1000.0
  }

  function Round4(x: real): real {
    HalfEven(x * 10000.0) as real / 10000.0
  }
}
