/** Python's conversions from a number to an integer, on exact reals. */
module PyNum {

  /** `int(x)` for a float `x`: truncation toward zero. */
  function Trunc(x: real): (n: int)
    ensures 0.0 <= x ==> n as real <= x < n as real + 1.0
    ensures x <= 0.0 ==> n as real - 1.0 < x <= n as real
  {
    if x >= 0.0 then x.Floor else -((-x).Floor)
  }

  /** `round(x)` for a float `x`: the nearest integer, ties going to the even one. */
  function Round(x: real): (n: int)
    ensures n as real - 0.5 <= x <= n as real + 0.5
    ensures x == n as real - 0.5 || x == n as real + 0.5 ==> n % 2 == 0
  {
    var fl := x.Floor;
    var d := x - fl as real;
    if d < 0.5 then fl
    else if d > 0.5 then fl + 1
    else if fl % 2 == 0 then fl
    else fl + 1
  }

  /** The two properties `Round` promises pick out exactly one integer. */
  lemma RoundUnique(x: real, m: int)
    requires m as real - 0.5 <= x <= m as real + 0.5
    requires x == m as real - 0.5 || x == m as real + 0.5 ==> m % 2 == 0
    ensures m == Round(x)
  {
  }

  /** Truncation of a non-negative quotient of integers is integer division. */
  lemma TruncOfQuotient(a: int, b: int)
    requires 0 <= a && 0 < b
    ensures Trunc(a as real / b as real) == a / b
  {
    var q := a / b;
    var qb := q * b;
    assert qb <= a < qb + b;
    ProductAsReal(q, b);
    QuotientBetween(a as real, b as real, q as real);
    assert (a as real / b as real).Floor == q;
  }

  /** Converting a product of integers to a real is the product of the converted factors. */
  lemma ProductAsReal(q: int, b: int)
    ensures (q * b) as real == q as real * b as real
  {
  }

  /** A quotient `a / b` lies in `lo .. lo + 1` when `a` lies in `lo * b .. lo * b + b`. */
  lemma QuotientBetween(a: real, b: real, lo: real)
    requires 0.0 < b && lo * b <= a < lo * b + b
    ensures lo <= a / b < lo + 1.0
  {
    var x := a / b;
    assert x * b == a;
    RealMulLess(x, lo, b);
    RealMulLess(lo + 1.0, x, b);
    assert (lo + 1.0) * b == lo * b + b;
  }

  /** Multiplying by a positive real keeps a strict order. */
  lemma RealMulLess(x: real, y: real, b: real)
    ensures x < y && 0.0 < b ==> x * b < y * b
  {
    if x < y && 0.0 < b {
      assert (y - x) * b > 0.0;
    }
  }
}
