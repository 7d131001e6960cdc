/** Python's round on exact values: to the nearest multiple of 1/scale, ties to even. */
module Rounding {
  import opened RealMath

  const CENTS: real := 100.0

  const THOUSANDTHS: real := 1000.0

  /** round(x): the nearest integer, the even one of two equally near. */
  function RoundHalfEven(x: real): (n: int)
    ensures Abs(n as real - x) <= 0.5
  {
    var f := x.Floor;
    var d := x - f as real;
    if d < 0.5 then f else if d > 0.5 then f + 1 else if f % 2 == 0 then f else f + 1
  }

  /** round(x, digits), scale being ten to the digits. */
  function Rounded(x: real, scale: real): real
    requires scale > 0.0
  {
    RoundHalfEven(Mul(x, scale)) as real / scale
  }

  /** The value has no digits to round away. */
  predicate Exact(x: real, scale: real)
    requires scale > 0.0
  {
    Rounded(x, scale) == x
  }

  lemma Multiple(n: int, scale: real)
    requires scale > 0.0
    ensures Exact(n as real / scale, scale)
  {
    MulQuotient(n as real, scale);
  }

  lemma RoundedIsExact(x: real, scale: real)
    requires scale > 0.0
    ensures Exact(Rounded(x, scale), scale)
  {
    Multiple(RoundHalfEven(Mul(x, scale)), scale);
  }

  /** Sums and differences of rounded values need no rounding. */
  lemma ExactSum(x: real, y: real, scale: real)
    requires scale > 0.0 && Exact(x, scale) && Exact(y, scale)
    ensures Exact(x + y, scale) && Exact(x - y, scale)
  {
    var a, b := RoundHalfEven(Mul(x, scale)), RoundHalfEven(Mul(y, scale));
    QuotientSum(a as real, b as real, scale);
    Multiple(a + b, scale);
    Multiple(a - b, scale);
  }

  /** Rounding moves a value by at most half a unit of the last digit kept. */
  lemma RoundedNear(x: real, scale: real)
    requires scale > 0.0
    ensures Abs(Rounded(x, scale) - x) <= 0.5 / scale
  {
    hide RoundHalfEven;
    var y := Mul(x, scale);
    var n := RoundHalfEven(y) as real;
    QuotientOrder(n - y, 0.5, scale);
    QuotientOrder(-0.5, n - y, scale);
    QuotientSum(n, y, scale);
    QuotientSum(0.0, 0.5, scale);
    QuotientOfProduct(x, scale);
  }

  /** Rounding keeps the order. */
  lemma RoundedMonotone(x: real, y: real, scale: real)
    requires scale > 0.0 && x <= y
    ensures Rounded(x, scale) <= Rounded(y, scale)
  {
    MulOrder(x, y, scale);
    RoundHalfEvenMonotone(Mul(x, scale), Mul(y, scale));
    QuotientOrder(RoundHalfEven(Mul(x, scale)) as real, RoundHalfEven(Mul(y, scale)) as real, scale);
  }

  lemma RoundHalfEvenMonotone(x: real, y: real)
    requires x <= y
    ensures RoundHalfEven(x) <= RoundHalfEven(y)
  {}
}
