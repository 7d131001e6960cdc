/** Real-number helpers shared by the numeric modules. Floats are modelled as exact reals. */
module RealMath {

  function Abs(x: real): real { if x < 0.0 then -x else x }

  function Min(a: real, b: real): real { if a <= b then a else b }

  function Max(a: real, b: real): real { if a >= b then a else b }

  function Mul(x: real, y: real): real { x * y }

  /** Squares go through Mul so that proofs can hide the product. */
  function Sq(x: real): real { Mul(x, x) }

  lemma MulPositive(x: real, y: real)
    requires x > 0.0 && y > 0.0
    ensures Mul(x, y) > 0.0 && Mul(-x, -y) > 0.0
  {}

  lemma MulNonNegative(x: real, y: real)
    requires x >= 0.0 && y >= 0.0
    ensures Mul(x, y) >= 0.0
  {}

  lemma MulNegated(x: real, y: real)
    ensures Mul(x, -y) == -Mul(x, y) == Mul(-x, y)
  {}

  lemma MulZero(x: real)
    ensures Mul(x, 0.0) == 0.0 == Mul(0.0, x)
  {}

  lemma MulSum(a: real, b: real, c: real)
    ensures Mul(a, b + c) == Mul(a, b) + Mul(a, c)
    ensures Mul(b + c, a) == Mul(b, a) + Mul(c, a)
  {}

  lemma MulSuccessor(k: nat, w: real)
    ensures Mul((k + 1) as real, w) == Mul(k as real, w) + w
    ensures Mul(0.0, w) == 0.0
  {}

  lemma MulOne(w: real)
    ensures Mul(1.0, w) == w == Mul(w, 1.0)
  {}

  lemma MulQuotient(a: real, b: real)
    requires b != 0.0
    ensures Mul(a / b, b) == a
  {}

  lemma QuotientOfProduct(a: real, d: real)
    requires d != 0.0
    ensures Mul(a, d) / d == a
  {}

  lemma QuotientMoves(a: real, b: real, d: real)
    requires d != 0.0
    ensures Mul(a, b) / d == Mul(a, b / d)
  {}

  lemma QuotientSum(a: real, b: real, d: real)
    requires d != 0.0
    ensures a / d + b / d == (a + b) / d && a / d - b / d == (a - b) / d
  {}

  lemma QuotientOrder(a: real, b: real, d: real)
    requires d > 0.0 && a <= b
    ensures a / d <= b / d
  {}

  lemma MulCommutes(a: real, b: real)
    ensures Mul(a, b) == Mul(b, a)
  {}

  lemma MulAssociative(a: real, b: real, c: real)
    ensures Mul(Mul(a, b), c) == Mul(a, Mul(b, c))
  {}

  /** Multiplication by a non-negative factor keeps the order. */
  lemma MulOrder(a: real, b: real, f: real)
    requires a <= b && f >= 0.0
    ensures Mul(a, f) <= Mul(b, f) && Mul(f, a) <= Mul(f, b)
  {
    hide Mul;
    MulNonNegative(b - a, f);
    MulNonNegative(f, b - a);
    MulSum(f, a, b - a);
  }

  lemma SqSign(x: real)
    ensures Sq(x) >= 0.0
    ensures x != 0.0 ==> Sq(x) > 0.0
  {
    hide Mul;
    if x > 0.0 {
      MulPositive(x, x);
    } else if x < 0.0 {
      MulPositive(-x, -x);
    } else {
      MulZero(x);
    }
  }

  lemma SqSum(a: real, b: real)
    ensures Sq(a + b) == Sq(a) + 2.0 * Mul(a, b) + Sq(b)
  {}

  lemma SqStrict(a: real, b: real)
    requires Abs(a) > b >= 0.0
    ensures Sq(a) > Sq(b)
  {
    hide Mul;
    MulOrder(b, Abs(a), b);
    MulPositive(Abs(a) - b, Abs(a));
    MulSum(Abs(a), Abs(a) - b, b);
    MulCommutes(b, Abs(a));
    MulNegated(a, a);
    MulNegated(-a, a);
  }

  lemma SqOrder(a: real, b: real)
    requires b >= 0.0 && Sq(a) <= Sq(b)
    ensures Abs(a) <= b
  {
    hide Sq;
    if Abs(a) > b { SqStrict(a, b); }
  }

  lemma SqOfProduct(a: real, t: real)
    ensures Sq(Mul(a, t)) == Mul(Sq(a), Sq(t))
  {
    assert a * t * (a * t) == a * a * (t * t);
  }

  lemma SqIs(t: real)
    ensures Sq(t) == Mul(t, t)
  {}

  lemma MulIs(a: real, b: real)
    ensures Mul(a, b) == a * b
  {}

  /** `min(high, max(low, x))`, the order of operations of both numpy.clip and _clamp. */
  function Clip(x: real, low: real, high: real): real { Min(high, Max(low, x)) }

  /** Sum of the first k entries. */
  function Total(s: seq<real>, k: nat): real
    requires k <= |s|
  {
    if k == 0 then 0.0 else Total(s, k - 1) + s[k - 1]
  }

  function Sum(s: seq<real>): real { Total(s, |s|) }

  /** Entry by entry. */
  function Added(a: seq<real>, b: seq<real>): (c: seq<real>)
    requires |a| == |b|
    ensures |c| == |a|
  {
    seq(|a|, i requires 0 <= i < |a| => a[i] + b[i])
  }

  /** Inner product of the first k entries. */
  function Dot(a: seq<real>, b: seq<real>, k: nat): real
    requires k <= |a| && k <= |b|
  {
    if k == 0 then 0.0 else Dot(a, b, k - 1) + a[k - 1] * b[k - 1]
  }

  lemma {:induction false} TotalEqual(a: seq<real>, b: seq<real>, k: nat)
    requires k <= |a| && k <= |b| && forall i :: 0 <= i < k ==> a[i] == b[i]
    ensures Total(a, k) == Total(b, k)
  {
    if k > 0 { TotalEqual(a, b, k - 1); }
  }

  lemma SumSnoc(s: seq<real>, x: real)
    ensures Sum(s + [x]) == Sum(s) + x
  {
    TotalEqual(s, s + [x], |s|);
  }

  lemma {:induction false} TotalMonotone(a: seq<real>, b: seq<real>, k: nat)
    requires k <= |a| && k <= |b| && forall i :: 0 <= i < k ==> a[i] <= b[i]
    ensures Total(a, k) <= Total(b, k)
  {
    if k > 0 { TotalMonotone(a, b, k - 1); }
  }

  /** Changing one entry changes the total by the change of that entry. */
  lemma {:induction false} TotalUpdate(s: seq<real>, p: nat, x: real, k: nat)
    requires p < |s| && k <= |s|
    ensures Total(s[p := x], k) == Total(s, k) + (if p < k then x - s[p] else 0.0)
  {
    if k > 0 { TotalUpdate(s, p, x, k - 1); }
  }

  /** Sum of the squares of the first k entries. */
  function SquareSum(a: seq<real>, k: nat): real
    requires k <= |a|
  {
    if k == 0 then 0.0 else SquareSum(a, k - 1) + Sq(a[k - 1])
  }

  lemma {:induction false} SquareSumSign(a: seq<real>, k: nat)
    requires k <= |a|
    ensures SquareSum(a, k) >= 0.0
    ensures forall i :: 0 <= i < k ==> SquareSum(a, k) >= Sq(a[i])
  {
    hide Sq;
    if k > 0 {
      SquareSumSign(a, k - 1);
      SqSign(a[k - 1]);
    }
  }

  lemma {:induction false} DotCommutes(a: seq<real>, b: seq<real>, k: nat)
    requires k <= |a| && k <= |b|
    ensures Dot(a, b, k) == Dot(b, a, k)
  {
    if k > 0 { DotCommutes(a, b, k - 1); }
  }

  /** Cauchy's inequality, on squares. */
  lemma {:induction false} Cauchy(a: seq<real>, b: seq<real>, k: nat)
    requires k <= |a| && k <= |b|
    ensures Sq(Dot(a, b, k)) <= Mul(SquareSum(a, k), SquareSum(b, k))
  {
    hide Mul, Sq;
    if k == 0 {
      assert Sq(0.0) == 0.0 by { SquareOfZero(); }
      MulZero(0.0);
    } else {
      Cauchy(a, b, k - 1);
      SquareSumSign(a, k - 1);
      SquareSumSign(b, k - 1);
      CauchyStep(Dot(a, b, k - 1), SquareSum(a, k - 1), SquareSum(b, k - 1), a[k - 1], b[k - 1]);
      MulIs(a[k - 1], b[k - 1]);
      assert Dot(a, b, k) == Dot(a, b, k - 1) + Mul(a[k - 1], b[k - 1]);
      assert SquareSum(a, k) == SquareSum(a, k - 1) + Sq(a[k - 1]);
      assert SquareSum(b, k) == SquareSum(b, k - 1) + Sq(b[k - 1]);
    }
  }

  lemma SquareOfZero()
    ensures Sq(0.0) == 0.0
  {}

  lemma CauchyStep(p: real, s: real, t: real, u: real, v: real)
    requires s >= 0.0 && t >= 0.0 && Sq(p) <= Mul(s, t)
    ensures Sq(p + Mul(u, v)) <= Mul(s + Sq(u), t + Sq(v))
  {
    hide Mul, Sq;
    // 2 p u v <= s v^2 + t u^2, since the square of the left is at most that of the right
    var left, x, y := 2.0 * Mul(p, Mul(u, v)), Mul(s, Sq(v)), Mul(t, Sq(u));
    SqSign(u);
    SqSign(v);
    MulNonNegative(s, Sq(v));
    MulNonNegative(t, Sq(u));
    MulNonNegative(Sq(u), Sq(v));
    SqOfProduct(p, Mul(u, v));
    SqOfProduct(u, v);
    MulOrder(Sq(p), Mul(s, t), Mul(Sq(u), Sq(v)));
    CrossProducts(s, t, u, v);
    SqDoubled(Mul(p, Mul(u, v)));
    TwiceProduct(x, y);
    SqOrder(left, x + y);
    SqSum(p, Mul(u, v));
    MulSum(t + Sq(v), s, Sq(u));
    MulSum(s, t, Sq(v));
    MulSum(Sq(u), t, Sq(v));
    MulCommutes(Sq(u), t);
  }

  lemma CrossProducts(s: real, t: real, u: real, v: real)
    ensures Mul(Mul(s, t), Mul(Sq(u), Sq(v))) == Mul(Mul(s, Sq(v)), Mul(t, Sq(u)))
  {
    var a, b := Sq(u), Sq(v);
    hide Sq;
    Rearranged(s, t, a, b);
  }

  lemma Rearranged(s: real, t: real, a: real, b: real)
    ensures Mul(Mul(s, t), Mul(a, b)) == Mul(Mul(s, b), Mul(t, a))
  {}

  lemma SqDoubled(a: real)
    ensures Sq(2.0 * a) == 4.0 * Sq(a)
  {}

  lemma TwiceProduct(x: real, y: real)
    ensures 4.0 * Mul(x, y) <= Sq(x + y)
  {
    hide Mul;
    SqSign(x - y);
    SqSum(x, y);
    SqSum(x, -y);
    MulNegated(x, y);
    MulNegated(-y, y);
    MulNegated(y, y);
  }
}
