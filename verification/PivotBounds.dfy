/** A condition on the input under which no pivot of the elimination is floored, so that the answer is the
    one solution: the system is coercive. And an input on which a floored pivot spoils the answer. */
module PivotBounds {
  import opened RealMath
  import opened LinearSolver

  /** The coefficients applied to v, the right-hand sides left aside. */
  function Image(rows: seq<Row>, v: seq<real>): (w: seq<real>)
    requires Shape(rows, |v|)
    ensures |w| == |v|
  {
    seq(|v|, i requires 0 <= i < |v| => Dot(rows[i], v, |v|))
  }

  /** The quadratic form of the coefficients is at least lambda times the square norm. */
  ghost predicate Coercive(rows: seq<Row>, lambda: real)
    requires Shape(rows, |rows|)
  {
    forall v: seq<real> :: |v| == |rows| ==> CoerciveAt(rows, lambda, v)
  }

  ghost predicate CoerciveAt(rows: seq<Row>, lambda: real, v: seq<real>)
    requires Shape(rows, |v|)
  {
    Mul(lambda, SquareSum(v, |v|)) <= Dot(v, Image(rows, v), |v|)
  }

  // ---------------------------------------------------------------------------------------
  // Values of the rows at a point, back through the stages
  // ---------------------------------------------------------------------------------------

  /** The first k rows vanish at x, and no row exceeds the bound. */
  ghost predicate SmallFrom(rows: seq<Row>, x: seq<real>, bound: real, k: nat)
    requires Shape(rows, |x|) && k <= |x|
  {
    && (forall i :: 0 <= i < k ==> Dot(rows[i], x, |x|) == 0.0)
    && (forall i :: 0 <= i < |x| ==> Abs(Dot(rows[i], x, |x|)) <= bound)
  }

  /** A stage that was not floored does not change the values, up to the row swap, where its pivot row
      vanishes. */
  lemma StageValues(s: Progress, p: nat, x: seq<real>, bound: real)
    requires p < |s.rows| == |x| && Shape(s.rows, |x|) && !TooSmall(Swapped(s.rows, p)[p][p])
    requires SmallFrom(Stage(s, p).rows, x, bound, p + 1)
    ensures SmallFrom(s.rows, x, bound, p)
  {
    hide Dot, PivotRow;
    var n := |x|;
    var a := Swapped(s.rows, p);
    var b := Normalised(a, p);
    var c := Stage(s, p).rows;
    var best := PivotRow(s.rows, p, n);
    var d := a[p][p];
    assert c[p] == b[p] == Divided(a[p], d);
    DotDivided(a[p], d, b[p], x, n);
    assert Dot(a[p], x, n) == 0.0;
    forall i | 0 <= i < n && i != p ensures Dot(c[i], x, n) == Dot(a[i], x, n) {
      DotMinus(a[i], a[i][p], b[p], c[i], x, n);
    }
    SwappedValues(s.rows, p, best, x, bound);
  }

  lemma SwappedValues(rows: seq<Row>, p: nat, best: nat, x: seq<real>, bound: real)
    requires p < |rows| == |x| && Shape(rows, |x|) && best == PivotRow(rows, p, |x|)
    requires SmallFrom(Swapped(rows, p), x, bound, p)
    ensures SmallFrom(rows, x, bound, p)
  {
    hide Dot, PivotRow;
    var a := Swapped(rows, p);
    assert forall i :: 0 <= i < p ==> a[i] == rows[i];
    assert a[p] == rows[best] && a[best] == rows[p];
    assert forall i :: 0 <= i < |x| && i != p && i != best ==> a[i] == rows[i];
  }

  lemma {:induction false} ValuesAtStart(rows: seq<Row>, k: nat, x: seq<real>, bound: real)
    requires Shape(rows, |rows|) && k <= |rows| == |x| && Eliminated(rows, k).floored == {}
    requires SmallFrom(Eliminated(rows, k).rows, x, bound, k)
    ensures SmallFrom(rows, x, bound, 0)
  {
    hide Stage, SmallFrom;
    if k == 0 {
      assert Eliminated(rows, 0) == Progress(rows, {});
    } else {
      var s := Eliminated(rows, k - 1);
      StageFloors(s, k - 1);
      StageValues(s, k - 1, x, bound);
      ValuesAtStart(rows, k - 1, x, bound);
    }
  }

  /** A stage floors its own pivot at most. */
  lemma StageFloors(s: Progress, p: nat)
    requires p < |s.rows| && Shape(s.rows, |s.rows|)
    ensures Stage(s, p).floored == {} ==> s.floored == {} && !TooSmall(Swapped(s.rows, p)[p][p])
  {
    assert TooSmall(Swapped(s.rows, p)[p][p]) ==> p in Stage(s, p).floored;
  }

  // ---------------------------------------------------------------------------------------
  // The point at which only the candidates of a column show
  // ---------------------------------------------------------------------------------------

  /** Solves the first p rows for a unit in column p. */
  function Probe(rows: seq<Row>, p: nat): (x: seq<real>)
    requires p < |rows| && Shape(rows, |rows|)
    ensures |x| == |rows| && x[p] == 1.0
  {
    seq(|rows|, j requires 0 <= j < |rows| => if j < p then -rows[j][p] else if j == p then 1.0 else 0.0)
  }

  lemma {:induction false} ProbeDot(rows: seq<Row>, p: nat, i: nat, k: nat)
    requires p < |rows| && i < |rows| && k <= |rows| && Shape(rows, |rows|) && UnitColumns(rows, p)
    ensures Dot(rows[i], Probe(rows, p), k) ==
            (if i < k && i < p then -rows[i][p] else 0.0) + (if p < k then rows[i][p] else 0.0)
  {
    if k > 0 {
      ProbeDot(rows, p, i, k - 1);
      var j := k - 1;
      if j < p { assert UnitAt(rows, i, j); }
    }
  }

  /** At the probe the first p rows vanish and the others show their entry in column p. */
  lemma ProbeIsSmall(rows: seq<Row>, p: nat)
    requires p < |rows| && Shape(rows, |rows|) && UnitColumns(rows, p)
    ensures SmallFrom(rows, Probe(rows, p), Abs(rows[PivotRow(rows, p, |rows|)][p]), p)
  {
    hide Dot, UnitColumns;
    var n := |rows|;
    forall i | 0 <= i < n
      ensures Dot(rows[i], Probe(rows, p), n) == if i < p then 0.0 else rows[i][p]
      ensures i >= p ==> Abs(rows[i][p]) <= Abs(rows[PivotRow(rows, p, n)][p])
    {
      ProbeDot(rows, p, i, n);
      if i >= p { PivotRowIsLargest(rows, p, n, i); }
    }
  }

  // ---------------------------------------------------------------------------------------
  // Coercive systems
  // ---------------------------------------------------------------------------------------

  lemma {:induction false} BoundedSquares(w: seq<real>, bound: real, k: nat)
    requires k <= |w| && forall i :: 0 <= i < |w| ==> Abs(w[i]) <= bound
    ensures SquareSum(w, k) <= Mul(k as real, Sq(bound))
  {
    hide Sq, Mul;
    if k == 0 {
      MulZero(Sq(bound));
    } else {
      BoundedSquares(w, bound, k - 1);
      SqMonotone(w[k - 1], bound);
      MulSuccessor(k - 1, Sq(bound));
    }
  }

  lemma SqMonotone(a: real, b: real)
    requires Abs(a) <= b
    ensures Sq(a) <= Sq(b)
  {
    hide Mul;
    MulOrder(Abs(a), b, Abs(a));
    MulOrder(Abs(a), b, b);
    MulNegated(a, a);
    MulNegated(-a, a);
    MulCommutes(Abs(a), b);
  }

  /** A point with a unit entry and a small image bounds lambda. */
  lemma SmallImageBoundsLambda(rows: seq<Row>, lambda: real, x: seq<real>, p: nat, bound: real)
    requires Shape(rows, |rows|) && p < |rows| == |x| && x[p] == 1.0 && lambda >= 0.0 && CoerciveAt(rows, lambda, x)
    requires SmallFrom(rows, x, bound, 0)
    ensures Sq(lambda) <= Mul(|rows| as real, Sq(bound))
  {
    hide Mul, Sq, Dot, SquareSum;
    var n := |x|;
    var w := Image(rows, x);
    var norm := SquareSum(x, n);
    SquareSumSign(x, n);
    assert norm >= Sq(x[p]);
    MulOne(1.0);
    assert Sq(1.0) == 1.0 by { SqOne(); }
    BoundedSquares(w, bound, n);
    Cauchy(x, w, n);
    MulOrder(SquareSum(w, n), Mul(n as real, Sq(bound)), norm);
    MulNonNegative(lambda, norm);
    SqMonotone(Mul(lambda, norm), Dot(x, w, n));
    SqOfProduct(lambda, norm);
    SqIs(norm);
    MulAssociative(Sq(lambda), norm, norm);
    CancelNorm(Mul(Sq(lambda), norm), Mul(n as real, Sq(bound)), norm);
    SqSign(lambda);
    MulOrder(1.0, norm, Sq(lambda));
    MulOne(Sq(lambda));
  }

  lemma SqOne()
    ensures Sq(1.0) == 1.0
  {}

  lemma CancelNorm(a: real, b: real, norm: real)
    requires norm > 0.0 && Mul(a, norm) <= Mul(norm, b)
    ensures a <= b
  {
    hide Mul;
    if a > b {
      MulPositive(a - b, norm);
      MulSum(norm, a - b, b);
      MulCommutes(norm, b);
    }
  }

  /** Every pivot chosen in a coercive system is at least lambda over the root of the size, as long as no
      earlier one was floored. */
  lemma PivotIsLarge(rows: seq<Row>, lambda: real, p: nat)
    requires Shape(rows, |rows|) && p < |rows| && lambda >= 0.0 && Coercive(rows, lambda)
    requires Eliminated(rows, p).floored == {}
    ensures Sq(lambda) <= Mul(|rows| as real, Sq(Swapped(Eliminated(rows, p).rows, p)[p][p]))
  {
    hide Mul, Sq, Dot, SquareSum, Eliminated, UnitColumns, SmallFrom, CoerciveAt;
    var e := Eliminated(rows, p).rows;
    var x := Probe(e, p);
    var pivot := e[PivotRow(e, p, |e|)][p];
    EliminatedUnit(rows, p);
    ProbeIsSmall(e, p);
    ValuesAtStart(rows, p, x, Abs(pivot));
    assert CoerciveAt(rows, lambda, x);
    SmallImageBoundsLambda(rows, lambda, x, p, Abs(pivot));
    SqAbs(pivot);
  }

  lemma SqAbs(a: real)
    ensures Sq(Abs(a)) == Sq(a)
  {}

  /** A system whose lambda is large enough never has a pivot floored. */
  lemma {:induction false} NoneFloored(rows: seq<Row>, lambda: real, k: nat)
    requires Shape(rows, |rows|) && k <= |rows| && lambda >= 0.0 && Coercive(rows, lambda)
    requires Mul(|rows| as real, Sq(PIVOT_FLOOR)) <= Sq(lambda)
    ensures Eliminated(rows, k).floored == {}
  {
    hide Mul, Sq, Swapped, Coercive;
    if k == 0 {
      assert Eliminated(rows, 0) == Progress(rows, {});
    } else {
      NoneFloored(rows, lambda, k - 1);
      PivotIsLarge(rows, lambda, k - 1);
      var s := Eliminated(rows, k - 1);
      var pivot := Swapped(s.rows, k - 1)[k - 1][k - 1];
      if TooSmall(pivot) {
        FlooredIsSmall(pivot, |rows|);
      }
    }
  }

  lemma FlooredIsSmall(pivot: real, n: nat)
    requires TooSmall(pivot) && n > 0
    ensures Mul(n as real, Sq(pivot)) < Mul(n as real, Sq(PIVOT_FLOOR))
  {
    hide Mul, Sq;
    SqStrict(PIVOT_FLOOR, Abs(pivot));
    SqAbs(pivot);
    MulPositive(n as real, Sq(PIVOT_FLOOR) - Sq(pivot));
    MulSum(n as real, Sq(PIVOT_FLOOR) - Sq(pivot), Sq(pivot));
  }

  /** So such a system is solved, by the answer and by nothing else. */
  lemma CoerciveIsSolved(rows: seq<Row>, lambda: real, y: seq<real>)
    requires Shape(rows, |rows|) && lambda >= 0.0 && Coercive(rows, lambda) && |y| == |rows|
    requires Mul(|rows| as real, Sq(PIVOT_FLOOR)) <= Sq(lambda)
    ensures FlooredPivots(rows) == {}
    ensures Solves(rows, y) <==> y == Solution(rows)
  {
    hide Eliminated, Coercive, Solution;
    NoneFloored(rows, lambda, |rows|);
    assert FlooredPivots(rows) == {};
    SolutionUnique(rows, y);
  }

  /** One equation, one unknown, a coefficient below the floor: the answer leaves nine tenths of the
      right-hand side unmet. */
  lemma FlooredPivotFails()
    ensures var rows := [[0.00000000001, 1.0]];
            Shape(rows, 1) && FlooredPivots(rows) == {0} && Solution(rows) == [10000000000.0]
                && !Solves(rows, Solution(rows))
  {
    var rows: seq<Row> := [[0.00000000001, 1.0]];
    assert Eliminated(rows, 0) == Progress(rows, {});
    assert PivotRow(rows, 0, 1) == 0;
    assert Swapped(rows, 0) == rows;
    var f := Floored(rows[0], 0);
    assert f == [PIVOT_FLOOR, 1.0];
    assert Divided(f, f[0]) == [1.0, 10000000000.0];
    assert Normalised(rows, 0) == [[1.0, 10000000000.0]];
    assert Eliminated(rows, 1).rows == [[1.0, 10000000000.0]];
    assert Dot(rows[0], Solution(rows), 1) == 0.1;
  }
}
