/** Ridge regression through the normal equations, as digital_twin.py fits its residual models.
    The intercept column is not penalised. */
module RidgeRegression {
  import opened RealMath
  import opened LinearSolver

  /** Samples of equal width, one target each: what the strict zips of the source demand. */
  ghost predicate Samples(x: seq<seq<real>>, y: seq<real>, n: nat) {
    |x| == |y| && forall r :: 0 <= r < |x| ==> |x[r]| == n
  }

  // ---------------------------------------------------------------------------------------
  // What the fit is meant to minimise
  // ---------------------------------------------------------------------------------------

  /** Sum of squared errors of weights w over the first r samples. */
  function SquaredError(rows: seq<seq<real>>, y: seq<real>, w: seq<real>, r: nat): real
    requires Samples(rows, y, |w|) && r <= |rows|
  {
    if r == 0 then 0.0
    else
      SquaredError(rows, y, w, r - 1) + Sq(Dot(rows[r - 1], w, |w|) - y[r - 1])
  }

  /** Weights with the intercept masked out. */
  function Slopes(w: seq<real>): (s: seq<real>)
    requires |w| > 0
    ensures |s| == |w| && s[0] == 0.0
  {
    w[0 := 0.0]
  }

  function Penalty(w: seq<real>): real
    requires |w| > 0
  {
    SquareSum(Slopes(w), |w|)
  }

  function Objective(rows: seq<seq<real>>, y: seq<real>, regularization: real, w: seq<real>): real
    requires |w| > 0 && Samples(rows, y, |w|)
  {
    SquaredError(rows, y, w, |rows|) + Mul(regularization, Penalty(w))
  }

  // ---------------------------------------------------------------------------------------
  // The normal equations
  // ---------------------------------------------------------------------------------------

  function WithIntercept(x: seq<seq<real>>): (rows: seq<seq<real>>)
    ensures |rows| == |x|
    ensures forall r :: 0 <= r < |x| ==> rows[r] == [1.0] + x[r]
  {
    seq(|x|, r requires 0 <= r < |x| => [1.0] + x[r])
  }

  /** Sum over the first r samples of the product of columns i and j. */
  function Gram(rows: seq<seq<real>>, i: nat, j: nat, r: nat): real
    requires r <= |rows| && forall q :: 0 <= q < |rows| ==> i < |rows[q]| && j < |rows[q]|
  {
    if r == 0 then 0.0 else Gram(rows, i, j, r - 1) + rows[r - 1][i] * rows[r - 1][j]
  }

  function Moment(rows: seq<seq<real>>, y: seq<real>, i: nat, r: nat): real
    requires r <= |rows| == |y| && forall q :: 0 <= q < |rows| ==> i < |rows[q]|
  {
    if r == 0 then 0.0 else Moment(rows, y, i, r - 1) + rows[r - 1][i] * y[r - 1]
  }

  function GramRow(rows: seq<seq<real>>, n: nat, i: nat, r: nat): (g: seq<real>)
    requires r <= |rows| && i < n && forall q :: 0 <= q < |rows| ==> |rows[q]| == n
    ensures |g| == n
  {
    seq(n, j requires 0 <= j < n => Gram(rows, i, j, r))
  }

  /** Row i of the penalised Gram matrix. */
  function NormalRow(rows: seq<seq<real>>, n: nat, i: nat, regularization: real): (g: seq<real>)
    requires i < n && forall q :: 0 <= q < |rows| ==> |rows[q]| == n
    ensures |g| == n
  {
    var g := GramRow(rows, n, i, |rows|);
    if i == 0 then g else g[i := g[i] + regularization]
  }

  function NormalMatrix(rows: seq<seq<real>>, n: nat, regularization: real): (m: seq<seq<real>>)
    requires forall q :: 0 <= q < |rows| ==> |rows[q]| == n
    ensures Square(m, n)
  {
    seq(n, i requires 0 <= i < n => NormalRow(rows, n, i, regularization))
  }

  function NormalVector(rows: seq<seq<real>>, y: seq<real>, n: nat): (v: seq<real>)
    requires Samples(rows, y, n)
    ensures |v| == n
  {
    seq(n, i requires 0 <= i < n => Moment(rows, y, i, |rows|))
  }

  function NormalSystem(rows: seq<seq<real>>, y: seq<real>, n: nat, regularization: real): (s: seq<Row>)
    requires Samples(rows, y, n)
    ensures Shape(s, n)
  {
    Augment(NormalMatrix(rows, n, regularization), NormalVector(rows, y, n))
  }

  // ---------------------------------------------------------------------------------------
  // The loops of the source
  // ---------------------------------------------------------------------------------------

  /** One sample added to row i of the accumulators. */
  method AccumulateRow(row: seq<real>, target: real, i: nat, matrix: array2<real>, vector: array<real>)
    requires i < |row| == matrix.Length0 == matrix.Length1 == vector.Length
    modifies matrix, vector
    ensures vector[i] == old(vector[i]) + row[i] * target
    ensures forall a :: 0 <= a < vector.Length && a != i ==> vector[a] == old(vector[a])
    ensures forall a, b :: 0 <= a < |row| && 0 <= b < |row| ==>
              matrix[a, b] == old(matrix[a, b]) + (if a == i then row[i] * row[b] else 0.0)
  {
    vector[i] := vector[i] + row[i] * target;
    for j := 0 to |row|
      invariant forall a :: 0 <= a < vector.Length && a != i ==> vector[a] == old(vector[a])
      invariant vector[i] == old(vector[i]) + row[i] * target
      invariant forall a, b :: 0 <= a < |row| && 0 <= b < |row| ==>
                  matrix[a, b] == old(matrix[a, b]) + (if a == i && b < j then row[i] * row[b] else 0.0)
    {
      matrix[i, j] := matrix[i, j] + row[i] * row[j];
    }
  }

  method AccumulateSample(rows: seq<seq<real>>, y: seq<real>, r: nat, matrix: array2<real>, vector: array<real>)
    requires r < |rows| && Samples(rows, y, vector.Length)
    requires vector.Length == matrix.Length0 == matrix.Length1
    requires forall a :: 0 <= a < vector.Length ==> vector[a] == Moment(rows, y, a, r)
    requires forall a, b :: 0 <= a < vector.Length && 0 <= b < vector.Length ==> matrix[a, b] == Gram(rows, a, b, r)
    modifies matrix, vector
    ensures forall a :: 0 <= a < vector.Length ==> vector[a] == Moment(rows, y, a, r + 1)
    ensures forall a, b :: 0 <= a < vector.Length && 0 <= b < vector.Length ==> matrix[a, b] == Gram(rows, a, b, r + 1)
  {
    for i := 0 to vector.Length
      invariant forall a :: 0 <= a < vector.Length ==>
                  vector[a] == Moment(rows, y, a, if a < i then r + 1 else r)
      invariant forall a, b :: 0 <= a < vector.Length && 0 <= b < vector.Length ==>
                  matrix[a, b] == Gram(rows, a, b, if a < i then r + 1 else r)
    {
      AccumulateRow(rows[r], y[r], i, matrix, vector);
    }
  }

  lemma NothingAccumulated(rows: seq<seq<real>>, y: seq<real>, n: nat)
    requires Samples(rows, y, n)
    ensures forall a :: 0 <= a < n ==> Moment(rows, y, a, 0) == 0.0
    ensures forall a, b :: 0 <= a < n && 0 <= b < n ==> Gram(rows, a, b, 0) == 0.0
  {}

  lemma IsNormalMatrix(rows: seq<seq<real>>, n: nat, regularization: real, m: seq<seq<real>>)
    requires (forall q :: 0 <= q < |rows| ==> |rows[q]| == n) && Square(m, n)
    requires forall i, j :: 0 <= i < n && 0 <= j < n ==>
               m[i][j] == Gram(rows, i, j, |rows|) + (if 1 <= i && i == j then regularization else 0.0)
    ensures m == NormalMatrix(rows, n, regularization)
  {
    hide Gram;
    assert forall i :: 0 <= i < n ==> m[i] == NormalRow(rows, n, i, regularization);
  }

  method FitRidge(x: seq<seq<real>>, y: seq<real>, regularization: real) returns (weights: seq<real>)
    requires |x| > 0 && Samples(x, y, |x[0]|)
    ensures weights == Solution(NormalSystem(WithIntercept(x), y, |x[0]| + 1, regularization))
  {
    hide Gram, Moment;
    var rows := WithIntercept(x);
    var width := |x[0]| + 1;
    NothingAccumulated(rows, y, width);
    var matrix := new real[width, width]((i, j) => 0.0);
    var vector := new real[width](i => 0.0);
    for r := 0 to |rows|
      invariant forall a :: 0 <= a < width ==> vector[a] == Moment(rows, y, a, r)
      invariant forall a, b :: 0 <= a < width && 0 <= b < width ==> matrix[a, b] == Gram(rows, a, b, r)
    {
      AccumulateSample(rows, y, r, matrix, vector);
    }
    for index := 1 to width
      invariant forall a :: 0 <= a < width ==> vector[a] == Moment(rows, y, a, |rows|)
      invariant forall a, b :: 0 <= a < width && 0 <= b < width ==>
                  matrix[a, b] == Gram(rows, a, b, |rows|) + (if 1 <= a < index && a == b then regularization else 0.0)
    {
      matrix[index, index] := matrix[index, index] + regularization;
    }
    var m := seq(width, i requires 0 <= i < width reads matrix =>
               seq(width, j requires 0 <= j < width reads matrix => matrix[i, j]));
    IsNormalMatrix(rows, width, regularization, m);
    assert vector[..] == NormalVector(rows, y, width);
    weights := SolveLinear(m, vector[..]);
  }

  // ---------------------------------------------------------------------------------------
  // Solving the normal equations makes the gradient vanish
  // ---------------------------------------------------------------------------------------

  lemma {:induction false} DotZero(a: seq<real>, b: seq<real>, k: nat)
    requires k <= |a| && k <= |b| && forall i :: 0 <= i < k ==> a[i] == 0.0
    ensures Dot(a, b, k) == 0.0
  {
    if k > 0 { DotZero(a, b, k - 1); }
  }

  /** Half the i-th partial derivative of the squared error over the first r samples. */
  function HalfSlope(rows: seq<seq<real>>, y: seq<real>, w: seq<real>, i: nat, r: nat): real
    requires Samples(rows, y, |w|) && r <= |rows| && i < |w|
  {
    if r == 0 then 0.0
    else HalfSlope(rows, y, w, i, r - 1) + rows[r - 1][i] * (Dot(rows[r - 1], w, |w|) - y[r - 1])
  }

  lemma {:induction false} GramIsSlope(rows: seq<seq<real>>, y: seq<real>, w: seq<real>, i: nat, r: nat)
    requires Samples(rows, y, |w|) && r <= |rows| && i < |w|
    ensures Dot(GramRow(rows, |w|, i, r), w, |w|) - Moment(rows, y, i, r) == HalfSlope(rows, y, w, i, r)
  {
    if r == 0 {
      DotZero(GramRow(rows, |w|, i, 0), w, |w|);
    } else {
      hide GramRow, Dot, Moment, HalfSlope, Mul;
      GramIsSlope(rows, y, w, i, r - 1);
      GramRowStep(rows, w, i, r);
      SlopeStep(rows, y, w, i, r);
    }
  }

  lemma GramRowStep(rows: seq<seq<real>>, w: seq<real>, i: nat, r: nat)
    requires 0 < r <= |rows| && i < |w| && forall q :: 0 <= q < |rows| ==> |rows[q]| == |w|
    ensures Dot(GramRow(rows, |w|, i, r), w, |w|) ==
            Dot(GramRow(rows, |w|, i, r - 1), w, |w|) + Mul(rows[r - 1][i], Dot(rows[r - 1], w, |w|))
  {
    hide Dot;
    var n, f := |w|, rows[r - 1][i];
    var before, after := GramRow(rows, n, i, r - 1), GramRow(rows, n, i, r);
    forall j | 0 <= j < n ensures after[j] == before[j] - (-f) * rows[r - 1][j] {}
    DotMinus(before, -f, rows[r - 1], after, w, n);
  }

  lemma SlopeStep(rows: seq<seq<real>>, y: seq<real>, w: seq<real>, i: nat, r: nat)
    requires Samples(rows, y, |w|) && 0 < r <= |rows| && i < |w|
    ensures Moment(rows, y, i, r) == Moment(rows, y, i, r - 1) + Mul(rows[r - 1][i], y[r - 1])
    ensures HalfSlope(rows, y, w, i, r) ==
            HalfSlope(rows, y, w, i, r - 1) + Mul(rows[r - 1][i], Dot(rows[r - 1], w, |w|))
            - Mul(rows[r - 1][i], y[r - 1])
  {
    hide Dot;
  }

  /** The i-th half-derivative of the whole objective. */
  function Gradient(rows: seq<seq<real>>, y: seq<real>, regularization: real, w: seq<real>): (g: seq<real>)
    requires Samples(rows, y, |w|) && |w| > 0
    ensures |g| == |w|
  {
    seq(|w|, i requires 0 <= i < |w| => HalfSlope(rows, y, w, i, |rows|) + regularization * Slopes(w)[i])
  }

  lemma SolvedMeansStationary(rows: seq<seq<real>>, y: seq<real>, regularization: real, w: seq<real>)
    requires Samples(rows, y, |w|) && |w| > 0
    ensures Solves(NormalSystem(rows, y, |w|, regularization), w) <==>
            (forall i :: 0 <= i < |w| ==> Gradient(rows, y, regularization, w)[i] == 0.0)
  {
    var n := |w|;
    var s := NormalSystem(rows, y, n, regularization);
    var g := Gradient(rows, y, regularization, w);
    forall i | 0 <= i < n ensures Holds(s[i], w) <==> g[i] == 0.0 {
      StationaryRow(rows, y, regularization, w, i);
    }
  }

  lemma StationaryRow(rows: seq<seq<real>>, y: seq<real>, regularization: real, w: seq<real>, i: nat)
    requires Samples(rows, y, |w|) && i < |w|
    ensures Holds(NormalSystem(rows, y, |w|, regularization)[i], w) <==>
            Gradient(rows, y, regularization, w)[i] == 0.0
  {
    hide Dot, HalfSlope, Gram, Moment;
    var n := |w|;
    var row := NormalSystem(rows, y, n, regularization)[i];
    var g := GramRow(rows, n, i, |rows|);
    GramIsSlope(rows, y, w, i, |rows|);
    assert row[n] == Moment(rows, y, i, |rows|);
    var m := NormalRow(rows, n, i, regularization);
    assert row == m + [row[n]];
    DotPrefix(row, m, w, n);
    if i > 0 {
      DotReplaced(g, i, g[i] + regularization, w, n);
    }
  }

  lemma {:induction false} DotPrefix(a: seq<real>, b: seq<real>, x: seq<real>, k: nat)
    requires k <= |a| && k <= |b| && k <= |x| && forall j :: 0 <= j < k ==> a[j] == b[j]
    ensures Dot(a, x, k) == Dot(b, x, k)
  {
    if k > 0 { DotPrefix(a, b, x, k - 1); }
  }

  // ---------------------------------------------------------------------------------------
  // A stationary point is the minimum
  // ---------------------------------------------------------------------------------------

  function Cross(rows: seq<seq<real>>, y: seq<real>, w: seq<real>, d: seq<real>, r: nat): real
    requires Samples(rows, y, |w|) && |d| == |w| && r <= |rows|
  {
    if r == 0 then 0.0
    else Cross(rows, y, w, d, r - 1) + (Dot(rows[r - 1], w, |w|) - y[r - 1]) * Dot(rows[r - 1], d, |w|)
  }

  /** Squared change of the predictions when the weights move by d. */
  function Spread(rows: seq<seq<real>>, d: seq<real>, r: nat): real
    requires r <= |rows| && forall q :: 0 <= q < |rows| ==> |rows[q]| == |d|
  {
    if r == 0 then 0.0 else Spread(rows, d, r - 1) + Sq(Dot(rows[r - 1], d, |d|))
  }

  lemma {:induction false} DotPlus(a: seq<real>, w: seq<real>, d: seq<real>, k: nat)
    requires |w| == |d| && k <= |a| && k <= |w|
    ensures Dot(a, Added(w, d), k) == Dot(a, w, k) + Dot(a, d, k)
  {
    if k > 0 { DotPlus(a, w, d, k - 1); }
  }

  lemma {:induction false} ErrorExpands(rows: seq<seq<real>>, y: seq<real>, w: seq<real>, d: seq<real>, r: nat)
    requires Samples(rows, y, |w|) && |d| == |w| && r <= |rows|
    ensures SquaredError(rows, y, Added(w, d), r) ==
            SquaredError(rows, y, w, r) + 2.0 * Cross(rows, y, w, d, r) + Spread(rows, d, r)
  {
    if r > 0 {
      hide Dot, Added, SquaredError, Cross, Spread, Sq;
      ErrorExpands(rows, y, w, d, r - 1);
      DotPlus(rows[r - 1], w, d, |w|);
      var a, b := Dot(rows[r - 1], w, |w|) - y[r - 1], Dot(rows[r - 1], d, |w|);
      SqSum(a, b);
      MulIs(a, b);
      StepError(rows, y, Added(w, d), r, a + b);
      StepError(rows, y, w, r, a);
      StepCross(rows, y, w, d, r, a, b);
    }
  }

  lemma StepError(rows: seq<seq<real>>, y: seq<real>, w: seq<real>, r: nat, e: real)
    requires Samples(rows, y, |w|) && 0 < r <= |rows| && e == Dot(rows[r - 1], w, |w|) - y[r - 1]
    ensures SquaredError(rows, y, w, r) == SquaredError(rows, y, w, r - 1) + Sq(e)
  {}

  lemma StepCross(rows: seq<seq<real>>, y: seq<real>, w: seq<real>, d: seq<real>, r: nat, a: real, b: real)
    requires Samples(rows, y, |w|) && |d| == |w| && 0 < r <= |rows|
    requires a == Dot(rows[r - 1], w, |w|) - y[r - 1] && b == Dot(rows[r - 1], d, |w|)
    ensures Cross(rows, y, w, d, r) == Cross(rows, y, w, d, r - 1) + a * b
    ensures Spread(rows, d, r) == Spread(rows, d, r - 1) + Sq(b)
  {}

  lemma {:induction false} SquareSumExpands(a: seq<real>, b: seq<real>, k: nat)
    requires |a| == |b| && k <= |a|
    ensures SquareSum(Added(a, b), k) == SquareSum(a, k) + 2.0 * Dot(a, b, k) + SquareSum(b, k)
  {
    if k > 0 {
      SquareSumExpands(a, b, k - 1);
      SqSum(a[k - 1], b[k - 1]);
      MulIs(a[k - 1], b[k - 1]);
    }
  }

  lemma PenaltyExpands(w: seq<real>, d: seq<real>)
    requires |w| == |d| > 0
    ensures Penalty(Added(w, d)) == Penalty(w) + 2.0 * Dot(Slopes(w), Slopes(d), |w|) + Penalty(d)
  {
    SquareSumExpands(Slopes(w), Slopes(d), |w|);
    assert Slopes(Added(w, d)) == Added(Slopes(w), Slopes(d));
  }

  function HalfSlopes(rows: seq<seq<real>>, y: seq<real>, w: seq<real>, r: nat): (g: seq<real>)
    requires Samples(rows, y, |w|) && r <= |rows|
    ensures |g| == |w|
  {
    seq(|w|, i requires 0 <= i < |w| => HalfSlope(rows, y, w, i, r))
  }

  lemma {:induction false} CrossIsSlope(rows: seq<seq<real>>, y: seq<real>, w: seq<real>, d: seq<real>, r: nat)
    requires Samples(rows, y, |w|) && |d| == |w| && r <= |rows|
    ensures Dot(HalfSlopes(rows, y, w, r), d, |w|) == Cross(rows, y, w, d, r)
  {
    if r == 0 {
      DotZero(HalfSlopes(rows, y, w, 0), d, |w|);
    } else {
      hide Dot, HalfSlopes, Cross, Mul;
      CrossIsSlope(rows, y, w, d, r - 1);
      HalfSlopesStep(rows, y, w, d, r);
      CrossStep(rows, y, w, d, r);
    }
  }

  lemma HalfSlopeStep(rows: seq<seq<real>>, y: seq<real>, w: seq<real>, i: nat, r: nat, f: real)
    requires Samples(rows, y, |w|) && 0 < r <= |rows| && i < |w| && f == -(Dot(rows[r - 1], w, |w|) - y[r - 1])
    ensures HalfSlope(rows, y, w, i, r) == HalfSlope(rows, y, w, i, r - 1) - f * rows[r - 1][i]
  {
    hide Dot;
  }

  lemma HalfSlopesStep(rows: seq<seq<real>>, y: seq<real>, w: seq<real>, d: seq<real>, r: nat)
    requires Samples(rows, y, |w|) && |d| == |w| && 0 < r <= |rows|
    ensures Dot(HalfSlopes(rows, y, w, r), d, |w|) ==
            Dot(HalfSlopes(rows, y, w, r - 1), d, |w|)
            + Mul(Dot(rows[r - 1], w, |w|) - y[r - 1], Dot(rows[r - 1], d, |w|))
  {
    hide Dot, HalfSlope, Mul;
    var f := -(Dot(rows[r - 1], w, |w|) - y[r - 1]);
    var before, after := HalfSlopes(rows, y, w, r - 1), HalfSlopes(rows, y, w, r);
    forall j | 0 <= j < |w| ensures after[j] == before[j] - f * rows[r - 1][j] { HalfSlopeStep(rows, y, w, j, r, f); }
    DotMinus(before, f, rows[r - 1], after, d, |w|);
    MulIs(f, Dot(rows[r - 1], d, |w|));
    MulNegated(f, Dot(rows[r - 1], d, |w|));
  }

  lemma CrossStep(rows: seq<seq<real>>, y: seq<real>, w: seq<real>, d: seq<real>, r: nat)
    requires Samples(rows, y, |w|) && |d| == |w| && 0 < r <= |rows|
    ensures Cross(rows, y, w, d, r) ==
            Cross(rows, y, w, d, r - 1) + Mul(Dot(rows[r - 1], w, |w|) - y[r - 1], Dot(rows[r - 1], d, |w|))
  {
    hide Dot;
  }

  /** The objective after a move: first order by the gradient, second order by spread and penalty. */
  lemma ObjectiveExpands(rows: seq<seq<real>>, y: seq<real>, regularization: real, w: seq<real>, d: seq<real>)
    requires Samples(rows, y, |w|) && |d| == |w| > 0
    ensures Objective(rows, y, regularization, Added(w, d)) ==
            Objective(rows, y, regularization, w) + 2.0 * Dot(Gradient(rows, y, regularization, w), d, |w|)
            + Spread(rows, d, |rows|) + Mul(regularization, Penalty(d))
  {
    hide Dot, SquaredError, Cross, Spread, HalfSlope, Penalty, Added, Slopes, Gradient, SquareSum, Sq, Mul;
    ErrorExpands(rows, y, w, d, |rows|);
    PenaltyExpands(w, d);
    GradientDot(rows, y, regularization, w, d);
    Assemble(SquaredError(rows, y, w, |rows|), SquaredError(rows, y, Added(w, d), |rows|), Cross(rows, y, w, d, |rows|),
             Spread(rows, d, |rows|), regularization, Penalty(w), Penalty(Added(w, d)),
             Dot(Slopes(w), Slopes(d), |w|), Penalty(d), Dot(Gradient(rows, y, regularization, w), d, |w|));
  }

  lemma Assemble(e: real, e': real, cross: real, spread: real, f: real, p: real, p': real, c: real, q: real,
                 slope: real)
    requires e' == e + 2.0 * cross + spread && p' == p + 2.0 * c + q && slope == cross + Mul(f, c)
    ensures e' + Mul(f, p') == e + Mul(f, p) + 2.0 * slope + spread + Mul(f, q)
  {
    Regroup(f, p, c, q);
  }

  lemma GradientDot(rows: seq<seq<real>>, y: seq<real>, regularization: real, w: seq<real>, d: seq<real>)
    requires Samples(rows, y, |w|) && |d| == |w| > 0
    ensures Dot(Gradient(rows, y, regularization, w), d, |w|) ==
            Cross(rows, y, w, d, |rows|) + Mul(regularization, Dot(Slopes(w), Slopes(d), |w|))
  {
    hide Dot, SquaredError, Cross, HalfSlope, HalfSlopes, Slopes, Gradient, Mul;
    var g, h, m := Gradient(rows, y, regularization, w), HalfSlopes(rows, y, w, |rows|), Slopes(w);
    CrossIsSlope(rows, y, w, d, |rows|);
    GradientEntries(rows, y, regularization, w);
    DotMinus(h, -regularization, m, g, d, |w|);
    MinusNegated(Dot(h, d, |w|), regularization, Dot(m, d, |w|));
    DotMasked(m, d, |w|);
  }

  lemma GradientEntries(rows: seq<seq<real>>, y: seq<real>, regularization: real, w: seq<real>)
    requires Samples(rows, y, |w|) && |w| > 0
    ensures forall j :: 0 <= j < |w| ==>
              Gradient(rows, y, regularization, w)[j] ==
                  HalfSlopes(rows, y, w, |rows|)[j] - (-regularization) * Slopes(w)[j]
  {}

  lemma MinusNegated(a: real, f: real, b: real)
    ensures a - (-f) * b == a + Mul(f, b)
  {}

  lemma Regroup(f: real, a: real, b: real, c: real)
    ensures f * (a + 2.0 * b + c) == f * a + 2.0 * (f * b) + f * c
  {}

  lemma {:induction false} DotMasked(s: seq<real>, d: seq<real>, k: nat)
    requires |s| == |d| && 0 < |s| && k <= |s| && s[0] == 0.0
    ensures Dot(s, d, k) == Dot(s, Slopes(d), k)
  {
    if k > 0 { DotMasked(s, d, k - 1); }
  }

  lemma {:induction false} SpreadBounds(rows: seq<seq<real>>, d: seq<real>, r: nat)
    requires r <= |rows| && forall q :: 0 <= q < |rows| ==> |rows[q]| == |d|
    ensures Spread(rows, d, r) >= 0.0
    ensures r > 0 ==> Spread(rows, d, r) >= Sq(Dot(rows[0], d, |d|))
  {
    if r > 0 {
      hide Sq, Dot;
      SpreadBounds(rows, d, r - 1);
      SqSign(Dot(rows[r - 1], d, |d|));
    }
  }

  // ---------------------------------------------------------------------------------------
  // Main result
  // ---------------------------------------------------------------------------------------

  /** Cheaper than any other weights. */
  ghost predicate IsUniqueMinimum(rows: seq<seq<real>>, y: seq<real>, regularization: real, w: seq<real>)
    requires |w| > 0 && Samples(rows, y, |w|)
  {
    forall v: seq<real> :: |v| == |w| && v != w ==>
        Objective(rows, y, regularization, w) < Objective(rows, y, regularization, v)
  }

  ghost predicate Stationary(rows: seq<seq<real>>, y: seq<real>, regularization: real, w: seq<real>)
    requires |w| > 0 && Samples(rows, y, |w|)
  {
    forall i :: 0 <= i < |w| ==> Gradient(rows, y, regularization, w)[i] == 0.0
  }

  lemma StationaryIsMinimum(rows: seq<seq<real>>, y: seq<real>, regularization: real, w: seq<real>, v: seq<real>)
    requires |v| == |w| > 0 && |rows| > 0 && Samples(rows, y, |w|) && regularization > 0.0 && v != w
    requires (forall q :: 0 <= q < |rows| ==> rows[q][0] == 1.0) && Stationary(rows, y, regularization, w)
    ensures Objective(rows, y, regularization, w) < Objective(rows, y, regularization, v)
  {
    hide Objective, Gradient, Dot, Spread, Penalty;
    var n := |w|;
    var d := seq(n, i requires 0 <= i < n => v[i] - w[i]);
    assert v == Added(w, d);
    ObjectiveExpands(rows, y, regularization, w, d);
    DotZero(Gradient(rows, y, regularization, w), d, n);
    var i :| 0 <= i < n && v[i] != w[i];
    MoveCosts(rows, d, regularization, i);
  }

  /** A move along one axis. */
  function Along(n: nat, i: nat, t: real): (d: seq<real>)
    ensures |d| == n
  {
    seq(n, j => if j == i then t else 0.0)
  }

  lemma {:induction false} DotAlong(a: seq<real>, n: nat, i: nat, t: real, k: nat)
    requires k <= n && k <= |a| && i < |a|
    ensures Dot(a, Along(n, i, t), k) == if i < k then Mul(a[i], t) else 0.0
  {
    if k > 0 { DotAlong(a, n, i, t, k - 1); }
  }

  lemma {:induction false} SpreadAlong(rows: seq<seq<real>>, n: nat, i: nat, t: real, r: nat)
    requires i < n && r <= |rows| && forall q :: 0 <= q < |rows| ==> |rows[q]| == n
    ensures Spread(rows, Along(n, i, t), r) == Mul(Gram(rows, i, i, r), Sq(t)) && Gram(rows, i, i, r) >= 0.0
  {
    hide Mul;
    if r == 0 {
      MulZero(Sq(t));
    } else {
      SpreadAlong(rows, n, i, t, r - 1);
      DotAlong(rows[r - 1], n, i, t, n);
      var a := rows[r - 1][i];
      SqOfProduct(a, t);
      SqSign(a);
      MulIs(a, a);
      assert Gram(rows, i, i, r) == Gram(rows, i, i, r - 1) + Sq(a);
      MulSum(Sq(t), Gram(rows, i, i, r - 1), Sq(a));
      assert Spread(rows, Along(n, i, t), r) == Spread(rows, Along(n, i, t), r - 1) + Sq(Mul(a, t));
    }
  }

  lemma {:induction false} SquareSumAlong(n: nat, i: nat, t: real, k: nat)
    requires i < n && k <= n
    ensures SquareSum(Along(n, i, t), k) == if i < k then Sq(t) else 0.0
    ensures n > 0 ==> SquareSum(Slopes(Along(n, i, t)), k) == if 0 < i < k then Sq(t) else 0.0
  {
    if k > 0 { SquareSumAlong(n, i, t, k - 1); }
  }

  /** Off a stationary point some axis leads to a cheaper point. */
  lemma DescentExists(rows: seq<seq<real>>, y: seq<real>, regularization: real, w: seq<real>) returns (v: seq<real>)
    requires |w| > 0 && Samples(rows, y, |w|) && regularization > 0.0 && !Stationary(rows, y, regularization, w)
    ensures |v| == |w| && Objective(rows, y, regularization, v) < Objective(rows, y, regularization, w)
  {
    hide Objective, Gradient, Dot, Spread, Penalty, Mul, Added, Along, Gram;
    var n := |w|;
    var g := Gradient(rows, y, regularization, w);
    var i :| 0 <= i < n && g[i] != 0.0;
    SpreadAlong(rows, n, i, 0.0, |rows|);
    var curvature := Gram(rows, i, i, |rows|) + (if i > 0 then regularization else 0.0);
    var t := -g[i] / (curvature + 1.0);
    var d := Along(n, i, t);
    v := Added(w, d);
    ObjectiveExpands(rows, y, regularization, w, d);
    DotAlong(g, n, i, t, n);
    SpreadAlong(rows, n, i, t, |rows|);
    AxisPenalty(n, i, t);
    MulZero(regularization);
    MulCommutes(regularization, Sq(t));
    MulCommutes(regularization, Penalty(d));
    MulSum(Sq(t), Gram(rows, i, i, |rows|), if i > 0 then regularization else 0.0);
    MulZero(Sq(t));
    Descends(g[i], curvature, t);
  }

  lemma AxisPenalty(n: nat, i: nat, t: real)
    requires i < n
    ensures Penalty(Along(n, i, t)) == if i > 0 then Sq(t) else 0.0
  {
    SquareSumAlong(n, i, t, n);
  }

  lemma Descends(g: real, curvature: real, t: real)
    requires g != 0.0 && curvature >= 0.0 && t == -g / (curvature + 1.0)
    ensures 2.0 * Mul(g, t) + Mul(curvature, Sq(t)) < 0.0
  {
    hide Mul, Sq;
    var c := curvature + 1.0;
    MulQuotient(-g, c);
    assert g == -Mul(t, c);
    MulNegated(Mul(t, c), t);
    MulCommutes(t, c);
    MulAssociative(c, t, t);
    SqIs(t);
    MulSum(Sq(t), curvature, 1.0);
    MulOne(Sq(t));
    SqSign(t);
    SqSign(g);
    if t == 0.0 { MulZero(c); assert false; }
    MulNonNegative(curvature, Sq(t));
  }

  /** The fitted weights are the unique minimum of squared error plus the penalty on every weight but
      the intercept exactly when they are zero at every floored pivot, so always when none was floored. */
  lemma RidgeIsUniqueMinimum(x: seq<seq<real>>, y: seq<real>, regularization: real)
    requires |x| > 0 && Samples(x, y, |x[0]|) && regularization > 0.0
    ensures var rows := WithIntercept(x);
            var s := NormalSystem(rows, y, |x[0]| + 1, regularization);
            IsUniqueMinimum(rows, y, regularization, Solution(s)) <==> ZeroOn(Solution(s), FlooredPivots(s))
  {
    hide Objective, Gradient, Solution, FlooredPivots, NormalSystem;
    var rows := WithIntercept(x);
    var n := |x[0]| + 1;
    var s := NormalSystem(rows, y, n, regularization);
    var w := Solution(s);
    SolutionSolvesIff(s);
    SolvedMeansStationary(rows, y, regularization, w);
    if Stationary(rows, y, regularization, w) {
      forall v: seq<real> | |v| == n && v != w
        ensures Objective(rows, y, regularization, w) < Objective(rows, y, regularization, v)
      {
        StationaryIsMinimum(rows, y, regularization, w, v);
      }
    } else {
      var v := DescentExists(rows, y, regularization, w);
      assert v != w;
    }
  }

  lemma MoveCosts(rows: seq<seq<real>>, d: seq<real>, regularization: real, i: nat)
    requires |rows| > 0 && i < |d| && d[i] != 0.0 && regularization > 0.0
    requires forall q :: 0 <= q < |rows| ==> |rows[q]| == |d| && rows[q][0] == 1.0
    ensures Spread(rows, d, |rows|) + Mul(regularization, Penalty(d)) > 0.0
  {
    var n := |d|;
    var p := Penalty(d);
    hide Sq, Dot, Spread, SquareSum;
    SpreadBounds(rows, d, |rows|);
    SquareSumSign(Slopes(d), n);
    if j :| 1 <= j < n && d[j] != 0.0 {
      assert Slopes(d)[j] == d[j];
      SqSign(d[j]);
      MulPositive(regularization, p);
    } else {
      DotFirst(rows[0], d, n);
      SqSign(d[0]);
      MulNonNegative(regularization, p);
    }
  }

  lemma {:induction false} DotFirst(row: seq<real>, d: seq<real>, k: nat)
    requires 1 <= k <= |d| == |row| && row[0] == 1.0 && forall i :: 1 <= i < k ==> d[i] == 0.0
    ensures Dot(row, d, k) == d[0]
  {
    if k > 1 { DotFirst(row, d, k - 1); } else { assert Dot(row, d, 1) == Dot(row, d, 0) + row[0] * d[0]; }
  }
}
