/** The two ridge fits of the uplift estimate (estimate_causal_uplift in digital_twin.py): covariates are
    standardised over all observations, each arm is fitted on its own rows. The standardised columns bound
    the rows, the bound makes the normal equations coercive, and so no pivot is ever floored. */
module CausalFit {
  import opened RealMath
  import opened Wrappers
  import opened LinearSolver
  import opened RidgeRegression
  import opened PivotBounds

  const REGULARIZATION: real := 0.05

  const LEAST_OBSERVATIONS: nat := 40

  const LEAST_ARM: nat := 10

  // ---------------------------------------------------------------------------------------
  // The quadratic form of the normal equations
  // ---------------------------------------------------------------------------------------

  function Zeros(n: nat): (z: seq<real>)
    ensures |z| == n && forall i :: 0 <= i < n ==> z[i] == 0.0
  {
    seq(n, i => 0.0)
  }

  lemma {:induction false} MomentOfZeros(rows: seq<seq<real>>, i: nat, r: nat)
    requires r <= |rows| && forall q :: 0 <= q < |rows| ==> i < |rows[q]|
    ensures Moment(rows, Zeros(|rows|), i, r) == 0.0
  {
    if r > 0 { MomentOfZeros(rows, i, r - 1); }
  }

  lemma {:induction false} CrossOfZeros(rows: seq<seq<real>>, v: seq<real>, r: nat)
    requires r <= |rows| && Samples(rows, Zeros(|rows|), |v|)
    ensures Cross(rows, Zeros(|rows|), v, v, r) == Spread(rows, v, r)
  {
    if r > 0 {
      CrossOfZeros(rows, v, r - 1);
      SqIs(Dot(rows[r - 1], v, |v|));
      MulIs(Dot(rows[r - 1], v, |v|), Dot(rows[r - 1], v, |v|));
    }
  }

  lemma {:induction false} DotSelf(a: seq<real>, k: nat)
    requires k <= |a|
    ensures Dot(a, a, k) == SquareSum(a, k)
  {
    if k > 0 { DotSelf(a, k - 1); }
  }

  lemma NormalEntry(rows: seq<seq<real>>, y: seq<real>, regularization: real, n: nat, i: nat)
    requires Samples(rows, y, n) && i < n
    ensures var row, g := NormalSystem(rows, y, n, regularization)[i], GramRow(rows, n, i, |rows|);
            forall j :: 0 <= j < n ==> row[j] == if i > 0 && j == i then g[i] + regularization else g[j]
  {
    hide Gram, Moment;
  }

  lemma GradientEntry(rows: seq<seq<real>>, y: seq<real>, regularization: real, v: seq<real>, i: nat)
    requires Samples(rows, y, |v|) && i < |v|
    ensures Gradient(rows, y, regularization, v)[i] ==
            HalfSlope(rows, y, v, i, |rows|) + (if i > 0 then Mul(regularization, v[i]) else 0.0)
  {
    hide HalfSlope;
  }

  lemma {:induction false} DotRaised(g: seq<real>, i: nat, f: real, v: seq<real>, k: nat)
    requires k <= |g| && k <= |v| && i < |g| && i < |v|
    ensures Dot(g[i := g[i] + f], v, k) == Dot(g, v, k) + (if i < k then Mul(f, v[i]) else 0.0)
  {
    if k > 0 {
      DotRaised(g, i, f, v, k - 1);
      if i == k - 1 { assert (g[i] + f) * v[i] == g[i] * v[i] + f * v[i]; }
    }
  }

  /** Row i of the normal equations at v is the i-th half-derivative for targets of zero. */
  lemma NormalImage(rows: seq<seq<real>>, y: seq<real>, regularization: real, v: seq<real>, i: nat)
    requires Samples(rows, y, |v|) && i < |v|
    ensures Dot(NormalSystem(rows, y, |v|, regularization)[i], v, |v|) ==
            Gradient(rows, Zeros(|rows|), regularization, v)[i]
  {
    hide Dot, HalfSlope, Gram, Moment, Gradient, NormalSystem, GramRow, Mul;
    var n := |v|;
    var row := NormalSystem(rows, y, n, regularization)[i];
    var g := GramRow(rows, n, i, |rows|);
    GramIsSlope(rows, Zeros(|rows|), v, i, |rows|);
    MomentOfZeros(rows, i, |rows|);
    NormalEntry(rows, y, regularization, n, i);
    GradientEntry(rows, Zeros(|rows|), regularization, v, i);
    if i > 0 {
      DotPrefix(row, g[i := g[i] + regularization], v, n);
      DotRaised(g, i, regularization, v, n);
    } else {
      DotPrefix(row, g, v, n);
    }
  }

  lemma NormalForm(rows: seq<seq<real>>, y: seq<real>, regularization: real, v: seq<real>)
    requires Samples(rows, y, |v|) && |v| > 0
    ensures Dot(v, Image(NormalSystem(rows, y, |v|, regularization), v), |v|) ==
            Spread(rows, v, |rows|) + Mul(regularization, Penalty(v))
  {
    hide Dot, NormalSystem, Gradient, Cross, Spread, Mul, Slopes, SquareSum;
    var n, z := |v|, Zeros(|rows|);
    var w, g := Image(NormalSystem(rows, y, n, regularization), v), Gradient(rows, z, regularization, v);
    forall i | 0 <= i < n ensures w[i] == g[i] { NormalImage(rows, y, regularization, v, i); }
    assert w == g;
    DotCommutes(v, g, n);
    GradientDot(rows, z, regularization, v, v);
    CrossOfZeros(rows, v, |rows|);
    DotSelf(Slopes(v), n);
  }

  // ---------------------------------------------------------------------------------------
  // Rows of bounded energy make a coercive system
  // ---------------------------------------------------------------------------------------

  /** Sum of the squares of all entries of the first r rows. */
  function Energy(x: seq<seq<real>>, r: nat): real
    requires r <= |x|
  {
    if r == 0 then 0.0 else Energy(x, r - 1) + SquareSum(x[r - 1], |x[r - 1]|)
  }

  function Kappa(energy: real, rho: real): real
    requires energy >= 0.0 && rho > 0.0
  {
    rho / (2.0 * energy + 2.0 * rho)
  }

  function Mu(energy: real, rho: real): real
    requires energy >= 0.0 && rho > 0.0
  {
    rho / (2.0 * energy + rho)
  }

  /** The coercivity constant of a fit: m rows, features of at most this energy, penalty rho. */
  function FitLambda(m: nat, energy: real, rho: real): real
    requires energy >= 0.0 && rho > 0.0
  {
    Min(Mul(m as real, Kappa(energy, rho)), rho / 2.0)
  }

  lemma KappaFacts(energy: real, rho: real)
    requires energy >= 0.0 && rho > 0.0
    ensures 0.0 < Kappa(energy, rho) < 1.0 && Mu(energy, rho) > 0.0
    ensures Mul(1.0 - Kappa(energy, rho), Mu(energy, rho)) == Kappa(energy, rho)
    ensures Mul(Mu(energy, rho), energy) <= rho / 2.0
  {
    hide Mul;
    var d, c := 2.0 * energy + 2.0 * rho, 2.0 * energy + rho;
    var k, u := Kappa(energy, rho), Mu(energy, rho);
    MulQuotient(rho, d);
    MulQuotient(rho, c);
    Fraction(rho, d);
    Fraction(rho, c + rho);
    PositiveQuotient(rho, c);
    MulSum(u, c, rho);
    // (1 - k) u d == u d - k u d == u (c + rho) - u rho == rho == k d
    MulSum(u, 1.0, -k);
    MulNegated(k, u);
    MulOne(u);
    MulCommutes(u, c);
    MulSum(d, u, -Mul(k, u));
    MulNegated(Mul(k, u), d);
    MulCommutes(k, u);
    MulAssociative(u, k, d);
    MulSum(u, c, rho);
    assert d == c + rho;
    SameTimes(Mul(1.0 - k, u), k, d);
    MulSum(u, 2.0 * energy, rho);
    MulSum(u, energy, energy);
    MulPositive(u, rho);
  }

  lemma Fraction(a: real, d: real)
    requires 0.0 < a < d
    ensures 0.0 < a / d < 1.0
  {
    hide Mul;
    PositiveQuotient(a, d);
    PositiveQuotient(d - a, d);
    QuotientSum(a, d - a, d);
    MulOne(d);
    QuotientOfProduct(1.0, d);
  }

  lemma PositiveQuotient(a: real, d: real)
    requires a > 0.0 && d > 0.0
    ensures a / d > 0.0
  {}

  lemma SameTimes(a: real, b: real, d: real)
    requires d > 0.0 && Mul(a, d) == Mul(b, d)
    ensures a == b
  {
    QuotientOfProduct(a, d);
    QuotientOfProduct(b, d);
  }

  /** Young's inequality for one row: the intercept keeps its share against the features. */
  lemma Young(v: real, a: real, k: real, u: real)
    requires 0.0 < k < 1.0 && Mul(1.0 - k, u) == k
    ensures Sq(v + a) >= Mul(k, Sq(v)) - Mul(u, Sq(a))
  {
    var e := 1.0 - k;
    var rest := Sq(v + a) - Mul(k, Sq(v)) + Mul(u, Sq(a));
    YoungIdentity(v, a, e);
    assert Mul(e, rest) == Sq(e * v + a) by {
      hide Mul, Sq;
      MulSum(e, Sq(v + a) - Mul(k, Sq(v)), Mul(u, Sq(a)));
      MulSum(e, Sq(v + a), -Mul(k, Sq(v)));
      MulNegated(e, Mul(k, Sq(v)));
      MulAssociative(e, u, Sq(a));
    }
    hide Mul, Sq;
    SqSign(e * v + a);
    if rest < 0.0 {
      MulPositive(e, -rest);
      MulNegated(e, rest);
    }
  }

  lemma YoungIdentity(v: real, a: real, e: real)
    ensures Mul(e, Sq(v + a)) - Mul(e, Mul(1.0 - e, Sq(v))) + Mul(1.0 - e, Sq(a)) == Sq(e * v + a)
  {
    assert e * ((v + a) * (v + a)) == e * (v * v) + 2.0 * (e * (v * a)) + e * (a * a);
    assert e * ((1.0 - e) * (v * v)) == e * (v * v) - e * (e * (v * v));
    assert (1.0 - e) * (a * a) == a * a - e * (a * a);
    assert (e * v + a) * (e * v + a) == e * (e * (v * v)) + 2.0 * (e * (v * a)) + a * a;
  }

  lemma {:induction false} DotIntercept(x: seq<real>, v: seq<real>, k: nat)
    requires |v| == |x| + 1 && k <= |x|
    ensures Dot([1.0] + x, v, k + 1) == v[0] + Dot(x, v[1..], k)
  {
    if k == 0 {
      assert Dot([1.0] + x, v, 0) == 0.0;
    } else {
      DotIntercept(x, v, k - 1);
    }
  }

  lemma {:induction false} SquareSumTail(v: seq<real>, k: nat)
    requires |v| > 0 && k < |v|
    ensures SquareSum(v, k + 1) == Sq(v[0]) + SquareSum(v[1..], k)
    ensures SquareSum(Slopes(v), k + 1) == SquareSum(v[1..], k)
  {
    hide Sq;
    if k == 0 {
      assert SquareSum(v, 0) == 0.0 && SquareSum(Slopes(v), 0) == 0.0;
      SquareOfZero();
    } else {
      SquareSumTail(v, k - 1);
    }
  }

  /** Predictions cannot cancel the intercept by more than the features' energy allows. */
  lemma {:induction false} SpreadIsLarge(x: seq<seq<real>>, v: seq<real>, k: real, u: real, r: nat)
    requires r <= |x| && |v| > 0 && (forall q :: 0 <= q < |x| ==> |x[q]| == |v| - 1)
    requires 0.0 < k < 1.0 && u >= 0.0 && Mul(1.0 - k, u) == k
    ensures Spread(WithIntercept(x), v, r) >=
            Mul(r as real, Mul(k, Sq(v[0]))) - Mul(u, Mul(Energy(x, r), SquareSum(v[1..], |v| - 1)))
  {
    hide Mul, Sq, Dot, SquareSum;
    var t := SquareSum(v[1..], |v| - 1);
    if r == 0 {
      MulZero(Mul(k, Sq(v[0])));
      MulZero(t);
      MulZero(u);
    } else {
      SpreadIsLarge(x, v, k, u, r - 1);
      var row := x[r - 1];
      var a := Dot(row, v[1..], |v| - 1);
      DotIntercept(row, v, |v| - 1);
      Young(v[0], a, k, u);
      Cauchy(row, v[1..], |v| - 1);
      MulOrder(Sq(a), Mul(SquareSum(row, |row|), t), u);
      MulSuccessor(r - 1, Mul(k, Sq(v[0])));
      MulSum(t, Energy(x, r - 1), SquareSum(row, |row|));
      MulSum(u, Mul(Energy(x, r - 1), t), Mul(SquareSum(row, |row|), t));
    }
  }

  lemma {:induction false} EnergySign(x: seq<seq<real>>, r: nat)
    requires r <= |x|
    ensures Energy(x, r) >= 0.0
  {
    if r > 0 {
      EnergySign(x, r - 1);
      SquareSumSign(x[r - 1], |x[r - 1]|);
    }
  }

  lemma FitIsCoerciveAt(x: seq<seq<real>>, y: seq<real>, rho: real, energy: real, v: seq<real>)
    requires |x| > 0 && Samples(x, y, |x[0]|) && rho > 0.0 && Energy(x, |x|) <= energy && energy >= 0.0
    requires |v| == |x[0]| + 1
    ensures CoerciveAt(NormalSystem(WithIntercept(x), y, |v|, rho), FitLambda(|x|, energy, rho), v)
  {
    hide Mul, Sq, Dot, SquareSum, Spread, NormalSystem, Kappa, Mu, Energy;
    var n, k, u := |v|, Kappa(energy, rho), Mu(energy, rho);
    var lambda := FitLambda(|x|, energy, rho);
    var t := SquareSum(v[1..], n - 1);
    KappaFacts(energy, rho);
    NormalForm(WithIntercept(x), y, rho, v);
    SpreadIsLarge(x, v, k, u, |x|);
    SquareSumTail(v, n - 1);
    SquareSumSign(v[1..], n - 1);
    SqSign(v[0]);
    MulOrder(Energy(x, |x|), energy, t);
    MulOrder(Mul(Energy(x, |x|), t), Mul(energy, t), u);
    MulAssociative(u, energy, t);
    MulOrder(Mul(u, energy), rho / 2.0, t);
    MulSum(t, rho / 2.0, rho / 2.0);
    MulAssociative(|x| as real, k, Sq(v[0]));
    MulOrder(lambda, Mul(|x| as real, k), Sq(v[0]));
    MulOrder(lambda, rho / 2.0, t);
    MulSum(lambda, Sq(v[0]), t);
  }

  /** The normal equations of any fit are coercive, with a constant known from the size of its data. */
  lemma FitIsCoercive(x: seq<seq<real>>, y: seq<real>, rho: real, energy: real)
    requires |x| > 0 && Samples(x, y, |x[0]|) && rho > 0.0 && Energy(x, |x|) <= energy && energy >= 0.0
    ensures Coercive(NormalSystem(WithIntercept(x), y, |x[0]| + 1, rho), FitLambda(|x|, energy, rho))
  {
    hide CoerciveAt, NormalSystem, FitLambda, Energy;
    var n := |x[0]| + 1;
    forall v: seq<real> | |v| == n
      ensures CoerciveAt(NormalSystem(WithIntercept(x), y, n, rho), FitLambda(|x|, energy, rho), v)
    {
      FitIsCoerciveAt(x, y, rho, energy, v);
    }
  }

  /** A fit whose constant clears the floor is the unique minimum of its objective. */
  lemma FitIsUniqueMinimum(x: seq<seq<real>>, y: seq<real>, rho: real, energy: real)
    requires |x| > 0 && Samples(x, y, |x[0]|) && rho > 0.0 && Energy(x, |x|) <= energy && energy >= 0.0
    requires Mul((|x[0]| + 1) as real, Sq(PIVOT_FLOOR)) <= Sq(FitLambda(|x|, energy, rho))
    ensures var s := NormalSystem(WithIntercept(x), y, |x[0]| + 1, rho);
            FlooredPivots(s) == {} && IsUniqueMinimum(WithIntercept(x), y, rho, Solution(s))
  {
    hide Mul, Sq, Solution, FlooredPivots, NormalSystem, Coercive, Kappa, Energy;
    var s := NormalSystem(WithIntercept(x), y, |x[0]| + 1, rho);
    FitIsCoercive(x, y, rho, energy);
    KappaFacts(energy, rho);
    MulNonNegative(|x| as real, Kappa(energy, rho));
    CoerciveIsSolved(s, FitLambda(|x|, energy, rho), Solution(s));
    RidgeIsUniqueMinimum(x, y, rho);
  }

  // ---------------------------------------------------------------------------------------
  // Standardised columns
  // ---------------------------------------------------------------------------------------

  /** The square root is a parameter: any function that answers a non-negative root. */
  ghost predicate IsRoot(root: real -> real) {
    forall v :: v >= 0.0 ==> root(v) >= 0.0 && Sq(root(v)) == v
  }

  ghost predicate Table(rows: seq<seq<real>>, width: nat) {
    |rows| > 0 && forall r :: 0 <= r < |rows| ==> |rows[r]| == width
  }

  function ColumnTotal(rows: seq<seq<real>>, c: nat, r: nat): real
    requires r <= |rows| && forall q :: 0 <= q < |rows| ==> c < |rows[q]|
  {
    if r == 0 then 0.0 else ColumnTotal(rows, c, r - 1) + rows[r - 1][c]
  }

  function Mean(rows: seq<seq<real>>, c: nat): real
    requires |rows| > 0 && forall q :: 0 <= q < |rows| ==> c < |rows[q]|
  {
    ColumnTotal(rows, c, |rows|) / |rows| as real
  }

  /** Squared deviations of a column from m over the first r rows. */
  function Deviations(rows: seq<seq<real>>, c: nat, m: real, r: nat): (d: real)
    requires r <= |rows| && forall q :: 0 <= q < |rows| ==> c < |rows[q]|
    ensures d >= 0.0
  {
    if r == 0 then 0.0
    else
      SqSign(rows[r - 1][c] - m);
      Deviations(rows, c, m, r - 1) + Sq(rows[r - 1][c] - m)
  }

  function Variance(rows: seq<seq<real>>, c: nat): real
    requires |rows| > 0 && forall q :: 0 <= q < |rows| ==> c < |rows[q]|
  {
    Deviations(rows, c, Mean(rows, c), |rows|) / |rows| as real
  }

  /** pstdev of a column, or one when that is zero. */
  function Scale(rows: seq<seq<real>>, c: nat, root: real -> real): (s: real)
    requires |rows| > 0 && forall q :: 0 <= q < |rows| ==> c < |rows[q]|
    ensures s != 0.0
  {
    var deviation := root(Variance(rows, c));
    if deviation == 0.0 then 1.0 else deviation
  }

  function Standardized(rows: seq<seq<real>>, width: nat, root: real -> real): (x: seq<seq<real>>)
    requires Table(rows, width)
    ensures Table(x, width) && |x| == |rows|
  {
    seq(|rows|, r requires 0 <= r < |rows| =>
      seq(width, c requires 0 <= c < width => (rows[r][c] - Mean(rows, c)) / Scale(rows, c, root)))
  }

  /** _standardize: means and scales per column, then every value. */
  method Standardize(rows: seq<seq<real>>, width: nat, root: real -> real) returns (x: seq<seq<real>>)
    requires Table(rows, width)
    ensures x == Standardized(rows, width, root)
  {
    hide Mean, Scale;
    var means: seq<real>, scales: seq<real> := [], [];
    for c := 0 to width
      invariant |means| == |scales| == c
      invariant forall k :: 0 <= k < c ==> means[k] == Mean(rows, k) && scales[k] == Scale(rows, k, root)
    {
      means := means + [Mean(rows, c)];
      scales := scales + [Scale(rows, c, root)];
    }
    x := [];
    for r := 0 to |rows|
      invariant x == Standardized(rows, width, root)[..r]
    {
      var row: seq<real> := [];
      for c := 0 to width
        invariant row == Standardized(rows, width, root)[r][..c]
      {
        row := row + [(rows[r][c] - means[c]) / scales[c]];
      }
      assert row == Standardized(rows, width, root)[r];
      x := x + [row];
    }
    assert x == Standardized(rows, width, root);
  }

  /** Sum of squares of column c over the first r rows. */
  function ColumnEnergy(x: seq<seq<real>>, c: nat, r: nat): real
    requires r <= |x| && forall q :: 0 <= q < |x| ==> c < |x[q]|
  {
    if r == 0 then 0.0 else ColumnEnergy(x, c, r - 1) + Sq(x[r - 1][c])
  }

  /** Sum of squares of the first c columns over the first r rows. */
  function BlockEnergy(x: seq<seq<real>>, c: nat, r: nat): real
    requires r <= |x| && forall q :: 0 <= q < |x| ==> c <= |x[q]|
  {
    if r == 0 then 0.0 else BlockEnergy(x, c, r - 1) + SquareSum(x[r - 1], c)
  }

  lemma {:induction false} BlockByColumns(x: seq<seq<real>>, c: nat, r: nat)
    requires r <= |x| && forall q :: 0 <= q < |x| ==> c < |x[q]|
    ensures BlockEnergy(x, c + 1, r) == BlockEnergy(x, c, r) + ColumnEnergy(x, c, r)
  {
    hide Sq;
    if r > 0 { BlockByColumns(x, c, r - 1); }
  }

  lemma {:induction false} BlockIsEnergy(x: seq<seq<real>>, width: nat, r: nat)
    requires r <= |x| && Table(x, width)
    ensures BlockEnergy(x, width, r) == Energy(x, r)
    ensures BlockEnergy(x, 0, r) == 0.0
  {
    if r > 0 { BlockIsEnergy(x, width, r - 1); }
  }

  /** A standardised column times the square of its scale is the column of deviations. */
  lemma {:induction false} ScaledColumn(rows: seq<seq<real>>, width: nat, root: real -> real, c: nat, r: nat)
    requires Table(rows, width) && c < width && r <= |rows|
    ensures var x := Standardized(rows, width, root);
            Mul(ColumnEnergy(x, c, r), Sq(Scale(rows, c, root))) == Deviations(rows, c, Mean(rows, c), r)
  {
    hide Mul, Sq, Mean, Scale;
    var x, s, m := Standardized(rows, width, root), Scale(rows, c, root), Mean(rows, c);
    if r == 0 {
      MulZero(Sq(s));
    } else {
      ScaledColumn(rows, width, root, c, r - 1);
      MulSum(Sq(s), ColumnEnergy(x, c, r - 1), Sq(x[r - 1][c]));
      SqOfProduct(x[r - 1][c], s);
      MulQuotient(rows[r - 1][c] - m, s);
    }
  }

  /** A standardised column has as much energy as there are rows, or none when it was constant. */
  function Column(rows: seq<seq<real>>, c: nat): (column: seq<real>)
    requires forall q :: 0 <= q < |rows| ==> c < |rows[q]|
    ensures |column| == |rows|
  {
    seq(|rows|, r requires 0 <= r < |rows| => rows[r][c])
  }

  lemma {:induction false} CentredSum(rows: seq<seq<real>>, width: nat, root: real -> real, c: nat, r: nat)
    requires Table(rows, width) && c < width && r <= |rows|
    ensures Total(Column(Standardized(rows, width, root), c), r) ==
            (ColumnTotal(rows, c, r) - Mul(r as real, Mean(rows, c))) / Scale(rows, c, root)
  {
    hide Mul, Mean, Scale;
    var s, m := Scale(rows, c, root), Mean(rows, c);
    if r == 0 {
      MulSuccessor(0, m);
      QuotientOfProduct(0.0, s);
      MulZero(s);
    } else {
      CentredSum(rows, width, root, c, r - 1);
      MulSuccessor(r - 1, m);
      QuotientSum(ColumnTotal(rows, c, r - 1) - Mul((r - 1) as real, m), rows[r - 1][c] - m, s);
    }
  }

  /** The values of a standardised column add up to zero, and differ by what the raw values differ, in units
      of the scale. */
  lemma ColumnCentred(rows: seq<seq<real>>, width: nat, root: real -> real, c: nat)
    requires Table(rows, width) && c < width
    ensures var x := Standardized(rows, width, root);
            && Sum(Column(x, c)) == 0.0
            && forall i, j :: 0 <= i < |rows| && 0 <= j < |rows| ==>
                 x[i][c] - x[j][c] == (rows[i][c] - rows[j][c]) / Scale(rows, c, root)
  {
    hide Mul, Scale, ColumnTotal;
    var n := |rows|;
    CentredSum(rows, width, root, c, n);
    MulQuotient(ColumnTotal(rows, c, n), n as real);
    MulCommutes(Mean(rows, c), n as real);
    MulZero(Scale(rows, c, root));
    QuotientOfProduct(0.0, Scale(rows, c, root));
    hide Mean;
    forall i, j | 0 <= i < n && 0 <= j < n
      ensures var x := Standardized(rows, width, root);
              x[i][c] - x[j][c] == (rows[i][c] - rows[j][c]) / Scale(rows, c, root)
    {
      QuotientSum(rows[i][c] - Mean(rows, c), rows[j][c] - Mean(rows, c), Scale(rows, c, root));
    }
  }

  lemma ColumnWithin(rows: seq<seq<real>>, width: nat, root: real -> real, c: nat)
    requires Table(rows, width) && c < width && IsRoot(root)
    ensures var e := ColumnEnergy(Standardized(rows, width, root), c, |rows|); e == |rows| as real || e == 0.0
  {
    hide Mul, Sq, Mean;
    var n := |rows| as real;
    var d, e := Deviations(rows, c, Mean(rows, c), |rows|), ColumnEnergy(Standardized(rows, width, root), c, |rows|);
    var deviation := root(Variance(rows, c));
    NonNegativeQuotient(d, n);
    ScaledColumn(rows, width, root, c, |rows|);
    MulQuotient(d, n);
    if deviation == 0.0 {
      SquareOfZero();
      MulZero(n);
      MulOne(e);
      SqOne();
    } else {
      // e v == d == v n, and v is not zero
      SqSign(deviation);
      MulCommutes(d / n, n);
      SameTimes(e, n, d / n);
    }
  }

  lemma NonNegativeQuotient(a: real, d: real)
    requires a >= 0.0 && d > 0.0
    ensures a / d >= 0.0
  {}

  lemma {:induction false} StandardizedEnergy(rows: seq<seq<real>>, width: nat, root: real -> real, c: nat)
    requires Table(rows, width) && c <= width && IsRoot(root)
    ensures BlockEnergy(Standardized(rows, width, root), c, |rows|) <= Mul(c as real, |rows| as real)
  {
    hide Standardized, Mul, BlockEnergy, ColumnEnergy;
    var x := Standardized(rows, width, root);
    if c == 0 {
      BlockIsEnergy(x, width, |rows|);
      MulZero(|rows| as real);
    } else {
      StandardizedEnergy(rows, width, root, c - 1);
      BlockByColumns(x, c - 1, |rows|);
      ColumnWithin(rows, width, root, c - 1);
      MulSuccessor(c - 1, |rows| as real);
    }
  }

  // ---------------------------------------------------------------------------------------
  // The two arms
  // ---------------------------------------------------------------------------------------

  /** The entries of the first k observations that belong to one arm. */
  function Arm<T>(values: seq<T>, treated: seq<bool>, want: bool, k: nat): (a: seq<T>)
    requires k <= |values| == |treated|
    ensures |a| == ArmSize(treated, want, k)
  {
    if k == 0 then []
    else Arm(values, treated, want, k - 1) + (if treated[k - 1] == want then [values[k - 1]] else [])
  }

  function ArmSize(treated: seq<bool>, want: bool, k: nat): nat
    requires k <= |treated|
  {
    if k == 0 then 0 else ArmSize(treated, want, k - 1) + (if treated[k - 1] == want then 1 else 0)
  }

  /** The first k observations of one arm. */
  ghost function Members(treated: seq<bool>, want: bool, k: nat): set<nat>
    requires k <= |treated|
  {
    set i: nat | i < k && treated[i] == want
  }

  lemma {:induction false} ArmSizeCounts(treated: seq<bool>, want: bool, k: nat)
    requires k <= |treated|
    ensures ArmSize(treated, want, k) == |Members(treated, want, k)|
  {
    if k == 0 {
      assert Members(treated, want, 0) == {};
    } else {
      ArmSizeCounts(treated, want, k - 1);
      var before, after := Members(treated, want, k - 1), Members(treated, want, k);
      if treated[k - 1] == want { assert after == before + {k - 1}; } else { assert after == before; }
    }
  }

  /** An arm has the values of its members, in order and no others. */
  lemma {:induction false} ArmPicks<T>(values: seq<T>, treated: seq<bool>, want: bool, k: nat, i: nat)
    requires i < k <= |values| == |treated| && treated[i] == want
    ensures var a := Arm(values, treated, want, k);
            && |a| == |Members(treated, want, k)|
            && |Members(treated, want, i)| < |a| && a[|Members(treated, want, i)|] == values[i]
  {
    ArmSizeCounts(treated, want, k);
    ArmSizeCounts(treated, want, i);
    if i < k - 1 {
      ArmPicks(values, treated, want, k - 1, i);
      ArmSizeCounts(treated, want, k - 1);
    }
  }

  lemma {:induction false} EnergyPrefix(a: seq<seq<real>>, b: seq<seq<real>>, r: nat)
    requires r <= |a| && a <= b
    ensures Energy(a, r) == Energy(b, r)
  {
    if r > 0 { EnergyPrefix(a, b, r - 1); }
  }

  /** An arm has no more energy than all observations. */
  lemma {:induction false} ArmEnergy(x: seq<seq<real>>, treated: seq<bool>, want: bool, width: nat, k: nat)
    requires k <= |x| == |treated| && forall r :: 0 <= r < |x| ==> |x[r]| == width
    ensures var a := Arm(x, treated, want, k);
            Energy(a, |a|) <= Energy(x, k) && forall r :: 0 <= r < |a| ==> |a[r]| == width
  {
    hide SquareSum;
    if k > 0 {
      ArmEnergy(x, treated, want, width, k - 1);
      var before, after := Arm(x, treated, want, k - 1), Arm(x, treated, want, k);
      SquareSumSign(x[k - 1], width);
      if treated[k - 1] == want {
        EnergyPrefix(before, after, |before|);
      } else {
        assert after == before;
      }
    }
  }

  /** Up to a million covariate values, the constant of an arm's fit clears the floor by far. */
  lemma LambdaIsLarge(n: nat, width: nat, m: nat)
    requires n >= LEAST_OBSERVATIONS && m >= LEAST_ARM && n * width <= 1000000
    ensures Mul((width + 1) as real, Sq(PIVOT_FLOOR)) <= Sq(FitLambda(m, (n * width) as real, REGULARIZATION))
  {
    hide Mul;
    var energy := (n * width) as real;
    var kappa := Kappa(energy, REGULARIZATION);
    var lambda := FitLambda(m, energy, REGULARIZATION);
    KappaIsLarge(energy);
    MulOrder(10.0, m as real, kappa);
    MulIs(10.0, kappa);
    SqMonotone(0.0000001, lambda);
    MulIs(0.0000001, 0.0000001);
    WidthWithin(n, width);
    MulIs(PIVOT_FLOOR, PIVOT_FLOOR);
    MulOrder((width + 1) as real, 1000000.0, Sq(PIVOT_FLOOR));
    MulIs(1000000.0, Sq(PIVOT_FLOOR));
  }

  lemma WidthWithin(n: nat, width: nat)
    requires n >= LEAST_OBSERVATIONS && n * width <= 1000000
    ensures width <= 25000
  {
    assert n * width >= 40 * width;
  }

  lemma KappaIsLarge(energy: real)
    requires 0.0 <= energy <= 1000000.0
    ensures Kappa(energy, REGULARIZATION) >= 0.00000001
  {
    hide Mul;
    var d := 2.0 * energy + 2.0 * REGULARIZATION;
    QuotientOrder(0.00000001 * d, REGULARIZATION, d);
    QuotientOfProduct(0.00000001, d);
    MulIs(0.00000001, d);
  }

  /** The observations an estimate is made from; all have the same covariates. */
  datatype Study = Study(covariates: seq<seq<real>>, treated: seq<bool>, outcome: seq<real>, width: nat)
  {
    ghost predicate Valid() {
      |covariates| == |treated| == |outcome| && forall r :: 0 <= r < |covariates| ==> |covariates[r]| == width
    }

    /** The estimate is attempted at all. */
    predicate Sufficient()
      requires |treated| == |covariates|
    {
      && |covariates| >= LEAST_OBSERVATIONS && width > 0
      && ArmSize(treated, true, |treated|) >= LEAST_ARM && ArmSize(treated, false, |treated|) >= LEAST_ARM
    }
  }

  function ArmRows(s: Study, root: real -> real, want: bool): seq<seq<real>>
    requires s.Valid() && s.Sufficient()
  {
    Arm(Standardized(s.covariates, s.width, root), s.treated, want, |s.treated|)
  }

  function ArmTargets(s: Study, want: bool): seq<real>
    requires s.Valid() && s.Sufficient()
  {
    Arm(s.outcome, s.treated, want, |s.treated|)
  }

  /** The weights are the one minimum of the arm's squared error plus penalty. */
  ghost predicate BestFit(s: Study, root: real -> real, want: bool, w: seq<real>)
    requires s.Valid() && s.Sufficient()
  {
    var x, y := ArmRows(s, root, want), ArmTargets(s, want);
    |w| == s.width + 1 && Samples(WithIntercept(x), y, |w|) && IsUniqueMinimum(WithIntercept(x), y, 0.05, w)
  }

  /** Every arm of a study of up to a million covariate values is fitted without flooring a pivot. */
  lemma ArmFitIsUniqueMinimum(s: Study, root: real -> real, want: bool)
    requires s.Valid() && s.Sufficient() && IsRoot(root) && |s.covariates| * s.width <= 1000000
    ensures var x, y := ArmRows(s, root, want), ArmTargets(s, want);
            && |x| > 0 && |x[0]| == s.width && Samples(x, y, s.width)
            && FlooredPivots(NormalSystem(WithIntercept(x), y, s.width + 1, REGULARIZATION)) == {}
            && BestFit(s, root, want, Solution(NormalSystem(WithIntercept(x), y, s.width + 1, REGULARIZATION)))
  {
    hide Mul, Sq, Solution, FlooredPivots, NormalSystem, Standardized, Energy, BlockEnergy, FitLambda, IsUniqueMinimum;
    var z, n := Standardized(s.covariates, s.width, root), |s.covariates|;
    var x, y := ArmRows(s, root, want), ArmTargets(s, want);
    ArmEnergy(z, s.treated, want, s.width, n);
    StandardizedEnergy(s.covariates, s.width, root, s.width);
    BlockIsEnergy(z, s.width, n);
    MulIs(s.width as real, n as real);
    assert (n * s.width) as real == s.width as real * n as real;
    LambdaIsLarge(n, s.width, |x|);
    FitIsUniqueMinimum(x, y, REGULARIZATION, (n * s.width) as real);
  }

  /** The fits of the estimate: none for insufficient evidence, else the weights of both arms, each the
      unique minimum of its objective for studies of up to a million covariate values. */
  method FitArms(s: Study, root: real -> real) returns (fits: Option<(seq<real>, seq<real>)>)
    requires s.Valid() && IsRoot(root)
    ensures fits.Some? <==> s.Sufficient()
    ensures fits.None? <==>
            var n := |s.treated|;
            n < 40 || s.width == 0 || |Members(s.treated, true, n)| < 10 || |Members(s.treated, false, n)| < 10
    ensures fits.Some? && |s.covariates| * s.width <= 1000000 ==>
              BestFit(s, root, true, fits.value.0) && BestFit(s, root, false, fits.value.1)
  {
    hide Standardized, Solution, FlooredPivots, NormalSystem, BestFit, Arm, Members;
    ArmSizeCounts(s.treated, true, |s.treated|);
    ArmSizeCounts(s.treated, false, |s.treated|);
    if !s.Sufficient() {
      return None;
    }
    var x := Standardize(s.covariates, s.width, root);
    var treatedX := SelectArm(x, s.treated, true);
    var controlX := SelectArm(x, s.treated, false);
    var treatedY := SelectArm(s.outcome, s.treated, true);
    var controlY := SelectArm(s.outcome, s.treated, false);
    ArmEnergy(x, s.treated, true, s.width, |x|);
    ArmEnergy(x, s.treated, false, s.width, |x|);
    var outcomeTreated := FitRidge(treatedX, treatedY, REGULARIZATION);
    var outcomeControl := FitRidge(controlX, controlY, REGULARIZATION);
    if |s.covariates| * s.width <= 1000000 {
      ArmFitIsUniqueMinimum(s, root, true);
      ArmFitIsUniqueMinimum(s, root, false);
    }
    return Some((outcomeTreated, outcomeControl));
  }

  method SelectArm<T>(values: seq<T>, treated: seq<bool>, want: bool) returns (a: seq<T>)
    requires |values| == |treated|
    ensures a == Arm(values, treated, want, |treated|)
  {
    a := [];
    for k := 0 to |values|
      invariant a == Arm(values, treated, want, k)
    {
      if treated[k] == want {
        a := a + [values[k]];
      }
    }
  }
}
