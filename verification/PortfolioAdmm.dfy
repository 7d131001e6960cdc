/** Consensus ADMM for splitting a portfolio target over bounded resources with quadratic costs
    (coordinate_portfolio_admm in advanced_ems.py). */
module PortfolioAdmm {
  import opened RealMath
  import opened BoundedProjection

  const LEAST_QUADRATIC: real := 0.00000001

  datatype Resource = Resource(minimumKw: real, maximumKw: real, quadraticCost: real, linearCost: real)

  datatype Portfolio = Portfolio(lower: seq<real>, upper: seq<real>, quadratic: seq<real>, linear: seq<real>,
                                 target: real, rho: real)
  {
    ghost predicate Shaped() {
      |lower| == |upper| == |quadratic| == |linear|
    }

    ghost predicate Valid() {
      && Shaped() && |lower| >= 2
      && Attainable(lower, upper, target)
      && (forall i :: 0 <= i < |quadratic| ==> quadratic[i] > 0.0)
      && rho > 0.0
    }

    /** In bounds, and exactly on target. */
    ghost predicate Feasible(y: seq<real>)
      requires Shaped()
    {
      InBox(y, lower, upper) && Sum(y) == target
    }
  }

  datatype Iterate = Iterate(x: seq<real>, z: seq<real>, dual: seq<real>)
  {
    ghost predicate Sized(n: nat) { |x| == n && |z| == n && |dual| == n }
  }

  // ---------------------------------------------------------------------------------------
  // The iteration as functions
  // ---------------------------------------------------------------------------------------

  /** The minimiser of one resource's cost plus the quadratic coupling, clipped to its bounds. */
  function LocalMinimum(quadratic: real, linear: real, rho: real, z: real, dual: real, low: real, high: real): real
    requires quadratic > 0.0 && rho > 0.0
  {
    Clip((Mul(rho, z - dual) - linear) / (quadratic + rho), low, high)
  }

  function LocalStep(p: Portfolio, z: seq<real>, dual: seq<real>): (x: seq<real>)
    requires p.Valid() && |z| == |dual| == |p.lower|
    ensures |x| == |p.lower|
  {
    seq(|z|, i requires 0 <= i < |z| =>
      LocalMinimum(p.quadratic[i], p.linear[i], p.rho, z[i], dual[i], p.lower[i], p.upper[i]))
  }

  function Coupling(p: Portfolio, values: seq<real>): (q: Problem)
    requires p.Valid() && |values| == |p.lower|
    ensures q.Valid()
  {
    Problem(values, p.lower, p.upper, p.target)
  }

  function Step(p: Portfolio, s: Iterate, argsort: seq<real> -> seq<nat>): (t: Iterate)
    requires p.Valid() && s.Sized(|p.lower|) && IsArgsort(argsort)
    ensures t.Sized(|p.lower|)
  {
    var x := LocalStep(p, s.z, s.dual);
    var z := Projection(Coupling(p, Added(x, s.dual)), argsort);
    Iterate(x, z, seq(|x|, i requires 0 <= i < |x| => s.dual[i] + (x[i] - z[i])))
  }

  function Initial(p: Portfolio, argsort: seq<real> -> seq<nat>): (s: Iterate)
    requires p.Valid() && IsArgsort(argsort)
    ensures s.Sized(|p.lower|)
  {
    var n := |p.lower|;
    var x := seq(n, i requires 0 <= i < n => Clip(p.target / n as real, p.lower[i], p.upper[i]));
    Iterate(x, Projection(Coupling(p, x), argsort), seq(n, i => 0.0))
  }

  function Iterated(p: Portfolio, argsort: seq<real> -> seq<nat>, k: nat): (s: Iterate)
    requires p.Valid() && IsArgsort(argsort)
    ensures s.Sized(|p.lower|)
  {
    if k == 0 then Initial(p, argsort) else Step(p, Iterated(p, argsort, k - 1), argsort)
  }

  /** Both residual norms are within tolerance, stated on their squares. */
  predicate Settled(p: Portfolio, before: Iterate, after: Iterate, tolerance: real)
    requires before.Sized(|p.lower|) && after.Sized(|p.lower|)
  {
    && SquareDistance(after.x, after.z, |p.lower|) <= Sq(tolerance)
    && Mul(Sq(p.rho), SquareDistance(after.z, before.z, |p.lower|)) <= Sq(tolerance)
  }

  predicate SettledAt(p: Portfolio, argsort: seq<real> -> seq<nat>, tolerance: real, k: nat)
    requires p.Valid() && IsArgsort(argsort) && k > 0
  {
    Settled(p, Iterated(p, argsort, k - 1), Iterated(p, argsort, k), tolerance)
  }

  function Build(resources: seq<Resource>, target: real, rho: real): (p: Portfolio)
    ensures p.Shaped() && |p.lower| == |resources| && p.target == target && p.rho == rho
    ensures forall i :: 0 <= i < |resources| ==>
              && p.lower[i] == resources[i].minimumKw && p.upper[i] == resources[i].maximumKw
              && p.linear[i] == resources[i].linearCost
              && p.quadratic[i] >= LEAST_QUADRATIC && p.quadratic[i] >= resources[i].quadraticCost
              && (p.quadratic[i] == LEAST_QUADRATIC || p.quadratic[i] == resources[i].quadraticCost)
  {
    var n := |resources|;
    Portfolio(seq(n, i requires 0 <= i < n => resources[i].minimumKw),
              seq(n, i requires 0 <= i < n => resources[i].maximumKw),
              seq(n, i requires 0 <= i < n => Max(LEAST_QUADRATIC, resources[i].quadraticCost)),
              seq(n, i requires 0 <= i < n => resources[i].linearCost),
              target, rho)
  }

  // ---------------------------------------------------------------------------------------
  // One local step
  // ---------------------------------------------------------------------------------------

  function UnitCost(quadratic: real, linear: real, y: real): real {
    0.5 * Mul(quadratic, Sq(y)) + Mul(linear, y)
  }

  /** Total local cost of the first k resources. */
  function Cost(p: Portfolio, y: seq<real>, k: nat): real
    requires p.Shaped() && k <= |y| == |p.lower|
  {
    if k == 0 then 0.0 else Cost(p, y, k - 1) + UnitCost(p.quadratic[k - 1], p.linear[k - 1], y[k - 1])
  }

  /** Half the cost-weighted squared distance between two allocations. */
  function Curvature(p: Portfolio, a: seq<real>, b: seq<real>, k: nat): real
    requires p.Shaped() && k <= |a| == |b| == |p.lower|
  {
    if k == 0 then 0.0 else Curvature(p, a, b, k - 1) + 0.5 * Mul(p.quadratic[k - 1], Sq(a[k - 1] - b[k - 1]))
  }

  /** Sum of (a - b)(c - d) over the first k entries. */
  function Gain(a: seq<real>, b: seq<real>, c: seq<real>, d: seq<real>, k: nat): real
    requires k <= |a| && k <= |b| && k <= |c| && k <= |d|
  {
    if k == 0 then 0.0 else Gain(a, b, c, d, k - 1) + Mul(a[k - 1] - b[k - 1], c[k - 1] - d[k - 1])
  }

  lemma ClipInequality(a: real, low: real, high: real, y: real)
    requires low <= y <= high
    ensures var x := Clip(a, low, high); Mul(a - x, x - y) >= 0.0
  {
    hide Mul;
    var x := Clip(a, low, high);
    if a > x {
      MulNonNegative(a - x, x - y);
    } else if a < x {
      MulNonNegative(x - a, y - x);
      MulNegated(a - x, x - y);
      MulNegated(x - a, x - y);
    } else {
      MulZero(x - y);
    }
  }

  lemma CostExpands(q: real, c: real, x: real, y: real)
    ensures UnitCost(q, c, y) == UnitCost(q, c, x) + Mul(Mul(q, x) + c, y - x) + 0.5 * Mul(q, Sq(y - x))
  {
    hide Mul;
    var d := y - x;
    hide Sq;
    SqSum(x, d);
    assert Sq(y) == Sq(x) + 2.0 * Mul(x, d) + Sq(d);
    MulSum(q, Sq(x) + 2.0 * Mul(x, d), Sq(d));
    MulSum(q, Sq(x), 2.0 * Mul(x, d));
    MulSum(q, Mul(x, d), Mul(x, d));
    MulAssociative(q, x, d);
    MulSum(d, Mul(q, x), c);
    MulSum(c, x, d);
  }

  /** The local step is optimal for its coupling: against any other point of its bounds. */
  lemma LocalOptimal(q: real, c: real, rho: real, z: real, u: real, low: real, high: real, y: real)
    requires q > 0.0 && rho > 0.0 && low <= y <= high
    ensures var x := LocalMinimum(q, c, rho, z, u, low, high);
            UnitCost(q, c, x) + 0.5 * Mul(q, Sq(y - x)) <= UnitCost(q, c, y) + Mul(rho, Mul(x + u - z, y - x))
  {
    hide Mul, Sq;
    var a := (Mul(rho, z - u) - c) / (q + rho);
    var x := Clip(a, low, high);
    ClipInequality(a, low, high, y);
    CostExpands(q, c, x, y);
    MulQuotient(Mul(rho, z - u) - c, q + rho);
    // (q + rho)(a - x) = rho (z - u) - c - q x - rho x
    MulCommutes(a, q + rho);
    MulSum(a, q, rho);
    var slope := Mul(q, x) + c;
    LocalSlope(q, rho, c, z - u, a, x);
    MulNonNegative(q + rho, Mul(a - x, x - y));
    MulAssociative(q + rho, a - x, x - y);
    var g := Mul(q + rho, a - x);
    assert g == -(slope + Mul(rho, x + u - z));
    MulNegated(g, y - x);
    MulNegated(g, x - y);
    MulSum(y - x, slope, Mul(rho, x + u - z));
    MulAssociative(rho, x + u - z, y - x);
  }

  lemma LocalSlope(q: real, rho: real, c: real, w: real, a: real, x: real)
    requires Mul(q + rho, a) == Mul(rho, w) - c
    ensures Mul(q + rho, a - x) == -(Mul(q, x) + c + Mul(rho, x - w))
  {
    hide Mul;
    MulSum(q + rho, a, -x);
    MulNegated(q + rho, x);
    MulSum(x, q, rho);
    MulSum(rho, x, -w);
    MulNegated(rho, w);
  }

  /** Cost of the local step against any in-bounds allocation, summed over the resources. */
  lemma {:induction false} LocalStepBound(p: Portfolio, z: seq<real>, dual: seq<real>, y: seq<real>, k: nat)
    requires p.Valid() && |z| == |dual| == |p.lower| && InBox(y, p.lower, p.upper) && k <= |y|
    ensures var x := LocalStep(p, z, dual);
            Cost(p, x, k) + Curvature(p, y, x, k) <= Cost(p, y, k) + Mul(p.rho, Gain(Added(x, dual), z, y, x, k))
  {
    hide Mul, Sq, LocalMinimum, UnitCost, Sum;
    if k == 0 {
      MulZero(p.rho);
    } else {
      LocalStepBound(p, z, dual, y, k - 1);
      var i := k - 1;
      var x := LocalStep(p, z, dual);
      LocalOptimal(p.quadratic[i], p.linear[i], p.rho, z[i], dual[i], p.lower[i], p.upper[i], y[i]);
      MulSum(p.rho, Gain(Added(x, dual), z, y, x, i), Mul(x[i] + dual[i] - z[i], y[i] - x[i]));
    }
  }

  // ---------------------------------------------------------------------------------------
  // The projection's side of the optimality condition
  // ---------------------------------------------------------------------------------------

  /** The exact projection solves the variational inequality of the box and the target. */
  lemma {:induction false} ExactInequality(q: Problem, mu: real, y: seq<real>, k: nat)
    requires q.Valid() && InBox(y, q.lower, q.upper) && k <= |y|
    ensures var e := Shifted(q.values, q.lower, q.upper, mu);
            Gain(q.values, e, y, e, k) <= Mul(mu, Total(y, k) - Total(e, k))
  {
    hide Mul, Clip, Sum;
    if k == 0 {
      MulZero(mu);
    } else {
      var i := k - 1;
      var e := Shifted(q.values, q.lower, q.upper, mu);
      ExactInequality(q, mu, y, i);
      ClipInequality(q.values[i] - mu, q.lower[i], q.upper[i], y[i]);
      var d := y[i] - e[i];
      MulSum(d, q.values[i] - e[i], -mu);
      MulNegated(mu, d);
      MulNegated(q.values[i] - mu - e[i], d);
      MulSum(mu, Total(y, i) - Total(e, i), d);
      assert (q.values[i] - e[i]) + (-mu) == q.values[i] - mu - e[i];
    }
  }

  /** Moving the reference point from e to z costs at most twice the reach times the distance. */
  lemma {:induction false} InequalityMoves(v: seq<real>, e: seq<real>, z: seq<real>, y: seq<real>, reach: real, k: nat)
    requires k <= |v| && k <= |e| && k <= |z| && k <= |y| && reach >= 0.0
    requires forall i :: 0 <= i < k ==> Abs(v[i] - e[i]) <= reach && Abs(y[i] - z[i]) <= reach
    ensures Gain(v, z, y, z, k) <= Gain(v, e, y, e, k) + 2.0 * Mul(reach, Distance1(z, e, k))
  {
    hide Mul;
    if k == 0 {
      MulZero(reach);
    } else {
      var i := k - 1;
      InequalityMoves(v, e, z, y, reach, i);
      var a, b, d := v[i] - e[i], y[i] - z[i], e[i] - z[i];
      // (a + d) b == a (b - d) + a d + d b
      MulSum(b, a, d);
      MulSum(a, b - d, d);
      ProductWithin(a, d, reach);
      ProductWithin(b, d, reach);
      MulCommutes(d, b);
      MulSum(reach, Distance1(z, e, i), Abs(z[i] - e[i]));
      assert v[i] - z[i] == a + d && y[i] - e[i] == b - d;
    }
  }

  lemma ProductWithin(a: real, d: real, reach: real)
    requires Abs(a) <= reach
    ensures Mul(a, d) <= Mul(reach, Abs(d))
  {
    hide Mul;
    if d >= 0.0 {
      MulOrder(a, reach, d);
    } else {
      MulOrder(-a, reach, -d);
      MulNegated(-a, d);
      MulNegated(a, d);
    }
  }

  /** Every value and bound is at most this far from zero, per coordinate and in sum. */
  ghost predicate Reaches(q: Problem, reach: real)
    requires |q.values| == |q.lower| == |q.upper|
  {
    forall i :: 0 <= i < |q.values| ==> Abs(q.values[i]) + Abs(q.lower[i]) + Abs(q.upper[i]) <= reach
  }

  lemma ProjectionInequality(q: Problem, argsort: seq<real> -> seq<nat>, y: seq<real>, reach: real)
    requires q.Valid() && IsArgsort(argsort) && InBox(y, q.lower, q.upper) && Sum(y) == q.target && Reaches(q, reach)
    ensures var z := Projection(q, argsort);
            Gain(q.values, z, y, z, |y|) <= 4.0 * Mul(reach, Abs(Shortfall(q)))
  {
    hide Mul, Total, Gain, Distance1, Shifted, Coarse, Shortfall, Projection;
    var n := |y|;
    var z := Projection(q, argsort);
    var mu := ExactMultiplier(q);
    var e := Shifted(q.values, q.lower, q.upper, mu);
    ShiftedInBox(q, mu);
    ProjectionFeasible(q, argsort);
    ProjectionError(q, argsort, mu);
    ExactInequality(q, mu, y, n);
    MulZero(mu);
    Within(q, e, z, y, reach);
    InequalityMoves(q.values, e, z, y, reach, n);
    MulOrder(Distance1(z, e, n), 2.0 * Abs(Shortfall(q)), reach);
    MulSum(reach, Abs(Shortfall(q)), Abs(Shortfall(q)));
  }

  lemma Within(q: Problem, e: seq<real>, z: seq<real>, y: seq<real>, reach: real)
    requires q.Valid() && Reaches(q, reach)
    requires InBox(e, q.lower, q.upper) && InBox(z, q.lower, q.upper) && InBox(y, q.lower, q.upper)
    ensures reach >= 0.0
    ensures forall i :: 0 <= i < |y| ==> Abs(q.values[i] - e[i]) <= reach && Abs(y[i] - z[i]) <= reach
  {
    hide Sum;
    assert Abs(q.values[0]) + Abs(q.lower[0]) + Abs(q.upper[0]) <= reach;
  }

  // ---------------------------------------------------------------------------------------
  // Main results
  // ---------------------------------------------------------------------------------------

  /** Every consensus iterate is in bounds and on target up to the projection's tolerance. */
  lemma IteratesStayFeasible(p: Portfolio, argsort: seq<real> -> seq<nat>, k: nat)
    requires p.Valid() && IsArgsort(argsort)
    ensures var z := Iterated(p, argsort, k).z;
            InBox(z, p.lower, p.upper) && Abs(Sum(z) - p.target) < TOLERANCE
  {
    hide Sum, Projection, Coarse, Shortfall;
    if k == 0 {
      ProjectionFeasible(Coupling(p, Initial(p, argsort).x), argsort);
    } else {
      var s := Iterated(p, argsort, k - 1);
      ProjectionFeasible(Coupling(p, Added(LocalStep(p, s.z, s.dual), s.dual)), argsort);
    }
  }

  lemma {:induction false} GainSplits(x: seq<real>, u: seq<real>, z: seq<real>, z': seq<real>, u': seq<real>,
                                      y: seq<real>, k: nat)
    requires |x| == |u| == |z| == |z'| == |u'| == |y| && k <= |x|
    requires forall i :: 0 <= i < |x| ==> u'[i] == u[i] + (x[i] - z'[i])
    ensures Gain(Added(x, u), z, y, x, k) ==
            Gain(Added(x, u), z', y, z', k) - Product(u', x, z', k) + Gain(z', z, y, x, k)
  {
    hide Mul;
    if k > 0 {
      var i := k - 1;
      GainSplits(x, u, z, z', u', y, i);
      var w := u'[i];
      // (w + (z' - z))(y - x) with y - x == (y - z') - (x - z')
      MulSum(y[i] - x[i], w, z'[i] - z[i]);
      MulSum(w, y[i] - z'[i], -(x[i] - z'[i]));
      MulNegated(w, x[i] - z'[i]);
      assert x[i] + u[i] - z[i] == w + (z'[i] - z[i]) && x[i] + u[i] - z'[i] == w;
    }
  }

  /** Inner product of the dual with the primal residual x - z. */
  function Product(dual: seq<real>, x: seq<real>, z: seq<real>, k: nat): real
    requires k <= |dual| && k <= |x| && k <= |z|
  {
    if k == 0 then 0.0 else Product(dual, x, z, k - 1) + Mul(dual[k - 1], x[k - 1] - z[k - 1])
  }

  /** Suboptimality certificate, valid at every iteration: the local allocation costs no more than any
      feasible allocation, up to the dual times the primal residual, the dual residual, and the
      projection's own error. */
  lemma StepCertificate(p: Portfolio, s: Iterate, argsort: seq<real> -> seq<nat>, y: seq<real>, reach: real)
    requires p.Valid() && s.Sized(|p.lower|) && IsArgsort(argsort) && p.Feasible(y)
    requires Reaches(Coupling(p, Added(LocalStep(p, s.z, s.dual), s.dual)), reach)
    ensures var t := Step(p, s, argsort);
            var q := Coupling(p, Added(t.x, s.dual));
            var n := |y|;
            Cost(p, t.x, n) + Curvature(p, y, t.x, n) <=
            Cost(p, y, n) + Mul(p.rho, 4.0 * Mul(reach, Abs(Shortfall(q)))
                                       - Product(t.dual, t.x, t.z, n) + Gain(t.z, s.z, y, t.x, n))
  {
    hide Mul, Sum, Gain, Product, Cost, Curvature, Shortfall, Projection, LocalStep;
    var t := Step(p, s, argsort);
    var q := Coupling(p, Added(t.x, s.dual));
    var n := |y|;
    LocalStepBound(p, s.z, s.dual, y, n);
    ProjectionInequality(q, argsort, y, reach);
    GainSplits(t.x, s.dual, s.z, t.z, t.dual, y, n);
    MulOrder(Gain(Added(t.x, s.dual), s.z, y, t.x, n),
             4.0 * Mul(reach, Abs(Shortfall(q))) - Product(t.dual, t.x, t.z, n) + Gain(t.z, s.z, y, t.x, n), p.rho);
  }

  lemma {:induction false} ZeroResiduals(dual: seq<real>, x: seq<real>, y: seq<real>, k: nat)
    requires k <= |dual| && k <= |x| && k <= |y|
    ensures Product(dual, x, x, k) == 0.0 && Gain(x, x, y, x, k) == 0.0
  {
    hide Mul;
    if k > 0 {
      ZeroResiduals(dual, x, y, k - 1);
      MulZero(dual[k - 1]);
      MulZero(y[k - 1] - x[k - 1]);
    }
  }

  lemma {:induction false} CurvaturePositive(p: Portfolio, a: seq<real>, b: seq<real>, k: nat)
    requires p.Valid() && k <= |a| == |b| == |p.lower|
    ensures Curvature(p, a, b, k) >= 0.0
    ensures a[..k] != b[..k] ==> Curvature(p, a, b, k) > 0.0
  {
    hide Sq, Mul, Sum;
    if k > 0 {
      CurvaturePositive(p, a, b, k - 1);
      SqSign(a[k - 1] - b[k - 1]);
      MulNonNegative(p.quadratic[k - 1], Sq(a[k - 1] - b[k - 1]));
      if a[k - 1] != b[k - 1] { MulPositive(p.quadratic[k - 1], Sq(a[k - 1] - b[k - 1])); }
      assert a[..k] == a[..k - 1] + [a[k - 1]];
      assert b[..k] == b[..k - 1] + [b[k - 1]];
    }
  }

  // ---------------------------------------------------------------------------------------
  // Explicit bounds on the returned allocation
  // ---------------------------------------------------------------------------------------

  /** How far the values and bounds of the first k entries reach. */
  function ReachUpTo(q: Problem, k: nat): (r: real)
    requires |q.values| == |q.lower| == |q.upper| && k <= |q.values|
    ensures forall i :: 0 <= i < k ==> Abs(q.values[i]) + Abs(q.lower[i]) + Abs(q.upper[i]) <= r
  {
    if k == 0 then 0.0
    else Max(ReachUpTo(q, k - 1), Abs(q.values[k - 1]) + Abs(q.lower[k - 1]) + Abs(q.upper[k - 1]))
  }

  function Reach(q: Problem): (r: real)
    requires |q.values| == |q.lower| == |q.upper|
    ensures Reaches(q, r)
  {
    ReachUpTo(q, |q.values|)
  }

  /** What one hundred halvings can leave to the greedy correction. */
  function ProjectionGap(q: Problem): real
    requires |q.values| == |q.lower| == |q.upper| > 0
  {
    PowerPositive(HALVINGS + 1);
    Mul(|q.values| as real, q.Start().high - q.Start().low) / PowerOfTwo(HALVINGS + 1)
  }

  lemma ShortfallWithinGap(q: Problem)
    requires q.Valid()
    ensures Abs(Shortfall(q)) <= ProjectionGap(q)
  {
    hide Mul, PowerOfTwo, CoarseAt, Sum;
    BisectionGap(q, HALVINGS);
    PowerPositive(HALVINGS + 1);
    CoarseIs(q);
    var gap := Abs(Shortfall(q));
    QuotientOrder(Mul(gap, PowerOfTwo(HALVINGS + 1)), Mul(|q.values| as real, q.Start().high - q.Start().low),
                  PowerOfTwo(HALVINGS + 1));
    QuotientOfProduct(gap, PowerOfTwo(HALVINGS + 1));
  }

  /** The cost of the projection's inexactness: nothing but bounds, values and the bisection enter. */
  function ProjectionSlack(p: Portfolio, values: seq<real>): real
    requires p.Valid() && |values| == |p.lower|
  {
    var q := Coupling(p, values);
    Mul(p.rho, 4.0 * Mul(Reach(q), ProjectionGap(q)))
  }

  lemma SlackCovers(p: Portfolio, values: seq<real>)
    requires p.Valid() && |values| == |p.lower|
    ensures var q := Coupling(p, values);
            Mul(p.rho, 4.0 * Mul(Reach(q), Abs(Shortfall(q)))) <= ProjectionSlack(p, values)
  {
    hide Mul, Reach, ProjectionGap, Shortfall, Attainable;
    var q := Coupling(p, values);
    ShortfallWithinGap(q);
    assert Reaches(q, Reach(q));
    assert Reach(q) >= 0.0 by { assert Abs(q.values[0]) + Abs(q.lower[0]) + Abs(q.upper[0]) <= Reach(q); }
    MulOrder(Abs(Shortfall(q)), ProjectionGap(q), Reach(q));
    MulOrder(4.0 * Mul(Reach(q), Abs(Shortfall(q))), 4.0 * Mul(Reach(q), ProjectionGap(q)), p.rho);
  }

  /** An iteration with both residuals zero: its allocation costs at most the projection's slack more than
      any feasible one, and it is the unique cheapest if the bisection left nothing to correct. */
  lemma FixedPointIsOptimal(p: Portfolio, s: Iterate, argsort: seq<real> -> seq<nat>, y: seq<real>)
    requires p.Valid() && s.Sized(|p.lower|) && IsArgsort(argsort) && p.Feasible(y)
    requires var t := Step(p, s, argsort); t.x == t.z && t.z == s.z
    ensures var t := Step(p, s, argsort);
            Cost(p, t.z, |y|) + Curvature(p, y, t.z, |y|) <= Cost(p, y, |y|) + ProjectionSlack(p, Added(t.z, s.dual))
    ensures var t := Step(p, s, argsort);
            Shortfall(Coupling(p, Added(t.z, s.dual))) == 0.0 ==>
              p.Feasible(t.z) && (y != t.z ==> Cost(p, t.z, |y|) < Cost(p, y, |y|))
  {
    hide Mul, Sum, Gain, Product, Cost, Curvature, Shifted, Projection, LocalStep, Shortfall, IsNearest, Reach,
        ProjectionSlack;
    var t := Step(p, s, argsort);
    var q := Coupling(p, Added(t.x, s.dual));
    var n := |y|;
    StepCertificate(p, s, argsort, y, Reach(q));
    ZeroResiduals(t.dual, t.z, y, n);
    SlackCovers(p, Added(t.x, s.dual));
    if Shortfall(q) == 0.0 {
      ProjectionFeasible(q, argsort);
      ProjectionExact(q, argsort);
      NearestOnTarget(q, Coarse(q));
      MulZero(Reach(q));
      MulZero(p.rho);
      CurvaturePositive(p, y, t.z, n);
      assert y[..n] == y && t.z[..n] == t.z;
    }
  }

  /** Total width of the box. */
  function Span(p: Portfolio, k: nat): real
    requires p.Shaped() && k <= |p.lower|
  {
    if k == 0 then 0.0 else Span(p, k - 1) + (p.upper[k - 1] - p.lower[k - 1])
  }

  function AbsSum(a: seq<real>, k: nat): real
    requires k <= |a|
  {
    if k == 0 then 0.0 else AbsSum(a, k - 1) + Abs(a[k - 1])
  }

  /** Cost of one more kilowatt at resource i. */
  function Marginal(p: Portfolio, z: seq<real>, i: nat): real
    requires p.Shaped() && |z| == |p.lower| && i < |z|
  {
    Mul(p.quadratic[i], z[i]) + p.linear[i]
  }

  function MarginalSum(p: Portfolio, z: seq<real>, k: nat): real
    requires p.Shaped() && k <= |z| == |p.lower|
  {
    if k == 0 then 0.0 else MarginalSum(p, z, k - 1) + Abs(Marginal(p, z, k - 1))
  }

  /** How much dearer than the cheapest allocation a settled iterate can be: the tolerance times box width,
      dual and marginal costs, and the projection's slack. */
  function Slack(p: Portfolio, t: Iterate, tolerance: real): real
    requires p.Valid() && t.Sized(|p.lower|)
  {
    var n := |p.lower|;
    Mul(tolerance, Span(p, n)) + Mul(p.rho, Mul(tolerance, AbsSum(t.dual, n))) + Mul(tolerance, MarginalSum(p, t.z, n))
    + ProjectionSlack(p, Added(t.z, t.dual))
  }

  lemma {:induction false} SquareDistanceHolds(a: seq<real>, b: seq<real>, i: nat, k: nat)
    requires i < k <= |a| && k <= |b|
    ensures Sq(a[i] - b[i]) <= SquareDistance(a, b, k)
  {
    hide Sq;
    SquareDistancePositive(a, b, k - 1);
    SqSign(a[k - 1] - b[k - 1]);
    if i < k - 1 { SquareDistanceHolds(a, b, i, k - 1); }
  }

  /** Both residuals within tolerance in norm are within it entry by entry. */
  lemma EntriesSettled(p: Portfolio, before: Iterate, after: Iterate, tolerance: real, i: nat)
    requires p.Valid() && before.Sized(|p.lower|) && after.Sized(|p.lower|) && i < |p.lower| && tolerance > 0.0
    requires Settled(p, before, after, tolerance)
    ensures Abs(after.x[i] - after.z[i]) <= tolerance
    ensures Abs(Mul(p.rho, after.z[i] - before.z[i])) <= tolerance
  {
    hide Sq, Mul, SquareDistance, Attainable;
    var n := |p.lower|;
    SquareDistanceHolds(after.x, after.z, i, n);
    SqOrder(after.x[i] - after.z[i], tolerance);
    SquareDistanceHolds(after.z, before.z, i, n);
    var d := after.z[i] - before.z[i];
    SqSign(p.rho);
    MulOrder(Sq(d), SquareDistance(after.z, before.z, n), Sq(p.rho));
    SqOfProduct(p.rho, d);
    SqOrder(Mul(p.rho, d), tolerance);
  }

  /** The dual residual's share of the certificate. */
  lemma {:induction false} GainWithin(p: Portfolio, z: seq<real>, before: seq<real>, y: seq<real>, x: seq<real>,
                                      tolerance: real, k: nat)
    requires p.Valid() && |z| == |before| == |y| == |x| == |p.lower| && k <= |z|
    requires InBox(y, p.lower, p.upper) && InBox(x, p.lower, p.upper)
    requires forall i :: 0 <= i < |z| ==> Abs(Mul(p.rho, z[i] - before[i])) <= tolerance
    ensures Mul(p.rho, Gain(z, before, y, x, k)) <= Mul(tolerance, Span(p, k))
  {
    hide Mul, Attainable;
    if k == 0 {
      MulZero(p.rho);
      MulZero(tolerance);
    } else {
      var i := k - 1;
      GainWithin(p, z, before, y, x, tolerance, i);
      var d := y[i] - x[i];
      MulSum(p.rho, Gain(z, before, y, x, i), Mul(z[i] - before[i], d));
      MulAssociative(p.rho, z[i] - before[i], d);
      ProductWithin(Mul(p.rho, z[i] - before[i]), d, tolerance);
      MulOrder(Abs(d), p.upper[i] - p.lower[i], tolerance);
      MulSum(tolerance, Span(p, i), p.upper[i] - p.lower[i]);
    }
  }

  /** The primal residual's share. */
  lemma {:induction false} ProductWithinTolerance(dual: seq<real>, x: seq<real>, z: seq<real>, tolerance: real, k: nat)
    requires k <= |dual| == |x| == |z| && forall i :: 0 <= i < |x| ==> Abs(x[i] - z[i]) <= tolerance
    ensures -Product(dual, x, z, k) <= Mul(tolerance, AbsSum(dual, k))
  {
    hide Mul;
    if k == 0 {
      MulZero(tolerance);
    } else {
      var i := k - 1;
      ProductWithinTolerance(dual, x, z, tolerance, i);
      MulNegated(dual[i], x[i] - z[i]);
      MulCommutes(dual[i], -(x[i] - z[i]));
      ProductWithin(-(x[i] - z[i]), dual[i], tolerance);
      MulSum(tolerance, AbsSum(dual, i), Abs(dual[i]));
    }
  }

  /** Going from the local point to the returned one costs at most the tolerance times the marginal costs. */
  lemma {:induction false} CostMoves(p: Portfolio, x: seq<real>, z: seq<real>, tolerance: real, k: nat)
    requires p.Valid() && k <= |x| == |z| == |p.lower| && forall i :: 0 <= i < |x| ==> Abs(x[i] - z[i]) <= tolerance
    ensures Cost(p, z, k) <= Cost(p, x, k) + Mul(tolerance, MarginalSum(p, z, k))
  {
    hide Mul, Sq, UnitCost, Attainable;
    if k == 0 {
      MulZero(tolerance);
    } else {
      var i := k - 1;
      CostMoves(p, x, z, tolerance, i);
      var g, d := Marginal(p, z, i), x[i] - z[i];
      CostExpands(p.quadratic[i], p.linear[i], z[i], x[i]);
      SqSign(d);
      MulNonNegative(p.quadratic[i], Sq(d));
      MulNegated(g, d);
      MulCommutes(g, -d);
      ProductWithin(-d, g, tolerance);
      MulSum(tolerance, MarginalSum(p, z, i), Abs(g));
    }
  }

  /** What the two residuals of a settled pair of iterates can amount to. */
  lemma ResidualTerms(p: Portfolio, s: Iterate, t: Iterate, tolerance: real, y: seq<real>)
    requires p.Valid() && s.Sized(|p.lower|) && t.Sized(|p.lower|) && tolerance > 0.0 && Settled(p, s, t, tolerance)
    requires |y| == |p.lower| && InBox(y, p.lower, p.upper) && InBox(t.x, p.lower, p.upper)
    ensures Mul(p.rho, Gain(t.z, s.z, y, t.x, |y|)) <= Mul(tolerance, Span(p, |y|))
    ensures Mul(p.rho, -Product(t.dual, t.x, t.z, |y|)) <= Mul(p.rho, Mul(tolerance, AbsSum(t.dual, |y|)))
    ensures Cost(p, t.z, |y|) <= Cost(p, t.x, |y|) + Mul(tolerance, MarginalSum(p, t.z, |y|))
  {
    hide Mul, Sum, Gain, Product, Cost, Settled, Span, AbsSum, MarginalSum;
    var n := |y|;
    forall i | 0 <= i < n
      ensures Abs(t.x[i] - t.z[i]) <= tolerance && Abs(Mul(p.rho, t.z[i] - s.z[i])) <= tolerance
    {
      EntriesSettled(p, s, t, tolerance, i);
    }
    GainWithin(p, t.z, s.z, y, t.x, tolerance, n);
    ProductWithinTolerance(t.dual, t.x, t.z, tolerance, n);
    MulOrder(-Product(t.dual, t.x, t.z, n), Mul(tolerance, AbsSum(t.dual, n)), p.rho);
    CostMoves(p, t.x, t.z, tolerance, n);
  }

  /** What a step's projection leaves to the correction, priced. */
  function Inexact(p: Portfolio, s: Iterate): real
    requires p.Valid() && s.Sized(|p.lower|)
  {
    var q := Coupling(p, Added(LocalStep(p, s.z, s.dual), s.dual));
    4.0 * Mul(Reach(q), Abs(Shortfall(q)))
  }

  lemma InexactWithinSlack(p: Portfolio, s: Iterate, argsort: seq<real> -> seq<nat>)
    requires p.Valid() && s.Sized(|p.lower|) && IsArgsort(argsort)
    ensures var t := Step(p, s, argsort); Mul(p.rho, Inexact(p, s)) <= ProjectionSlack(p, Added(t.z, t.dual))
  {
    hide Mul, Shortfall, Projection, Reach, ProjectionSlack, LocalStep, Added, Attainable;
    var t := Step(p, s, argsort);
    StepShiftsDual(p, s, argsort);
    SlackCovers(p, Added(t.x, s.dual));
  }

  /** The certificate at the reach of the step's own projection. */
  lemma OwnCertificate(p: Portfolio, s: Iterate, argsort: seq<real> -> seq<nat>, y: seq<real>)
    requires p.Valid() && s.Sized(|p.lower|) && IsArgsort(argsort) && p.Feasible(y)
    ensures var t := Step(p, s, argsort);
            var n := |y|;
            Cost(p, t.x, n) <= Cost(p, y, n) + Mul(p.rho, Inexact(p, s) - Product(t.dual, t.x, t.z, n)
                                                          + Gain(t.z, s.z, y, t.x, n))
  {
    hide Mul, Sum, Gain, Product, Cost, Curvature, Shortfall, Projection, Reach, LocalStep, Added, Attainable;
    var t := Step(p, s, argsort);
    StepCertificate(p, s, argsort, y, Reach(Coupling(p, Added(t.x, s.dual))));
    CurvaturePositive(p, y, t.x, |y|);
  }

  /** The certificate with its three terms apart. */
  lemma SplitCertificate(p: Portfolio, s: Iterate, argsort: seq<real> -> seq<nat>, y: seq<real>)
    requires p.Valid() && s.Sized(|p.lower|) && IsArgsort(argsort) && p.Feasible(y)
    ensures var t := Step(p, s, argsort);
            var n := |y|;
            Cost(p, t.x, n) <= Cost(p, y, n) + ProjectionSlack(p, Added(t.z, t.dual))
                               + Mul(p.rho, -Product(t.dual, t.x, t.z, n)) + Mul(p.rho, Gain(t.z, s.z, y, t.x, n))
  {
    hide Mul, Sum, Gain, Product, Cost, Inexact, ProjectionSlack, Added, Attainable, Step;
    var t := Step(p, s, argsort);
    var n := |y|;
    OwnCertificate(p, s, argsort, y);
    InexactWithinSlack(p, s, argsort);
    SplitRho(p.rho, Inexact(p, s), Product(t.dual, t.x, t.z, n), Gain(t.z, s.z, y, t.x, n));
  }

  /** A settled iteration's allocation costs at most the slack more than any feasible allocation. */
  lemma SettledIsNearOptimal(p: Portfolio, s: Iterate, argsort: seq<real> -> seq<nat>, tolerance: real, y: seq<real>)
    requires p.Valid() && s.Sized(|p.lower|) && IsArgsort(argsort) && p.Feasible(y) && tolerance > 0.0
    requires Settled(p, s, Step(p, s, argsort), tolerance)
    ensures var t := Step(p, s, argsort); Cost(p, t.z, |y|) <= Cost(p, y, |y|) + Slack(p, t, tolerance)
  {
    hide Mul, Sum, Gain, Product, Cost, Projection, ProjectionSlack, Settled, Span, AbsSum, MarginalSum, LocalStep,
      Attainable;
    SplitCertificate(p, s, argsort, y);
    LocalStepInBox(p, s.z, s.dual);
    ResidualTerms(p, s, Step(p, s, argsort), tolerance, y);
  }

  lemma ConvergedIsNearOptimal(p: Portfolio, argsort: seq<real> -> seq<nat>, tolerance: real, k: nat)
    requires p.Valid() && IsArgsort(argsort) && tolerance > 0.0 && k > 0 && SettledAt(p, argsort, tolerance, k)
    ensures var t := Iterated(p, argsort, k);
            forall y :: p.Feasible(y) ==> Cost(p, t.z, |p.lower|) <= Cost(p, y, |p.lower|) + Slack(p, t, tolerance)
  {
    hide Settled, Step, Cost, Slack, Sum, Attainable;
    var s, t := Iterated(p, argsort, k - 1), Iterated(p, argsort, k);
    assert t == Step(p, s, argsort);
    forall y | p.Feasible(y) ensures Cost(p, t.z, |p.lower|) <= Cost(p, y, |p.lower|) + Slack(p, t, tolerance) {
      SettledIsNearOptimal(p, s, argsort, tolerance, y);
    }
  }

  /** The projected values are the new iterate plus the new dual. */
  lemma StepShiftsDual(p: Portfolio, s: Iterate, argsort: seq<real> -> seq<nat>)
    requires p.Valid() && s.Sized(|p.lower|) && IsArgsort(argsort)
    ensures var t := Step(p, s, argsort); Added(t.x, s.dual) == Added(t.z, t.dual)
  {
    hide Projection, LocalStep, Sum;
  }

  lemma SplitRho(rho: real, a: real, b: real, c: real)
    ensures Mul(rho, a - b + c) == Mul(rho, a) + Mul(rho, -b) + Mul(rho, c)
  {}

  lemma LocalStepInBox(p: Portfolio, z: seq<real>, dual: seq<real>)
    requires p.Valid() && |z| == |dual| == |p.lower|
    ensures InBox(LocalStep(p, z, dual), p.lower, p.upper)
  {
    hide Mul, Sum;
  }
}
