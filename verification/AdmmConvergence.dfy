/** The iteration of coordinate_portfolio_admm settles: the distance to the cheapest allocation and its price
    falls with every pass, up to the projection's slack, so the limit on iterations is reached only if it
    is too small for the tolerance. */
module AdmmConvergence {
  import opened RealMath
  import opened BoundedProjection
  import opened PortfolioAdmm
  import opened CheapestAllocation

  // ---------------------------------------------------------------------------------------
  // One resource
  // ---------------------------------------------------------------------------------------

  /** The local step leans towards the supported allocation. */
  lemma StepLeans(q: real, c: real, rho: real, z: real, u: real, low: real, high: real, best: real, price: real)
    requires q > 0.0 && rho > 0.0 && low <= best <= high
    requires best < high ==> price <= Mul(q, best) + c
    requires best > low ==> Mul(q, best) + c <= price
    ensures var x := LocalMinimum(q, c, rho, z, u, low, high);
            Mul(x + u - z + price / rho, x - best) <= 0.0
  {
    hide Mul, Sq;
    var a := (Mul(rho, z - u) - c) / (q + rho);
    var x := Clip(a, low, high);
    var d, h := x - best, x - (z - u) + price / rho;
    ClipInequality(a, low, high, best);
    MulQuotient(Mul(rho, z - u) - c, q + rho);
    MulCommutes(a, q + rho);
    LocalSlope(q, rho, c, z - u, a, x);
    MulNonNegative(q + rho, Mul(a - x, d));
    MulAssociative(q + rho, a - x, d);
    SupportLeans(Mul(q, best) + c - price, d);
    // the two slopes add up to -(q d + rho h)
    MulSum(d, Mul(q + rho, a - x), Mul(q, best) + c - price);
    MulSum(q, x, -best);
    MulNegated(q, best);
    MulSum(rho, x - (z - u), price / rho);
    MulQuotient(price, rho);
    MulCommutes(price / rho, rho);
    assert Mul(q + rho, a - x) + (Mul(q, best) + c - price) == -(Mul(q, d) + Mul(rho, h));
    MulNegated(Mul(q, d) + Mul(rho, h), d);
    MulSum(d, Mul(q, d), Mul(rho, h));
    MulAssociative(q, d, d);
    SqIs(d);
    SqSign(d);
    MulNonNegative(q, Sq(d));
    MulAssociative(rho, h, d);
    if Mul(h, d) > 0.0 { MulPositive(rho, Mul(h, d)); }
  }

  lemma SupportLeans(g: real, d: real)
    requires (d > 0.0 ==> g >= 0.0) && (d < 0.0 ==> g <= 0.0)
    ensures Mul(g, d) >= 0.0
  {
    hide Mul;
    if d > 0.0 {
      MulNonNegative(g, d);
    } else if d < 0.0 {
      MulNonNegative(-g, -d);
      MulNegated(g, d);
      MulNegated(g, -d);
    } else {
      MulZero(g);
    }
  }

  /** What one pass does to the squared distances of one resource. */
  lemma EnergyIdentity(z: real, u: real, x: real, z': real, best: real, v: real)
    ensures var u' := u + (x - z');
            Sq(z' - best) + Sq(u' + v) + Sq(x - z) ==
            Sq(z - best) + Sq(u + v) + 2.0 * Mul(x + u - z + v, x - best) + 2.0 * Mul(u' + v, best - z')
  {}

  // ---------------------------------------------------------------------------------------
  // One pass over all resources
  // ---------------------------------------------------------------------------------------

  /** Squared distance of consensus and dual from the supported allocation and its price, which the dual
      carries as -v, for the first k resources. */
  function Energy(best: seq<real>, v: real, t: Iterate, k: nat): real
    requires k <= |best| == |t.z| == |t.dual|
  {
    if k == 0 then 0.0 else Energy(best, v, t, k - 1) + (Sq(t.z[k - 1] - best[k - 1]) + Sq(t.dual[k - 1] + v))
  }

  function Pull(dual: seq<real>, v: real, best: seq<real>, z: seq<real>, k: nat): real
    requires k <= |dual| && k <= |best| && k <= |z|
  {
    if k == 0 then 0.0 else Pull(dual, v, best, z, k - 1) + Mul(dual[k - 1] + v, best[k - 1] - z[k - 1])
  }

  lemma {:induction false} EnergyMoves(p: Portfolio, s: Iterate, t: Iterate, best: seq<real>, price: real, k: nat)
    requires p.Valid() && s.Sized(|p.lower|) && t.Sized(|p.lower|) && Priced(p, best, price) && k <= |best|
    requires t.x == LocalStep(p, s.z, s.dual)
    requires forall i :: 0 <= i < |t.x| ==> t.dual[i] == s.dual[i] + (t.x[i] - t.z[i])
    ensures var v := price / p.rho;
            Energy(best, v, t, k) + SquareDistance(t.x, s.z, k) <=
            Energy(best, v, s, k) + 2.0 * Pull(t.dual, v, best, t.z, k)
  {
    hide Mul, Sq, LocalMinimum, Sum;
    if k > 0 {
      var i, v := k - 1, price / p.rho;
      EnergyMoves(p, s, t, best, price, i);
      assert PricedAt(p, best, price, i);
      StepLeans(p.quadratic[i], p.linear[i], p.rho, s.z[i], s.dual[i], p.lower[i], p.upper[i], best[i], price);
      EnergyIdentity(s.z[i], s.dual[i], t.x[i], t.z[i], best[i], v);
    }
  }

  lemma {:induction false} PullSplits(values: seq<real>, dual: seq<real>, v: real, best: seq<real>, z: seq<real>,
                                      k: nat)
    requires k <= |values| == |dual| == |best| == |z|
    requires forall i :: 0 <= i < |values| ==> dual[i] == values[i] - z[i]
    ensures Pull(dual, v, best, z, k) == Gain(values, z, best, z, k) + Mul(v, Total(best, k) - Total(z, k))
  {
    hide Mul;
    if k == 0 {
      MulZero(v);
    } else {
      var i := k - 1;
      PullSplits(values, dual, v, best, z, i);
      MulSum(best[i] - z[i], dual[i], v);
      MulSum(v, Total(best, i) - Total(z, i), best[i] - z[i]);
    }
  }

  /** The computed projection misses the target by at most what the bisection left. */
  lemma ProjectionTotal(q: Problem, argsort: seq<real> -> seq<nat>)
    requires q.Valid() && IsArgsort(argsort)
    ensures Abs(q.target - Sum(Projection(q, argsort))) <= Abs(Shortfall(q))
  {
    hide Sum;
    ProjectionFeasible(q, argsort);
  }

  /** How much a pass can lose to the projection. */
  function PassSlack(v: real, reach: real, gap: real): real { Mul(8.0 * reach + 2.0 * Abs(v), gap) }

  /** Main step: one pass lowers the energy by the squared move of the local step, up to the slack. */
  lemma EnergyFalls(p: Portfolio, s: Iterate, argsort: seq<real> -> seq<nat>, best: seq<real>, price: real,
                    reach: real, gap: real)
    requires p.Valid() && s.Sized(|p.lower|) && IsArgsort(argsort) && Priced(p, best, price)
    requires var q := Coupling(p, Added(LocalStep(p, s.z, s.dual), s.dual));
             Reaches(q, reach) && Abs(Shortfall(q)) <= gap
    ensures var t := Step(p, s, argsort);
            var v, n := price / p.rho, |p.lower|;
            Energy(best, v, t, n) + SquareDistance(t.x, s.z, n) <= Energy(best, v, s, n) + PassSlack(v, reach, gap)
  {
    hide Mul, Total, Gain, Energy, SquareDistance, Pull, Projection, LocalStep, Shortfall, Priced, PassSlack;
    var t := Step(p, s, argsort);
    var q := Coupling(p, Added(t.x, s.dual));
    var v, n := price / p.rho, |p.lower|;
    assert p.Feasible(best) by { PricedIsFeasible(p, best, price); }
    EnergyMoves(p, s, t, best, price, n);
    PullSplits(q.values, t.dual, v, best, t.z, n);
    ProjectionInequality(q, argsort, best, reach);
    ProjectionTotal(q, argsort);
    assert reach >= 0.0 by { assert Abs(q.values[0]) + Abs(q.lower[0]) + Abs(q.upper[0]) <= reach; }
    SlackHolds(v, Sum(best) - Sum(t.z), reach, Abs(Shortfall(q)), gap);
  }

  lemma SlackHolds(v: real, miss: real, reach: real, shortfall: real, gap: real)
    requires 0.0 <= shortfall <= gap && reach >= 0.0 && Abs(miss) <= shortfall
    ensures 2.0 * (4.0 * Mul(reach, shortfall) + Mul(v, miss)) <= PassSlack(v, reach, gap)
  {
    hide Mul;
    MulCommutes(v, miss);
    ProductWithin(miss, v, shortfall);
    MulCommutes(shortfall, Abs(v));
    Scaled(8.0, reach, shortfall);
    Scaled(2.0, Abs(v), shortfall);
    MulSum(shortfall, 8.0 * reach, 2.0 * Abs(v));
    MulOrder(shortfall, gap, 8.0 * reach + 2.0 * Abs(v));
  }

  lemma Scaled(f: real, a: real, b: real)
    ensures Mul(f * a, b) == f * Mul(a, b)
  {}


  // ---------------------------------------------------------------------------------------
  // The consensus moves no further than the local step
  // ---------------------------------------------------------------------------------------

  /** Exact projections of two points are no further apart than the points. */
  lemma {:induction false} ExactMoves(v: seq<real>, w: seq<real>, e: seq<real>, f: seq<real>, k: nat)
    requires k <= |v| == |w| == |e| == |f|
    ensures SquareDistance(f, e, k) <= SquareDistance(w, v, k) + 2.0 * (Gain(v, e, f, e, k) + Gain(w, f, e, f, k))
  {
    hide Mul, Sq;
    if k > 0 {
      ExactMoves(v, w, e, f, k - 1);
      ExactMovesAt(v[k - 1], w[k - 1], e[k - 1], f[k - 1]);
    }
  }

  lemma ExactMovesAt(v: real, w: real, e: real, f: real)
    ensures Sq(f - e) <= Sq(w - v) + 2.0 * (Mul(v - e, f - e) + Mul(w - f, e - f))
  {
    SqSign((f - e) - (w - v));
    assert Sq((f - e) - (w - v)) == Sq(f - e) - 2.0 * Mul(f - e, w - v) + Sq(w - v);
  }

  /** Computed projections are near the exact ones, so they are nearly as close together. */
  lemma {:induction false} ComputedMoves(z: seq<real>, y: seq<real>, e: seq<real>, f: seq<real>, k: nat)
    requires k <= |z| == |y| == |e| == |f|
    ensures Distance1(y, f, k) + Distance1(z, e, k) >= 0.0
    ensures SquareDistance(y, z, k) <=
            2.0 * SquareDistance(f, e, k) + 2.0 * Sq(Distance1(y, f, k) + Distance1(z, e, k))
  {
    hide Mul, Sq;
    if k == 0 {
      SqSign(0.0);
    } else {
      ComputedMoves(z, y, e, f, k - 1);
      var i := k - 1;
      ComputedMovesAt(z[i], y[i], e[i], f[i]);
      SqGrows(Distance1(y, f, i) + Distance1(z, e, i), Abs(y[i] - f[i]) + Abs(z[i] - e[i]));
    }
  }

  lemma ComputedMovesAt(z: real, y: real, e: real, f: real)
    ensures Sq(y - z) <= 2.0 * Sq(f - e) + 2.0 * Sq(Abs(y - f) + Abs(z - e))
  {
    hide Mul, Sq;
    var h := (y - f) - (z - e);
    SqOfSum(f - e, h);
    if Sq(h) > Sq(Abs(y - f) + Abs(z - e)) { SqMonotoneAbs(h, Abs(y - f) + Abs(z - e)); }
  }

  lemma SqOfSum(a: real, b: real)
    ensures Sq(a + b) <= 2.0 * Sq(a) + 2.0 * Sq(b)
  {
    hide Mul, Sq;
    SqSign(a - b);
    SqSum(a, b);
    SqSum(a, -b);
    MulNegated(a, b);
    SqNegated(b);
  }

  lemma SqNegated(a: real)
    ensures Sq(-a) == Sq(a)
  {}

  lemma SqMonotoneAbs(a: real, b: real)
    requires Abs(a) <= b
    ensures Sq(a) <= Sq(b)
  {
    hide Sq;
    SqNegated(a);
    if Abs(a) < b { SqStrict(b, Abs(a)); }
  }

  lemma SqGrows(a: real, b: real)
    requires a >= 0.0 && b >= 0.0
    ensures Sq(a) + Sq(b) <= Sq(a + b)
  {
    hide Mul, Sq;
    SqSum(a, b);
    MulNonNegative(a, b);
  }

  /** Two problems over the same box and target, with what the bisections leave within a gap. */
  lemma ProjectionsMove(q: Problem, r: Problem, argsort: seq<real> -> seq<nat>, gap: real)
    requires q.Valid() && r == q.(values := r.values) && |r.values| == |q.values| && IsArgsort(argsort)
    requires Abs(Shortfall(q)) <= gap && Abs(Shortfall(r)) <= gap
    ensures var n := |q.values|;
            SquareDistance(Projection(r, argsort), Projection(q, argsort), n) <=
            2.0 * SquareDistance(r.values, q.values, n) + 2.0 * Sq(4.0 * gap)
  {
    hide Mul, Sq, Total, Gain, SquareDistance, Distance1, Shifted, Shortfall, Projection;
    var n := |q.values|;
    var mu := ExactMultiplier(q);
    var nu := ExactMultiplier(r);
    var e, f := Shifted(q.values, q.lower, q.upper, mu), Shifted(r.values, q.lower, q.upper, nu);
    var z, y := Projection(q, argsort), Projection(r, argsort);
    ShiftedInBox(q, mu);
    ShiftedInBox(r, nu);
    ExactInequality(q, mu, f, n);
    ExactInequality(r, nu, e, n);
    MulZero(mu);
    MulZero(nu);
    ExactMoves(q.values, r.values, e, f, n);
    ProjectionError(q, argsort, mu);
    ProjectionError(r, argsort, nu);
    ComputedMoves(z, y, e, f, n);
    SqMonotoneAbs(Distance1(y, f, n) + Distance1(z, e, n), 4.0 * gap);
  }

  // ---------------------------------------------------------------------------------------
  // Bounds that hold for every pass of a run
  // ---------------------------------------------------------------------------------------

  function Size(p: Portfolio): real
    requires p.Shaped()
  {
    AbsSum(p.lower, |p.lower|) + AbsSum(p.upper, |p.upper|)
  }

  lemma {:induction false} AbsSumHolds(a: seq<real>, i: nat, k: nat)
    requires k <= |a|
    ensures AbsSum(a, k) >= 0.0 && (i < k ==> Abs(a[i]) <= AbsSum(a, k))
  {
    if k > 0 { AbsSumHolds(a, i, k - 1); }
  }

  lemma SizeHolds(p: Portfolio, i: nat)
    requires p.Shaped() && i < |p.lower|
    ensures Abs(p.lower[i]) + Abs(p.upper[i]) <= Size(p)
  {
    hide AbsSum;
    AbsSumHolds(p.lower, i, |p.lower|);
    AbsSumHolds(p.upper, i, |p.upper|);
  }

  /** How far values can reach in the first n passes: the dual grows by at most the size in each. */
  function ReachBy(p: Portfolio, n: nat): real
    requires p.Shaped()
  {
    Mul((n + 1) as real, Size(p))
  }

  /** What one hundred halvings can leave in any of them. */
  function GapBy(p: Portfolio, n: nat): real
    requires p.Shaped()
  {
    PowerPositive(HALVINGS + 1);
    Mul(|p.lower| as real, 2.0 * ReachBy(p, n) + 2.0) / PowerOfTwo(HALVINGS + 1)
  }

  /** What any of them can lose to the projection. */
  function LossBy(p: Portfolio, n: nat): real
    requires p.Shaped() && p.rho > 0.0
  {
    PassSlack(PriceLimit(p) / p.rho, ReachBy(p, n), GapBy(p, n))
  }

  /** The local step of a pass, which its projection is applied to. */
  function Pass(p: Portfolio, argsort: seq<real> -> seq<nat>, k: nat): Problem
    requires p.Valid() && IsArgsort(argsort)
  {
    var s := Iterated(p, argsort, k);
    Coupling(p, Added(LocalStep(p, s.z, s.dual), s.dual))
  }

  lemma PassBuilds(p: Portfolio, argsort: seq<real> -> seq<nat>, k: nat)
    requires p.Valid() && IsArgsort(argsort)
    ensures var s, t := Iterated(p, argsort, k), Iterated(p, argsort, k + 1);
            && Pass(p, argsort, k) == Coupling(p, Added(t.x, s.dual))
            && t == Step(p, s, argsort) && t.x == LocalStep(p, s.z, s.dual)
            && t.z == Projection(Pass(p, argsort, k), argsort)
            && Added(t.x, s.dual) == Added(t.z, t.dual)
            && InBox(t.x, p.lower, p.upper)
  {
    hide LocalStep, Projection, Sum;
    LocalStepInBox(p, Iterated(p, argsort, k).z, Iterated(p, argsort, k).dual);
    StepShiftsDual(p, Iterated(p, argsort, k), argsort);
  }

  lemma {:induction false} DualWithin(p: Portfolio, argsort: seq<real> -> seq<nat>, k: nat, i: nat)
    requires p.Valid() && IsArgsort(argsort) && i < |p.lower|
    ensures Abs(Iterated(p, argsort, k).dual[i]) <= Mul(k as real, Size(p))
  {
    hide Mul, Size, Iterated, IsArgsort, Attainable;
    if k == 0 {
      DualStarts(p, argsort, i);
      MulSuccessor(0, Size(p));
    } else {
      DualWithin(p, argsort, k - 1, i);
      DualGrows(p, argsort, k, i);
      MulSuccessor(k - 1, Size(p));
    }
  }

  lemma DualStarts(p: Portfolio, argsort: seq<real> -> seq<nat>, i: nat)
    requires p.Valid() && IsArgsort(argsort) && i < |p.lower|
    ensures Iterated(p, argsort, 0).dual[i] == 0.0
  {
    hide Sum, Projection;
    assert Iterated(p, argsort, 0) == Initial(p, argsort);
  }

  lemma DualGrows(p: Portfolio, argsort: seq<real> -> seq<nat>, k: nat, i: nat)
    requires p.Valid() && IsArgsort(argsort) && i < |p.lower| && k > 0
    ensures Abs(Iterated(p, argsort, k).dual[i] - Iterated(p, argsort, k - 1).dual[i]) <= Size(p)
  {
    hide Mul, Sum, LocalStep, Projection, Size, Iterated;
    PassBuilds(p, argsort, k - 1);
    IteratesStayFeasible(p, argsort, k);
    SizeHolds(p, i);
    var t := Iterated(p, argsort, k);
    assert t.dual[i] == Iterated(p, argsort, k - 1).dual[i] + (t.x[i] - t.z[i]);
  }

  lemma PassReaches(p: Portfolio, argsort: seq<real> -> seq<nat>, k: nat, n: nat)
    requires p.Valid() && IsArgsort(argsort) && k < n
    ensures Reaches(Pass(p, argsort, k), ReachBy(p, n))
  {
    hide Mul, Sum, Iterated, Step, Pass, LocalStep, Projection, Size;
    var q := Pass(p, argsort, k);
    PassBuilds(p, argsort, k);
    forall i | 0 <= i < |q.values| ensures Abs(q.values[i]) + Abs(q.lower[i]) + Abs(q.upper[i]) <= ReachBy(p, n) {
      DualWithin(p, argsort, k, i);
      SizeHolds(p, i);
      MulSuccessor(k, Size(p));
      MulSuccessor(k + 1, Size(p));
      MulOrder((k + 2) as real, (n + 1) as real, Size(p));
    }
  }

  lemma PassGap(p: Portfolio, argsort: seq<real> -> seq<nat>, k: nat, n: nat)
    requires p.Valid() && IsArgsort(argsort) && k < n
    ensures Abs(Shortfall(Pass(p, argsort, k))) <= GapBy(p, n)
  {
    hide Mul, Sum, Iterated, Pass, LeastGap, GreatestGap, Shortfall, PowerOfTwo, ReachBy;
    var q, reach, size := Pass(p, argsort, k), ReachBy(p, n), |p.lower|;
    PassBuilds(p, argsort, k);
    PassReaches(p, argsort, k, n);
    GapsWithin(q.values, q.lower, q.upper, size, reach);
    ShortfallWithinGap(q);
    MulOrder(q.Start().high - q.Start().low, 2.0 * reach + 2.0, size as real);
    PowerPositive(HALVINGS + 1);
    QuotientOrder(Mul(size as real, q.Start().high - q.Start().low), Mul(size as real, 2.0 * reach + 2.0),
                  PowerOfTwo(HALVINGS + 1));
  }

  // ---------------------------------------------------------------------------------------
  // An unsettled pass lowers the energy by a fixed amount
  // ---------------------------------------------------------------------------------------

  /** The squared move of the local step in a pass that is not settled, at least. */
  function Progress(p: Portfolio, tolerance: real, n: nat): real
    requires p.Shaped()
  {
    Sq(tolerance) / Max(6.0, 2.0 * Sq(p.rho)) - Sq(4.0 * GapBy(p, n))
  }

  lemma {:induction false} SameDifferences(v: seq<real>, w: seq<real>, x: seq<real>, z: seq<real>, k: nat)
    requires k <= |v| == |w| == |x| == |z| && forall i :: 0 <= i < |v| ==> w[i] - v[i] == x[i] - z[i]
    ensures SquareDistance(w, v, k) == SquareDistance(x, z, k)
  {
    hide Sq;
    if k > 0 { SameDifferences(v, w, x, z, k - 1); }
  }

  lemma {:induction false} SquaresSplit(x: seq<real>, y: seq<real>, z: seq<real>, k: nat)
    requires k <= |x| == |y| == |z|
    ensures SquareDistance(x, y, k) <= 2.0 * SquareDistance(x, z, k) + 2.0 * SquareDistance(y, z, k)
  {
    hide Sq;
    if k > 0 {
      SquaresSplit(x, y, z, k - 1);
      SqOfSum(x[k - 1] - z[k - 1], -(y[k - 1] - z[k - 1]));
      SqNegated(y[k - 1] - z[k - 1]);
    }
  }

  /** A small move of the local step makes both residuals small. */
  lemma ResidualsFollow(move: real, slack: real, dualMove: real, primal: real, rhoSquared: real, limit: real)
    requires rhoSquared >= 0.0 && primal <= 2.0 * move + 2.0 * dualMove && dualMove <= 2.0 * move + 2.0 * slack
    requires 0.0 <= dualMove && 0.0 <= slack && 0.0 <= move
    requires move <= limit / Max(6.0, 2.0 * rhoSquared) - slack
    ensures primal <= limit && Mul(rhoSquared, dualMove) <= limit
  {
    hide Mul;
    var f := Max(6.0, 2.0 * rhoSquared);
    MulOrder(move + slack, limit / f, f);
    MulQuotient(limit, f);
    MulOrder(6.0, f, move + slack);
    MulOrder(2.0 * rhoSquared, f, move + slack);
    Scaled(6.0, 1.0, move + slack);
    MulOne(move + slack);
    Scaled(2.0, rhoSquared, move + slack);
    MulOrder(dualMove, 2.0 * (move + slack), rhoSquared);
    MulSum(rhoSquared, move + slack, move + slack);
    MulCommutes(f, move + slack);
  }

  /** From the second pass on, the consensus moves little more than the local step. */
  lemma ConsensusMoves(p: Portfolio, argsort: seq<real> -> seq<nat>, k: nat, n: nat)
    requires p.Valid() && IsArgsort(argsort) && 0 < k < n
    ensures var s, t := Iterated(p, argsort, k), Iterated(p, argsort, k + 1);
            SquareDistance(t.z, s.z, |p.lower|) <=
            2.0 * SquareDistance(t.x, s.z, |p.lower|) + 2.0 * Sq(4.0 * GapBy(p, n))
  {
    hide Mul, Sq, Sum, Iterated, Pass, Step, LocalStep, Projection, SquareDistance, GapBy, Shortfall, Attainable;
    var s, t := Iterated(p, argsort, k), Iterated(p, argsort, k + 1);
    var q, r := Pass(p, argsort, k - 1), Pass(p, argsort, k);
    PassBuilds(p, argsort, k - 1);
    PassBuilds(p, argsort, k);
    PassGap(p, argsort, k - 1, n);
    PassGap(p, argsort, k, n);
    ProjectionsMove(q, r, argsort, GapBy(p, n));
    assert q.values == Added(s.z, s.dual) && r.values == Added(t.x, s.dual);
    SameDifferences(q.values, r.values, t.x, s.z, |p.lower|);
  }

  lemma UnsettledMoves(p: Portfolio, argsort: seq<real> -> seq<nat>, tolerance: real, k: nat, n: nat)
    requires p.Valid() && IsArgsort(argsort) && tolerance > 0.0 && 0 < k < n
    requires !SettledAt(p, argsort, tolerance, k + 1)
    ensures SquareDistance(Iterated(p, argsort, k + 1).x, Iterated(p, argsort, k).z, |p.lower|) >
            Progress(p, tolerance, n)
  {
    hide Mul, Sq, Sum, Iterated, SquareDistance, GapBy, Attainable, IsArgsort;
    var s, t, size := Iterated(p, argsort, k), Iterated(p, argsort, k + 1), |p.lower|;
    ConsensusMoves(p, argsort, k, n);
    SquaresSplit(t.x, t.z, s.z, size);
    SquareDistancePositive(t.x, s.z, size);
    SquareDistancePositive(t.z, s.z, size);
    SqSign(4.0 * GapBy(p, n));
    SqSign(p.rho);
    var move := SquareDistance(t.x, s.z, size);
    if move <= Progress(p, tolerance, n) {
      ResidualsFollow(move, Sq(4.0 * GapBy(p, n)), SquareDistance(t.z, s.z, size), SquareDistance(t.x, t.z, size),
                      Sq(p.rho), Sq(tolerance));
      assert false;
    }
  }

  // ---------------------------------------------------------------------------------------
  // The run as a whole
  // ---------------------------------------------------------------------------------------

  /** The most the energy can be at the start. */
  function StartEnergy(p: Portfolio): real
    requires p.Shaped() && p.rho > 0.0
  {
    SquareDistance(p.upper, p.lower, |p.lower|) + Mul(|p.lower| as real, Sq(PriceLimit(p) / p.rho))
  }

  lemma {:induction false} StartWithin(p: Portfolio, best: seq<real>, v: real, limit: real, t: Iterate, k: nat)
    requires p.Valid() && t.Sized(|p.lower|) && |best| == |p.lower| && k <= |best|
    requires InBox(best, p.lower, p.upper) && InBox(t.z, p.lower, p.upper) && Abs(v) <= limit
    requires forall i :: 0 <= i < |t.dual| ==> t.dual[i] == 0.0
    ensures Energy(best, v, t, k) <= SquareDistance(p.upper, p.lower, k) + Mul(k as real, Sq(limit))
  {
    hide Mul, Sq, Attainable;
    if k == 0 {
      MulSuccessor(0, Sq(limit));
    } else {
      StartWithin(p, best, v, limit, t, k - 1);
      MulSuccessor(k - 1, Sq(limit));
      SqMonotoneAbs(t.z[k - 1] - best[k - 1], p.upper[k - 1] - p.lower[k - 1]);
      SqMonotoneAbs(t.dual[k - 1] + v, limit);
    }
  }

  lemma {:induction false} EnergySign(best: seq<real>, v: real, t: Iterate, k: nat)
    requires k <= |best| == |t.z| == |t.dual|
    ensures Energy(best, v, t, k) >= 0.0
  {
    hide Sq;
    if k > 0 {
      EnergySign(best, v, t, k - 1);
      SqSign(t.z[k - 1] - best[k - 1]);
      SqSign(t.dual[k - 1] + v);
    }
  }

  /** One pass of a run, with bounds that do not depend on it. */
  lemma PassFalls(p: Portfolio, argsort: seq<real> -> seq<nat>, best: seq<real>, price: real, k: nat, n: nat)
    requires p.Valid() && IsArgsort(argsort) && Priced(p, best, price) && Abs(price) <= PriceLimit(p) && k < n
    ensures var s, t := Iterated(p, argsort, k), Iterated(p, argsort, k + 1);
            var v, size := price / p.rho, |p.lower|;
            Energy(best, v, t, size) + SquareDistance(t.x, s.z, size) <= Energy(best, v, s, size) + LossBy(p, n)
  {
    hide Mul, Sum, Iterated, Step, LocalStep, Energy, SquareDistance, Priced, Shortfall, ReachBy, GapBy, PriceLimit;
    var s := Iterated(p, argsort, k);
    PricedIsFeasible(p, best, price);
    PassBuilds(p, argsort, k);
    PassReaches(p, argsort, k, n);
    PassGap(p, argsort, k, n);
    EnergyFalls(p, s, argsort, best, price, ReachBy(p, n), GapBy(p, n));
    PriceQuotient(price, PriceLimit(p), p.rho);
    MulOrder(8.0 * ReachBy(p, n) + 2.0 * Abs(price / p.rho), 8.0 * ReachBy(p, n) + 2.0 * Abs(PriceLimit(p) / p.rho),
             GapBy(p, n));
  }

  lemma PriceQuotient(price: real, limit: real, rho: real)
    requires Abs(price) <= limit && rho > 0.0
    ensures Abs(price / rho) <= limit / rho
  {
    QuotientOrder(price, limit, rho);
    QuotientOrder(-limit, price, rho);
    QuotientSum(0.0, limit, rho);
  }

  /** As long as nothing settles, the energy has fallen by the progress of every pass after the first. */
  lemma {:induction false} Ledger(p: Portfolio, argsort: seq<real> -> seq<nat>, tolerance: real, best: seq<real>,
                                  price: real, k: nat, n: nat)
    requires p.Valid() && IsArgsort(argsort) && tolerance > 0.0 && 0 < k <= n
    requires Priced(p, best, price) && Abs(price) <= PriceLimit(p)
    requires forall j :: 1 <= j <= k ==> !SettledAt(p, argsort, tolerance, j)
    ensures var v, size := price / p.rho, |p.lower|;
            Energy(best, v, Iterated(p, argsort, k), size) + Mul((k - 1) as real, Progress(p, tolerance, n)) <=
            Energy(best, v, Iterated(p, argsort, 0), size) + Mul(k as real, LossBy(p, n))
  {
    hide Mul, Sum, Iterated, Energy, SquareDistance, Priced, PriceLimit, Progress, LossBy, SettledAt;
    PricedIsFeasible(p, best, price);
    PassFalls(p, argsort, best, price, k - 1, n);
    MulSuccessor(k - 1, LossBy(p, n));
    MulSuccessor(0, Progress(p, tolerance, n));
    var s, t := Iterated(p, argsort, k - 1), Iterated(p, argsort, k);
    if k == 1 {
      SquareDistancePositive(t.x, s.z, |p.lower|);
      MulSuccessor(0, LossBy(p, n));
    } else {
      Ledger(p, argsort, tolerance, best, price, k - 1, n);
      assert !SettledAt(p, argsort, tolerance, k);
      UnsettledMoves(p, argsort, tolerance, k - 1, n);
      MulSuccessor(k - 2, Progress(p, tolerance, n));
    }
  }

  /** Main result: a run that has not settled within n passes is one whose limit was too small. All three
      quantities are computed from the portfolio, the tolerance and the limit before the run. */
  lemma UnsettledIsShort(p: Portfolio, argsort: seq<real> -> seq<nat>, tolerance: real, n: nat)
    requires p.Valid() && IsArgsort(argsort) && tolerance > 0.0 && n > 0
    requires forall j :: 1 <= j <= n ==> !SettledAt(p, argsort, tolerance, j)
    ensures Mul((n - 1) as real, Progress(p, tolerance, n)) <= StartEnergy(p) + Mul(n as real, LossBy(p, n))
  {
    hide Mul, Sum, Energy, SquareDistance, Priced, PriceLimit, Progress, LossBy, SettledAt, Projection;
    var best, price := SupportedAllocationExists(p);
    var start, v, size := Initial(p, argsort), price / p.rho, |p.lower|;
    assert Iterated(p, argsort, 0) == start;
    Ledger(p, argsort, tolerance, best, price, n, n);
    PricedIsFeasible(p, best, price);
    IteratesStayFeasible(p, argsort, 0);
    PriceQuotient(price, PriceLimit(p), p.rho);
    StartWithin(p, best, v, PriceLimit(p) / p.rho, start, size);
    EnergySign(best, v, Iterated(p, argsort, n), size);
  }

  // ---------------------------------------------------------------------------------------
  // The bound at work
  // ---------------------------------------------------------------------------------------

  /** Two equal resources of up to ten kilowatts that are to deliver twelve together. */
  const TWELVE: Portfolio := Portfolio([0.0, 0.0], [10.0, 10.0], [1.0, 1.0], [0.0, 0.0], 12.0, 1.0)

  lemma TwoToTen(k: nat)
    ensures PowerOfTwo(k + 10) == 1024.0 * PowerOfTwo(k)
  {
    assert PowerOfTwo(k + 2) == 4.0 * PowerOfTwo(k);
    assert PowerOfTwo(k + 4) == 4.0 * PowerOfTwo(k + 2);
    assert PowerOfTwo(k + 6) == 4.0 * PowerOfTwo(k + 4);
    assert PowerOfTwo(k + 8) == 4.0 * PowerOfTwo(k + 6);
    assert PowerOfTwo(k + 10) == 4.0 * PowerOfTwo(k + 8);
  }

  lemma TwoToHundred()
    ensures PowerOfTwo(101) >= 1000000000000000000000.0
  {
    PowerPositive(1);
    hide PowerOfTwo;
    TwoToTen(1);
    TwoToTen(11);
    TwoToTen(21);
    TwoToTen(31);
    TwoToTen(41);
    TwoToTen(51);
    TwoToTen(61);
    TwoToTen(71);
    TwoToTen(81);
    TwoToTen(91);
  }

  lemma TwelveIsValid()
    ensures TWELVE.Valid() && Size(TWELVE) == 20.0 && PriceLimit(TWELVE) == 21.0
    ensures StartEnergy(TWELVE) == 1082.0
  {
    var p := TWELVE;
    assert Total(p.lower, 1) == 0.0 && Total(p.upper, 1) == 10.0;
    assert AbsSum(p.lower, 1) == 0.0 && AbsSum(p.upper, 1) == 10.0;
    assert MarginalReach(p, 1) == 10.0;
    assert SquareDistance(p.upper, p.lower, 1) == 100.0;
  }

  lemma TwelveBounds(n: nat)
    requires n == 1000000
    ensures LossBy(TWELVE, n) <= 0.0001 && Progress(TWELVE, 0.1, n) >= 0.0016
  {
    TwelveIsValid();
    TwoToHundred();
    hide PowerOfTwo, Size, PriceLimit;
    var reach, gap := ReachBy(TWELVE, n), GapBy(TWELVE, n);
    assert reach == 20000020.0;
    assert Mul(2.0, 2.0 * reach + 2.0) == 80000084.0;
    SmallQuotient(80000084.0, PowerOfTwo(101));
    assert 0.0 <= gap <= 0.0000000000001;
    SmallLoss(8.0 * reach + 2.0 * Abs(21.0 / 1.0), gap);
    assert Sq(0.1) / Max(6.0, 2.0 * Sq(1.0)) >= 0.00166;
    SmallSquare(4.0 * gap);
  }

  lemma SmallQuotient(a: real, d: real)
    requires 0.0 <= a <= 100000000.0 && d >= 1000000000000000000000.0
    ensures 0.0 <= a / d <= 0.0000000000001
  {
    QuotientOrder(0.0, a, d);
    QuotientOrder(a, Mul(0.0000000000001, d), d);
    QuotientOfProduct(0.0000000000001, d);
  }

  lemma SmallLoss(f: real, gap: real)
    requires 0.0 <= f <= 1000000000.0 && 0.0 <= gap <= 0.0000000000001
    ensures Mul(f, gap) <= 0.0001
  {
    MulOrder(f, 1000000000.0, gap);
  }

  lemma SmallSquare(a: real)
    requires 0.0 <= a <= 0.001
    ensures Sq(a) <= 0.000001
  {
    hide Mul;
    MulOrder(a, 0.001, a);
    MulOrder(a, 0.001, 0.001);
    MulIs(0.001, 0.001);
  }

  /** With a tolerance of 0.1, that portfolio settles within a million passes. */
  lemma TwelveSettles(argsort: seq<real> -> seq<nat>)
    requires IsArgsort(argsort) && TWELVE.Valid()
    ensures exists j :: 1 <= j <= 1000000 && SettledAt(TWELVE, argsort, 0.1, j)
  {
    hide StartEnergy, Progress, LossBy, SettledAt, Mul;
    var n := 1000000;
    if forall j :: 1 <= j <= n ==> !SettledAt(TWELVE, argsort, 0.1, j) {
      TwelveIsValid();
      TwelveBounds(n);
      UnsettledIsShort(TWELVE, argsort, 0.1, n);
      MulOrder(0.0016, Progress(TWELVE, 0.1, n), (n - 1) as real);
      MulOrder(LossBy(TWELVE, n), 0.0001, n as real);
      MulIs((n - 1) as real, 0.0016);
      MulIs(n as real, 0.0001);
      assert false;
    }
  }
}
