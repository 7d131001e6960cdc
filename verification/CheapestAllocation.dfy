/** Every valid portfolio of coordinate_portfolio_admm has a cheapest allocation, and a price that supports it:
    the point the iteration is drawn to. */
module CheapestAllocation {
  import opened RealMath
  import opened BoundedProjection
  import opened PortfolioAdmm
  import opened AdmmFixedPoints

  /** The price lies between what resource i saves by giving and what it costs by taking. */
  ghost predicate PricedAt(p: Portfolio, best: seq<real>, price: real, i: nat)
    requires p.Shaped() && i < |best| == |p.lower|
  {
    && (best[i] < p.upper[i] ==> price <= Marginal(p, best, i))
    && (best[i] > p.lower[i] ==> Marginal(p, best, i) <= price)
  }

  /** A feasible allocation and a price that supports it. */
  ghost predicate Priced(p: Portfolio, best: seq<real>, price: real)
    requires p.Shaped()
  {
    p.Feasible(best) && forall i :: 0 <= i < |best| ==> PricedAt(p, best, price, i)
  }

  lemma PricedIsFeasible(p: Portfolio, best: seq<real>, price: real)
    requires p.Shaped() && Priced(p, best, price)
    ensures p.Feasible(best) && |best| == |p.lower|
  {}

  // ---------------------------------------------------------------------------------------
  // What every resource takes at a price
  // ---------------------------------------------------------------------------------------

  /** Marginal costs at both bounds, and the negated linear costs as values: at price -mu a resource's
      marginal cost above its linear cost is its value shifted by mu and clipped. */
  function Marginals(p: Portfolio): (q: Problem)
    requires p.Valid()
    ensures q.Valid() && |q.values| == |p.lower|
  {
    hide Sum, Mul;
    var n := |p.lower|;
    var low := seq(n, i requires 0 <= i < n => Mul(p.quadratic[i], p.lower[i]));
    var high := seq(n, i requires 0 <= i < n => Mul(p.quadratic[i], p.upper[i]));
    assert Attainable(low, high, Sum(low)) by { MarginalBounds(p, low, high); }
    Problem(seq(n, i requires 0 <= i < n => -p.linear[i]), low, high, Sum(low))
  }

  lemma MarginalBounds(p: Portfolio, low: seq<real>, high: seq<real>)
    requires p.Valid() && |low| == |high| == |p.lower|
    requires forall i :: 0 <= i < |low| ==> low[i] == Mul(p.quadratic[i], p.lower[i])
    requires forall i :: 0 <= i < |low| ==> high[i] == Mul(p.quadratic[i], p.upper[i])
    ensures Attainable(low, high, Sum(low))
  {
    hide Mul;
    forall i | 0 <= i < |low| ensures low[i] <= high[i] { MulOrder(p.lower[i], p.upper[i], p.quadratic[i]); }
    TotalMonotone(low, high, |low|);
  }

  function Taken(p: Portfolio, mu: real): (z: seq<real>)
    requires p.Valid()
    ensures |z| == |p.lower|
  {
    var q := Marginals(p);
    var shifted := Shifted(q.values, q.lower, q.upper, mu);
    seq(|p.lower|, i requires 0 <= i < |p.lower| => shifted[i] / p.quadratic[i])
  }

  /** Each resource takes an amount within its bounds that the price supports. */
  lemma TakenIsPriced(p: Portfolio, mu: real, i: nat)
    requires p.Valid() && i < |p.lower|
    ensures p.lower[i] <= Taken(p, mu)[i] <= p.upper[i] && PricedAt(p, Taken(p, mu), -mu, i)
  {
    hide Mul, Sum, Attainable;
    var q := p.quadratic[i];
    var low, high := Mul(q, p.lower[i]), Mul(q, p.upper[i]);
    var z := Clip(-p.linear[i] - mu, low, high);
    assert Taken(p, mu)[i] == z / q;
    assert p.lower[i] <= p.upper[i] by { BoundsOrdered(p, i); }
    MulOrder(p.lower[i], p.upper[i], q);
    MulQuotient(z, q);
    MulCommutes(z / q, q);
    QuotientOrder(low, z, q);
    QuotientOrder(z, high, q);
    MulCommutes(q, p.lower[i]);
    MulCommutes(q, p.upper[i]);
    QuotientOfProduct(p.lower[i], q);
    QuotientOfProduct(p.upper[i], q);
  }

  lemma BoundsOrdered(p: Portfolio, i: nat)
    requires p.Valid() && i < |p.lower|
    ensures p.lower[i] <= p.upper[i]
  {
    hide Sum;
  }

  // ---------------------------------------------------------------------------------------
  // Some price meets the target
  // ---------------------------------------------------------------------------------------

  /** Between the points where some resource starts or stops being at a bound, every amount is affine. */
  lemma TakenIsAffineAt(p: Portfolio, a: real, b: real, t: real, i: nat)
    requires p.Valid() && a <= b && 0.0 <= t <= 1.0 && i < |p.lower| && Inside(Marginals(p), a, b) == {}
    ensures Taken(p, a + Mul(t, b - a))[i] == Taken(p, a)[i] + Mul(t, Taken(p, b)[i] - Taken(p, a)[i])
  {
    hide Mul, Clip, Attainable, Inside;
    var m := Marginals(p);
    NoBreakpoint(m, a, b, i);
    BoundsOrdered(p, i);
    MulOrder(p.lower[i], p.upper[i], p.quadratic[i]);
    AffineClip(m.values[i], m.lower[i], m.upper[i], a, b, t);
    QuotientAffine(Clip(m.values[i] - a, m.lower[i], m.upper[i]), Clip(m.values[i] - b, m.lower[i], m.upper[i]), t,
                   p.quadratic[i]);
  }

  lemma NoBreakpoint(m: Problem, a: real, b: real, i: nat)
    requires m.Valid() && i < |m.values| && Inside(m, a, b) == {}
    ensures !(a < m.values[i] - m.upper[i] < b) && !(a < m.values[i] - m.lower[i] < b)
  {
    hide Sum;
    assert i !in Inside(m, a, b) && (i + |m.values|) !in Inside(m, a, b);
  }

  lemma QuotientAffine(a: real, b: real, t: real, d: real)
    requires d != 0.0
    ensures (a + Mul(t, b - a)) / d == a / d + Mul(t, b / d - a / d)
  {
    hide Mul;
    QuotientSum(a, Mul(t, b - a), d);
    QuotientMoves(t, b - a, d);
    QuotientSum(b, a, d);
  }

  lemma {:induction false} TakenIsAffine(p: Portfolio, a: real, b: real, t: real, k: nat)
    requires p.Valid() && a <= b && 0.0 <= t <= 1.0 && k <= |p.lower| && Inside(Marginals(p), a, b) == {}
    ensures Total(Taken(p, a + Mul(t, b - a)), k) ==
            Total(Taken(p, a), k) + Mul(t, Total(Taken(p, b), k) - Total(Taken(p, a), k))
  {
    hide Mul, Taken, Attainable, Inside, Marginals;
    if k == 0 {
      MulZero(t);
    } else {
      TakenIsAffine(p, a, b, t, k - 1);
      TakenIsAffineAt(p, a, b, t, k - 1);
      var za, zb := Taken(p, a), Taken(p, b);
      MulSum(t, Total(zb, k - 1) - Total(za, k - 1), zb[k - 1] - za[k - 1]);
    }
  }

  /** Intermediate value: a bracket of the target contains a price that meets it. */
  lemma {:induction false} PriceWithin(p: Portfolio, a: real, b: real) returns (mu: real)
    requires p.Valid() && a <= b && Sum(Taken(p, b)) <= p.target <= Sum(Taken(p, a))
    ensures a <= mu <= b && Sum(Taken(p, mu)) == p.target
    decreases Inside(Marginals(p), a, b)
  {
    hide Taken, Mul, Attainable;
    var m := Marginals(p);
    if i :| i in Inside(m, a, b) {
      var mid := Breakpoint(m, i);
      assert i !in Inside(m, a, mid) && i !in Inside(m, mid, b);
      assert Inside(m, a, mid) < Inside(m, a, b) && Inside(m, mid, b) < Inside(m, a, b);
      if Sum(Taken(p, mid)) >= p.target {
        mu := PriceWithin(p, mid, b);
      } else {
        mu := PriceWithin(p, a, mid);
      }
    } else {
      var drop := Sum(Taken(p, a)) - Sum(Taken(p, b));
      if drop == 0.0 {
        mu := a;
      } else {
        var t := (Sum(Taken(p, a)) - p.target) / drop;
        FractionWithin(Sum(Taken(p, a)) - p.target, drop);
        MulQuotient(Sum(Taken(p, a)) - p.target, drop);
        MulNegated(t, drop);
        MulWithin(t, b - a);
        mu := a + Mul(t, b - a);
        TakenIsAffine(p, a, b, t, |p.lower|);
      }
    }
  }

  /** At the ends of the bracket everybody is at a bound. */
  lemma TakenAtEnds(p: Portfolio, low: real, high: real)
    requires p.Valid() && low == Marginals(p).Start().low && high == Marginals(p).Start().high
    ensures Sum(Taken(p, high)) <= p.target <= Sum(Taken(p, low)) && low <= high
  {
    hide Mul, LeastGap, GreatestGap;
    var m, n := Marginals(p), |p.lower|;
    StartBrackets(m);
    forall i | 0 <= i < n ensures Taken(p, low)[i] == p.upper[i] && Taken(p, high)[i] == p.lower[i] {
      var d := p.quadratic[i];
      MulOrder(p.lower[i], p.upper[i], d);
      assert low < m.values[i] - m.upper[i] && high > m.values[i] - m.lower[i];
      MulCommutes(d, p.lower[i]);
      MulCommutes(d, p.upper[i]);
      QuotientOfProduct(p.lower[i], d);
      QuotientOfProduct(p.upper[i], d);
    }
    TotalEqual(Taken(p, low), p.upper, n);
    TotalEqual(Taken(p, high), p.lower, n);
  }

  // ---------------------------------------------------------------------------------------
  // How large the price can be
  // ---------------------------------------------------------------------------------------

  /** Linear costs and the marginal costs of both bounds, all together. */
  function MarginalReach(p: Portfolio, k: nat): (r: real)
    requires p.Shaped() && k <= |p.lower|
  {
    if k == 0 then 0.0
    else
      var i := k - 1;
      MarginalReach(p, i)
      + (Abs(p.linear[i]) + Abs(Mul(p.quadratic[i], p.lower[i])) + Abs(Mul(p.quadratic[i], p.upper[i])))
  }

  lemma {:induction false} MarginalReachHolds(p: Portfolio, k: nat, i: nat)
    requires p.Shaped() && i < k <= |p.lower|
    ensures Abs(p.linear[i]) + Abs(Mul(p.quadratic[i], p.lower[i])) + Abs(Mul(p.quadratic[i], p.upper[i])) <=
            MarginalReach(p, k)
  {
    hide Mul;
    if i < k - 1 { MarginalReachHolds(p, k - 1, i); } else { MarginalReachSign(p, k - 1); }
  }

  lemma {:induction false} MarginalReachSign(p: Portfolio, k: nat)
    requires p.Shaped() && k <= |p.lower|
    ensures MarginalReach(p, k) >= 0.0
  {
    hide Mul;
    if k > 0 { MarginalReachSign(p, k - 1); }
  }

  function PriceLimit(p: Portfolio): real
    requires p.Shaped()
  {
    MarginalReach(p, |p.lower|) + 1.0
  }

  /** Differences within a reach have extremes within it. */
  lemma {:induction false} GapsWithin(a: seq<real>, b: seq<real>, c: seq<real>, k: nat, reach: real)
    requires 0 < k <= |a| == |b| == |c|
    requires forall i :: 0 <= i < k ==> Abs(a[i]) + Abs(b[i]) + Abs(c[i]) <= reach
    ensures -reach <= LeastGap(a, c, k) && GreatestGap(a, b, k) <= reach
  {
    if k > 1 { GapsWithin(a, b, c, k - 1, reach); }
  }

  /** Main result: a valid portfolio has a feasible allocation supported by a price, and the price is no
      larger than its costs and bounds allow. */
  lemma SupportedAllocationExists(p: Portfolio) returns (best: seq<real>, price: real)
    requires p.Valid()
    ensures Priced(p, best, price) && Abs(price) <= PriceLimit(p)
  {
    hide Mul, Taken, LeastGap, GreatestGap, PricedAt;
    var m, n := Marginals(p), |p.lower|;
    var low, high := m.Start().low, m.Start().high;
    TakenAtEnds(p, low, high);
    var mu := PriceWithin(p, low, high);
    best, price := Taken(p, mu), -mu;
    forall i | 0 <= i < n ensures p.lower[i] <= best[i] <= p.upper[i] && PricedAt(p, best, price, i) {
      TakenIsPriced(p, mu, i);
    }
    forall i | 0 <= i < n ensures Abs(m.values[i]) + Abs(m.lower[i]) + Abs(m.upper[i]) <= MarginalReach(p, n) {
      MarginalReachHolds(p, n, i);
    }
    GapsWithin(m.values, m.lower, m.upper, n, MarginalReach(p, n));
  }

  /** So there is a cheapest allocation, and it is the only one. */
  lemma CheapestExists(p: Portfolio) returns (best: seq<real>)
    requires p.Valid()
    ensures p.Feasible(best) && Cheapest(p, best)
  {
    hide Mul, Cost, Marginal;
    var price;
    best, price := SupportedAllocationExists(p);
    forall i, j | 0 <= i < |best| && 0 <= j < |best| && best[i] < p.upper[i] && best[j] > p.lower[j]
      ensures Marginal(p, best, j) <= Marginal(p, best, i)
    {
      assert PricedAt(p, best, price, i) && PricedAt(p, best, price, j);
    }
    CheapestIff(p, best);
  }
}
