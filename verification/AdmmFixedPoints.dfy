/** When the allocation of coordinate_portfolio_admm is the cheapest: the exact condition on it, and a
    problem on which both residuals are zero and the condition fails. */
module AdmmFixedPoints {
  import opened RealMath
  import opened BoundedProjection
  import opened PortfolioAdmm

  // ---------------------------------------------------------------------------------------
  // No transfer pays
  // ---------------------------------------------------------------------------------------

  /** Moving power from a resource that can give to one that can take never saves money. */
  ghost predicate NoTransferPays(p: Portfolio, z: seq<real>)
    requires p.Shaped() && |z| == |p.lower|
  {
    forall i, j :: 0 <= i < |z| && 0 <= j < |z| && z[i] < p.upper[i] && z[j] > p.lower[j] ==>
      Marginal(p, z, j) <= Marginal(p, z, i)
  }

  ghost predicate Cheapest(p: Portfolio, z: seq<real>)
    requires p.Shaped() && |z| == |p.lower|
  {
    forall y :: p.Feasible(y) && y != z ==> Cost(p, z, |z|) < Cost(p, y, |z|)
  }

  /** The dearest resource that can give, among the first k. */
  lemma {:induction false} DearestGiver(p: Portfolio, z: seq<real>, k: nat) returns (best: nat)
    requires p.Shaped() && k <= |z| == |p.lower| && exists j :: 0 <= j < k && z[j] > p.lower[j]
    ensures best < k && z[best] > p.lower[best]
    ensures forall j :: 0 <= j < k && z[j] > p.lower[j] ==> Marginal(p, z, j) <= Marginal(p, z, best)
  {
    hide Mul, Marginal;
    if exists j :: 0 <= j < k - 1 && z[j] > p.lower[j] {
      best := DearestGiver(p, z, k - 1);
      if z[k - 1] > p.lower[k - 1] && Marginal(p, z, k - 1) > Marginal(p, z, best) { best := k - 1; }
    } else {
      best := k - 1;
    }
  }

  /** A price between what givers save and what takers cost supports the allocation. */
  lemma {:induction false} PriceSupports(p: Portfolio, z: seq<real>, y: seq<real>, price: real, k: nat)
    requires p.Valid() && |z| == |y| == |p.lower| && k <= |z| && InBox(y, p.lower, p.upper)
    requires forall i :: 0 <= i < |z| && z[i] < p.upper[i] ==> price <= Marginal(p, z, i)
    requires forall i :: 0 <= i < |z| && z[i] > p.lower[i] ==> Marginal(p, z, i) <= price
    ensures Cost(p, z, k) + Mul(price, Total(y, k) - Total(z, k)) + Curvature(p, y, z, k) <= Cost(p, y, k)
  {
    hide Mul, Sq, UnitCost, Attainable;
    if k == 0 {
      MulZero(price);
    } else {
      var i := k - 1;
      PriceSupports(p, z, y, price, i);
      var g, d := Marginal(p, z, i), y[i] - z[i];
      CostExpands(p.quadratic[i], p.linear[i], z[i], y[i]);
      MulSum(price, Total(y, i) - Total(z, i), d);
      MulSum(d, price, g - price);
      MulNegated(g - price, -d);
      MulZero(g - price);
      if d > 0.0 {
        MulNonNegative(g - price, d);
      } else if d < 0.0 {
        MulNonNegative(price - g, -d);
        MulNegated(price - g, d);
        MulNegated(g - price, d);
      }
    }
  }

  lemma SupportedIsCheapest(p: Portfolio, z: seq<real>, y: seq<real>)
    requires p.Valid() && p.Feasible(z) && NoTransferPays(p, z) && p.Feasible(y) && y != z
    ensures Cost(p, z, |z|) < Cost(p, y, |z|)
  {
    hide Mul, Cost, Curvature, Marginal, Attainable, Total;
    var n := |z|;
    if exists j :: 0 <= j < n && z[j] > p.lower[j] {
      var giver := DearestGiver(p, z, n);
      var price := Marginal(p, z, giver);
      PriceSupports(p, z, y, price, n);
      MulZero(price);
      CurvaturePositive(p, y, z, n);
      assert y[..n] == y && z[..n] == z;
    } else {
      NoGiver(p, z, y);
    }
  }

  /** When everybody is at the lower bound there is no other feasible allocation. */
  lemma NoGiver(p: Portfolio, z: seq<real>, y: seq<real>)
    requires p.Valid() && p.Feasible(z) && p.Feasible(y) && forall j :: 0 <= j < |z| ==> z[j] <= p.lower[j]
    ensures y == z
  {
    var n := |z|;
    OrderedDistance(z, y, n);
    ZeroDistance(z, y, n);
    assert y[..n] == y && z[..n] == z;
  }

  lemma {:induction false} CostUpdate(p: Portfolio, z: seq<real>, i: nat, v: real, k: nat)
    requires p.Shaped() && i < |z| == |p.lower| && k <= |z|
    ensures Cost(p, z[i := v], k) ==
            Cost(p, z, k) + (if i < k
                             then UnitCost(p.quadratic[i], p.linear[i], v) - UnitCost(p.quadratic[i], p.linear[i], z[i])
                             else 0.0)
  {
    hide UnitCost;
    if k > 0 { CostUpdate(p, z, i, v, k - 1); }
  }

  /** A transfer that pays leads to a cheaper feasible allocation. */
  lemma PayingTransfer(p: Portfolio, z: seq<real>, i: nat, j: nat) returns (y: seq<real>)
    requires p.Valid() && p.Feasible(z) && i < |z| && j < |z|
    requires z[i] < p.upper[i] && z[j] > p.lower[j] && Marginal(p, z, j) > Marginal(p, z, i)
    ensures p.Feasible(y) && y != z && Cost(p, y, |z|) < Cost(p, z, |z|)
  {
    hide Mul, Sq, Cost, UnitCost;
    var n := |z|;
    var saving := Marginal(p, z, j) - Marginal(p, z, i);
    var q := p.quadratic[i] + p.quadratic[j];
    var t := Min(Min(p.upper[i] - z[i], z[j] - p.lower[j]), saving / q);
    QuotientPositive(saving, q);
    var up := z[i := z[i] + t];
    y := up[j := up[j] - t];
    TotalUpdate(z, i, z[i] + t, n);
    TotalUpdate(up, j, up[j] - t, n);
    CostUpdate(p, z, i, z[i] + t, n);
    CostUpdate(p, up, j, up[j] - t, n);
    TransferCost(p.quadratic[i], p.linear[i], z[i], t);
    TransferCost(p.quadratic[j], p.linear[j], z[j], -t);
    TransferSaves(p, z, i, j, t);
  }

  lemma QuotientPositive(a: real, d: real)
    requires a > 0.0 && d > 0.0
    ensures a / d > 0.0
  {}

  lemma TransferCost(q: real, c: real, x: real, t: real)
    ensures UnitCost(q, c, x + t) - UnitCost(q, c, x) == Mul(Mul(q, x) + c, t) + 0.5 * Mul(q, Sq(t))
  {
    hide Mul, Sq, UnitCost;
    CostExpands(q, c, x, x + t);
  }

  lemma TransferSaves(p: Portfolio, z: seq<real>, i: nat, j: nat, t: real)
    requires p.Valid() && |z| == |p.lower| && i < |z| && j < |z|
    requires Marginal(p, z, j) > Marginal(p, z, i)
    requires 0.0 < t <= (Marginal(p, z, j) - Marginal(p, z, i)) / (p.quadratic[i] + p.quadratic[j])
    ensures Mul(Marginal(p, z, i), t) + 0.5 * Mul(p.quadratic[i], Sq(t))
            + Mul(Marginal(p, z, j), -t) + 0.5 * Mul(p.quadratic[j], Sq(-t)) < 0.0
  {
    hide Mul, Marginal, Attainable;
    var saving, q := Marginal(p, z, j) - Marginal(p, z, i), p.quadratic[i] + p.quadratic[j];
    MulOrder(t, saving / q, q);
    MulQuotient(saving, q);
    MulNegated(-t, t);
    MulNegated(t, t);
    MulSum(Sq(t), p.quadratic[i], p.quadratic[j]);
    MulNegated(Marginal(p, z, j), t);
    MulSum(t, saving, Marginal(p, z, i));
    MulAssociative(t, q, t);
    MulAssociative(q, t, t);
    MulCommutes(t, q);
    MulOrder(Mul(t, q), saving, t);
    MulPositive(saving, t);
  }

  /** A feasible allocation is the one cheapest among all feasible ones exactly when no transfer pays: the
      check that tells whether a returned allocation is optimal. */
  lemma CheapestIff(p: Portfolio, z: seq<real>)
    requires p.Valid() && p.Feasible(z)
    ensures Cheapest(p, z) <==> NoTransferPays(p, z)
  {
    hide Cost, Marginal, Mul;
    if NoTransferPays(p, z) {
      forall y | p.Feasible(y) && y != z ensures Cost(p, z, |z|) < Cost(p, y, |z|) { SupportedIsCheapest(p, z, y); }
    } else {
      var i, j :| 0 <= i < |z| && 0 <= j < |z| && z[i] < p.upper[i] && z[j] > p.lower[j]
                  && Marginal(p, z, j) > Marginal(p, z, i);
      var y := PayingTransfer(p, z, i, j);
      assert Cost(p, z, |z|) >= Cost(p, y, |z|);
    }
  }

  // ---------------------------------------------------------------------------------------
  // Zero residuals, but not the cheapest
  // ---------------------------------------------------------------------------------------

  /** Two equal resources that are to deliver a third of a kilowatt together. */
  const THIRD := Portfolio([0.0, 0.0], [10.0, 10.0], [1.0, 1.0], [0.0, 0.0], 1.0 / 3.0, 1.0)

  const ORIGIN := Problem([0.0, 0.0], [0.0, 0.0], [10.0, 10.0], 1.0 / 3.0)

  lemma Pair(a: real, b: real)
    ensures Sum([a, b]) == a + b
  {
    assert Total([a, b], 1) == a;
  }

  lemma ThirdIsValid()
    ensures THIRD.Valid() && ORIGIN.Valid()
  {
    Pair(0.0, 0.0);
    Pair(10.0, 10.0);
  }

  function TwoTo(k: nat): int { if k == 0 then 1 else 2 * TwoTo(k - 1) }

  lemma {:induction false} TwoToFacts(k: nat)
    ensures PowerOfTwo(k) == TwoTo(k) as real && TwoTo(k) % 3 != 0 && TwoTo(k) > k
  {
    if k > 0 {
      TwoToFacts(k - 1);
      DoubleOfNonMultiple(TwoTo(k - 1));
    }
  }

  lemma DoubleOfNonMultiple(n: int)
    requires n % 3 != 0
    ensures (2 * n) % 3 != 0
  {
    assert 2 * n == 3 * (2 * (n / 3)) + 2 * (n % 3);
  }

  lemma OriginStart()
    ensures ORIGIN.Start() == Bracket(-11.0, 1.0)
  {
    assert LeastGap(ORIGIN.values, ORIGIN.upper, 1) == -10.0;
    assert GreatestGap(ORIGIN.values, ORIGIN.lower, 1) == 0.0;
  }

  /** After k halvings both ends of the bracket sit at whole twelfths of the k-th halving above -11. */
  lemma {:induction false} OnGrid(k: nat) returns (low: int, high: int)
    ensures Mul(Bisected(ORIGIN, k).low + 11.0, TwoTo(k) as real) == 12.0 * low as real
    ensures Mul(Bisected(ORIGIN, k).high + 11.0, TwoTo(k) as real) == 12.0 * high as real
  {
    hide Sum, Shifted;
    if k == 0 {
      OriginStart();
      MulZero(1.0);
      MulIs(12.0, 1.0);
      low, high := 0, 1;
    } else {
      var a, b := OnGrid(k - 1);
      var before := Bisected(ORIGIN, k - 1);
      var q := TwoTo(k - 1) as real;
      MidOnGrid(before.low, before.high, q, a, b);
      if ORIGIN.TotalAt(before.Mid()) > ORIGIN.target { low, high := a + b, 2 * b; } else { low, high := 2 * a, a + b; }
    }
  }

  lemma MidOnGrid(low: real, high: real, q: real, a: int, b: int)
    requires Mul(low + 11.0, q) == 12.0 * a as real && Mul(high + 11.0, q) == 12.0 * b as real
    ensures Mul((low + high) / 2.0 + 11.0, 2.0 * q) == 12.0 * (a + b) as real
    ensures Mul(low + 11.0, 2.0 * q) == 12.0 * (2 * a) as real && Mul(high + 11.0, 2.0 * q) == 12.0 * (2 * b) as real
  {}

  /** So the bisection never lands on the exact multiplier, minus a sixth. */
  lemma NeverExact()
    ensures Bisected(ORIGIN, HALVINGS).Mid() != -1.0 / 6.0
  {
    hide Sum, Shifted, TwoTo, Bisected;
    var a, b := OnGrid(HALVINGS);
    var bracket := Bisected(ORIGIN, HALVINGS);
    var q := TwoTo(HALVINGS);
    TwoToFacts(HALVINGS);
    MidOnGrid(bracket.low, bracket.high, q as real, a, b);
    if bracket.Mid() == -1.0 / 6.0 {
      SixtyFiveSixths(q, a + b);
    }
  }

  lemma SixtyFiveSixths(q: int, m: int)
    requires Mul(-1.0 / 6.0 + 11.0, 2.0 * q as real) == 12.0 * m as real
    ensures q % 3 == 0
  {
    ClearDenominators(q as real, m as real);
    hide Mul;
    assert (65 * q) as real == (36 * m) as real;
    MultipleOfThree(q, m);
  }

  lemma ClearDenominators(a: real, b: real)
    requires Mul(-1.0 / 6.0 + 11.0, 2.0 * a) == 12.0 * b
    ensures 65.0 * a == 36.0 * b
  {
    assert -1.0 / 6.0 + 11.0 == 65.0 / 6.0;
    MulIs(65.0 / 6.0, 2.0 * a);
    hide Mul;
  }

  lemma MultipleOfThree(q: int, m: int)
    requires 65 * q == 36 * m
    ensures q % 3 == 0
  {
    assert q == 3 * (22 * q - 12 * m);
  }

  /** Where the bisection ends: both entries equal, near a sixth but not on it. */
  lemma CoarseOrigin() returns (m: real)
    ensures ORIGIN.Valid() && Coarse(ORIGIN) == [m, m] && m != 1.0 / 6.0
    ensures Shortfall(ORIGIN) == 1.0 / 3.0 - 2.0 * m && Abs(Shortfall(ORIGIN)) <= 0.25
  {
    hide Sum, TwoTo, Bisected, PowerOfTwo;
    ThirdIsValid();
    var mid := Bisected(ORIGIN, HALVINGS).Mid();
    m := Clip(0.0 - mid, 0.0, 10.0);
    assert Coarse(ORIGIN) == [m, m];
    Pair(m, m);
    CoarseIs(ORIGIN);
    NeverExact();
    TwoToFacts(HALVINGS + 1);
    OriginStart();
    BisectionGap(ORIGIN, HALVINGS);
    MulIs(2.0, 12.0);
    var gap := Abs(Shortfall(ORIGIN));
    assert |ORIGIN.values| as real == 2.0;
    MulOrder(100.0, PowerOfTwo(HALVINGS + 1), gap);
    MulIs(gap, 100.0);
    assert gap <= 0.25;
  }

  /** The greedy correction puts all that is missing on one of the two. */
  lemma CorrectedOrigin(argsort: seq<real> -> seq<nat>) returns (m: real, i: nat)
    requires IsArgsort(argsort)
    ensures ORIGIN.Valid() && i < 2 && m != 1.0 / 6.0
    ensures Projection(ORIGIN, argsort) == [m, m][i := 1.0 / 3.0 - m] && 0.0 <= m <= 10.0 && 0.0 <= 1.0 / 3.0 - m
  {
    hide Coarse, Shortfall, Sum;
    m := CoarseOrigin();
    var c := Shortfall(ORIGIN);
    var keys := ORIGIN.Keys([m, m], c);
    assert IsPermutation(argsort(keys), |keys|);
    i := argsort(keys)[0];
    CorrectedOnce(m, c, argsort(keys));
  }

  lemma CorrectedOnce(m: real, c: real, order: seq<nat>)
    requires |order| == 2 && order[0] < 2 && order[1] < 2
    requires c == 1.0 / 3.0 - 2.0 * m && Abs(c) <= 0.25 && 0.0 <= m <= 10.0
    ensures ORIGIN.Corrected([m, m], c, order, 0) == [m, m][order[0] := 1.0 / 3.0 - m] && 0.0 <= 1.0 / 3.0 - m
  {
    assert CopySign(Min(Abs(c), ORIGIN.Room([m, m], order[0], c)), c) == c;
  }

  /** Both residuals exactly zero and the target met exactly, yet a cheaper allocation exists: here the
      iterate the projection of the origin gives, with its negative as dual, for every argsort. */
  lemma ZeroResidualsNotCheapest(argsort: seq<real> -> seq<nat>) returns (s: Iterate)
    requires IsArgsort(argsort)
    ensures THIRD.Valid() && s.Sized(2)
    ensures var t := Step(THIRD, s, argsort);
            t.x == t.z && t.z == s.z && t.dual == s.dual && THIRD.Feasible(t.z) && !Cheapest(THIRD, t.z)
  {
    hide Sum, Projection, Step, Cheapest;
    ThirdIsValid();
    var m, i := CorrectedOrigin(argsort);
    var z := Projection(ORIGIN, argsort);
    s := Iterate(z, z, Negated(z));
    StaysPut(z, argsort);
    Pair(z[0], z[1]);
    assert z == [z[0], z[1]];
    TransferPays(z);
    CheapestIff(THIRD, z);
  }

  function Negated(z: seq<real>): (d: seq<real>)
    ensures |d| == |z| && forall k :: 0 <= k < |z| ==> d[k] == -z[k]
  {
    seq(|z|, k requires 0 <= k < |z| => -z[k])
  }

  lemma StaysPut(z: seq<real>, argsort: seq<real> -> seq<nat>)
    requires IsArgsort(argsort) && ORIGIN.Valid() && THIRD.Valid() && z == Projection(ORIGIN, argsort)
    requires 0.0 <= z[0] <= 10.0 && 0.0 <= z[1] <= 10.0
    ensures Step(THIRD, Iterate(z, z, Negated(z)), argsort) == Iterate(z, z, Negated(z))
  {
    hide Sum, Projection, LocalMinimum;
    HalfOfDouble(z[0]);
    HalfOfDouble(z[1]);
    var t := Step(THIRD, Iterate(z, z, Negated(z)), argsort);
    assert t.x == z;
    assert Added(t.x, Negated(z)) == [0.0, 0.0];
    assert Coupling(THIRD, Added(t.x, Negated(z))) == ORIGIN;
    assert t.dual == Negated(z);
  }

  lemma HalfOfDouble(v: real)
    requires 0.0 <= v <= 10.0
    ensures LocalMinimum(1.0, 0.0, 1.0, v, -v, 0.0, 10.0) == v
  {}

  lemma TransferPays(z: seq<real>)
    requires |z| == 2 && z[0] != z[1] && 0.0 <= z[0] < 10.0 && 0.0 <= z[1] < 10.0
    ensures !NoTransferPays(THIRD, z)
  {
    assert Marginal(THIRD, z, 0) == z[0] && Marginal(THIRD, z, 1) == z[1];
    if z[0] < z[1] {
      assert z[1] > THIRD.lower[1] && z[0] < THIRD.upper[0];
    } else {
      assert z[0] > THIRD.lower[0] && z[1] < THIRD.upper[1];
    }
  }
}
