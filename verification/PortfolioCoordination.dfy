/** The loop of coordinate_portfolio_admm in advanced_ems.py. */
module PortfolioCoordination {
  import opened RealMath
  import opened BoundedProjection
  import opened PortfolioAdmm
  import opened AdmmConvergence

  datatype Outcome =
    | Converged(allocation: seq<real>, iterations: nat)
    | NotConverged
    | TooFewResources
    | InvalidParameters
    | TargetOutOfBounds

  // ---------------------------------------------------------------------------------------
  // The problem as it is posed
  // ---------------------------------------------------------------------------------------

  /** What the first k resources cost at these powers. */
  function Bill(resources: seq<Resource>, y: seq<real>, k: nat): real
    requires k <= |resources| && k <= |y|
  {
    if k == 0 then 0.0
    else
      var r, kw := resources[k - 1], y[k - 1];
      Bill(resources, y, k - 1) +
      (0.5 * Mul(if r.quadraticCost > 0.00000001 then r.quadraticCost else 0.00000001, Sq(kw)) + Mul(r.linearCost, kw))
  }

  /** Every resource within its own bounds. */
  ghost predicate WithinBounds(resources: seq<Resource>, y: seq<real>) {
    |y| == |resources| && forall i :: 0 <= i < |y| ==> resources[i].minimumKw <= y[i] <= resources[i].maximumKw
  }

  function LeastTotal(resources: seq<Resource>, k: nat): real
    requires k <= |resources|
  {
    if k == 0 then 0.0 else LeastTotal(resources, k - 1) + resources[k - 1].minimumKw
  }

  function GreatestTotal(resources: seq<Resource>, k: nat): real
    requires k <= |resources|
  {
    if k == 0 then 0.0 else GreatestTotal(resources, k - 1) + resources[k - 1].maximumKw
  }

  /** The resources can deliver the target together. */
  ghost predicate CanDeliver(resources: seq<Resource>, target: real) {
    && (forall i :: 0 <= i < |resources| ==> resources[i].minimumKw <= resources[i].maximumKw)
    && LeastTotal(resources, |resources|) <= target <= GreatestTotal(resources, |resources|)
  }

  lemma {:induction false} BillIsCost(resources: seq<Resource>, target: real, rho: real, y: seq<real>, k: nat)
    requires k <= |resources| == |y|
    ensures Bill(resources, y, k) == Cost(Build(resources, target, rho), y, k)
  {
    hide Mul, Sq;
    if k > 0 { BillIsCost(resources, target, rho, y, k - 1); }
  }

  lemma {:induction false} TotalsAreSums(resources: seq<Resource>, target: real, rho: real, k: nat)
    requires k <= |resources|
    ensures var p := Build(resources, target, rho);
            LeastTotal(resources, k) == Total(p.lower, k) && GreatestTotal(resources, k) == Total(p.upper, k)
  {
    if k > 0 { TotalsAreSums(resources, target, rho, k - 1); }
  }

  lemma CanDeliverMeans(resources: seq<Resource>, target: real, rho: real)
    ensures var p := Build(resources, target, rho);
            CanDeliver(resources, target) <==> Attainable(p.lower, p.upper, target)
  {
    TotalsAreSums(resources, target, rho, |resources|);
  }

  /** The allocation is in bounds and on target, and at most the slack dearer than any other that is. */
  ghost predicate NearlyCheapest(resources: seq<Resource>, target: real, allocation: seq<real>, slack: real) {
    && WithinBounds(resources, allocation) && Abs(Sum(allocation) - target) < 0.000000001
    && forall y :: WithinBounds(resources, y) && Sum(y) == target ==>
         Bill(resources, allocation, |allocation|) <= Bill(resources, y, |y|) + slack
  }

  lemma ConvergedIsNearlyCheapest(resources: seq<Resource>, target: real, rho: real, tolerance: real, k: nat,
                                  argsort: seq<real> -> seq<nat>)
    requires IsArgsort(argsort) && tolerance > 0.0 && k > 0
    requires var p := Build(resources, target, rho); p.Valid() && SettledAt(p, argsort, tolerance, k)
    ensures var p := Build(resources, target, rho);
            NearlyCheapest(resources, target, Iterated(p, argsort, k).z, Slack(p, Iterated(p, argsort, k), tolerance))
  {
    var p := Build(resources, target, rho);
    hide Build, Sum, Attainable, SettledAt, Iterated, Slack, Cost, Bill;
    var t := Iterated(p, argsort, k);
    IteratesStayFeasible(p, argsort, k);
    ConvergedIsNearOptimal(p, argsort, tolerance, k);
    forall y | WithinBounds(resources, y) && Sum(y) == target
      ensures Bill(resources, t.z, |t.z|) <= Bill(resources, y, |y|) + Slack(p, t, tolerance)
    {
      BillIsCost(resources, target, rho, t.z, |t.z|);
      BillIsCost(resources, target, rho, y, |y|);
      assert p.Feasible(y);
    }
  }

  // ---------------------------------------------------------------------------------------
  // The loop
  // ---------------------------------------------------------------------------------------

  /** Stops at the first iteration whose two residuals are within tolerance; every way to fail has its
      own outcome, and each is taken exactly when the source raises that error. The limit on iterations is
      reached only if it is too small for what the portfolio and the tolerance ask for. */
  method CoordinatePortfolio(resources: seq<Resource>, target: real, rho: real, tolerance: real,
                             maxIterations: int, argsort: seq<real> -> seq<nat>)
    returns (outcome: Outcome)
    requires IsArgsort(argsort)
    ensures outcome.TooFewResources? <==> |resources| < 2
    ensures outcome.InvalidParameters? <==> |resources| >= 2 && (rho <= 0.0 || tolerance <= 0.0 || maxIterations < 1)
    ensures outcome.TargetOutOfBounds? <==>
            |resources| >= 2 && rho > 0.0 && tolerance > 0.0 && maxIterations >= 1 && !CanDeliver(resources, target)
    ensures outcome.Converged? ==>
              var p := Build(resources, target, rho);
              var k := outcome.iterations;
              && p.Valid() && 1 <= k <= maxIterations
              && outcome.allocation == Iterated(p, argsort, k).z
              && SettledAt(p, argsort, tolerance, k)
              && (forall j :: 1 <= j < k ==> !SettledAt(p, argsort, tolerance, j))
              && NearlyCheapest(resources, target, outcome.allocation, Slack(p, Iterated(p, argsort, k), tolerance))
    ensures outcome.NotConverged? ==>
              var p := Build(resources, target, rho);
              && p.Valid() && maxIterations > 0
              && (forall j :: 1 <= j <= maxIterations ==> !SettledAt(p, argsort, tolerance, j))
              && Mul((maxIterations - 1) as real, Progress(p, tolerance, maxIterations)) <=
                 StartEnergy(p) + Mul(maxIterations as real, LossBy(p, maxIterations))
  {
    hide Sum, Sq, Mul, SquareDistance, Projection, CanDeliver, NearlyCheapest;
    if |resources| < 2 {
      return TooFewResources;
    }
    if rho <= 0.0 || tolerance <= 0.0 || maxIterations < 1 {
      return InvalidParameters;
    }
    var p := Build(resources, target, rho);
    var bounded := true;
    for i := 0 to |resources|
      invariant bounded <==> forall j :: 0 <= j < i ==> p.lower[j] <= p.upper[j]
    {
      if p.upper[i] < p.lower[i] {
        bounded := false;
      }
    }
    CanDeliverMeans(resources, target, rho);
    if !bounded || !(Sum(p.lower) <= target <= Sum(p.upper)) {
      return TargetOutOfBounds;
    }
    hide Build, Attainable;
    outcome := IterateToTolerance(p, tolerance, maxIterations, argsort);
    if outcome.Converged? {
      ConvergedIsNearlyCheapest(resources, target, rho, tolerance, outcome.iterations, argsort);
    } else {
      UnsettledIsShort(p, argsort, tolerance, maxIterations);
    }
  }

  /** The iteration proper, for a valid portfolio. */
  method IterateToTolerance(p: Portfolio, tolerance: real, maxIterations: nat, argsort: seq<real> -> seq<nat>)
    returns (outcome: Outcome)
    requires p.Valid() && IsArgsort(argsort) && maxIterations >= 1
    ensures outcome.Converged? || outcome.NotConverged?
    ensures outcome.Converged? ==>
              var k := outcome.iterations;
              && 1 <= k <= maxIterations
              && outcome.allocation == Iterated(p, argsort, k).z
              && SettledAt(p, argsort, tolerance, k)
              && forall j :: 1 <= j < k ==> !SettledAt(p, argsort, tolerance, j)
    ensures outcome.NotConverged? ==> forall j :: 1 <= j <= maxIterations ==> !SettledAt(p, argsort, tolerance, j)
  {
    hide Sum, Sq, Mul, SquareDistance, Step, Initial, IsArgsort, Attainable;
    var x, z, dual := Begin(p, argsort);
    for k := 1 to maxIterations + 1
      invariant Iterate(x, z, dual) == Iterated(p, argsort, k - 1)
      invariant forall j :: 1 <= j < k ==> !SettledAt(p, argsort, tolerance, j)
    {
      var previousZ := z;
      x, z, dual := Advance(p, z, dual, argsort, x);
      if SquareDistance(x, z, |z|) <= Sq(tolerance)
          && Mul(Sq(p.rho), SquareDistance(z, previousZ, |z|)) <= Sq(tolerance) {
        return Converged(z, k);
      }
    }
    return NotConverged;
  }

  method Begin(p: Portfolio, argsort: seq<real> -> seq<nat>) returns (x: seq<real>, z: seq<real>, dual: seq<real>)
    requires p.Valid() && IsArgsort(argsort)
    ensures Iterate(x, z, dual) == Initial(p, argsort)
  {
    hide Sum, Projection, Clip;
    var n := |p.lower|;
    x := seq(n, i requires 0 <= i < n && p.Shaped() && |p.lower| == n =>
           Clip(p.target / n as real, p.lower[i], p.upper[i]));
    assert x == Initial(p, argsort).x;
    z := ProjectBoundedSum(x, p.lower, p.upper, p.target, argsort);
    dual := seq(n, i => 0.0);
  }

  /** One pass of the loop: local minimisation, projection, dual update. */
  method Advance(p: Portfolio, z: seq<real>, dual: seq<real>, argsort: seq<real> -> seq<nat>, ghost x: seq<real>)
    returns (x': seq<real>, z': seq<real>, dual': seq<real>)
    requires p.Valid() && IsArgsort(argsort) && Iterate(x, z, dual).Sized(|p.lower|)
    ensures Iterate(x', z', dual') == Step(p, Iterate(x, z, dual), argsort)
  {
    hide Sum, Projection, LocalStep;
    x' := LocalStep(p, z, dual);
    z' := ProjectBoundedSum(Added(x', dual), p.lower, p.upper, p.target, argsort);
    dual' := seq(|z|, i requires 0 <= i < |z| && |dual| == |x'| == |z'| == |z| => dual[i] + (x'[i] - z'[i]));
  }
}
