/** Projection onto a box intersected with a fixed sum, as advanced_ems.py does it: one hundred
    bisections on the multiplier of the sum constraint, then a greedy correction of what is left. */
module BoundedProjection {
  import opened RealMath

  const TOLERANCE: real := 0.000000001

  const HALVINGS: nat := 100

  ghost predicate Bounds(lower: seq<real>, upper: seq<real>) {
    |lower| == |upper| && forall i :: 0 <= i < |lower| ==> lower[i] <= upper[i]
  }

  ghost predicate InBox(z: seq<real>, lower: seq<real>, upper: seq<real>)
    requires |lower| == |upper|
  {
    |z| == |lower| && forall i :: 0 <= i < |z| ==> lower[i] <= z[i] <= upper[i]
  }

  /** The target lies between the smallest and largest total the box allows. */
  ghost predicate Attainable(lower: seq<real>, upper: seq<real>, target: real) {
    Bounds(lower, upper) && Sum(lower) <= target <= Sum(upper)
  }

  // ---------------------------------------------------------------------------------------
  // The algorithm as functions
  // ---------------------------------------------------------------------------------------

  /** Shift every entry down by mu and clip it into the box. */
  function Shifted(values: seq<real>, lower: seq<real>, upper: seq<real>, mu: real): (z: seq<real>)
    requires |values| == |lower| == |upper|
    ensures |z| == |values|
  {
    seq(|values|, i requires 0 <= i < |values| => Clip(values[i] - mu, lower[i], upper[i]))
  }

  function LeastGap(a: seq<real>, b: seq<real>, k: nat): (m: real)
    requires 0 < k <= |a| == |b|
    ensures forall i :: 0 <= i < k ==> m <= a[i] - b[i]
  {
    if k == 1 then a[0] - b[0] else Min(LeastGap(a, b, k - 1), a[k - 1] - b[k - 1])
  }

  function GreatestGap(a: seq<real>, b: seq<real>, k: nat): (m: real)
    requires 0 < k <= |a| == |b|
    ensures forall i :: 0 <= i < k ==> m >= a[i] - b[i]
  {
    if k == 1 then a[0] - b[0] else Max(GreatestGap(a, b, k - 1), a[k - 1] - b[k - 1])
  }

  datatype Bracket = Bracket(low: real, high: real)
  {
    function Mid(): real { (low + high) / 2.0 }
  }

  datatype Problem = Problem(values: seq<real>, lower: seq<real>, upper: seq<real>, target: real)
  {
    ghost predicate Valid() {
      |values| == |lower| > 0 && Attainable(lower, upper, target)
    }

    function Start(): Bracket
      requires |values| == |lower| == |upper| > 0
    {
      Bracket(LeastGap(values, upper, |values|) - 1.0, GreatestGap(values, lower, |values|) + 1.0)
    }

    function TotalAt(mu: real): real
      requires |values| == |lower| == |upper|
    {
      Sum(Shifted(values, lower, upper, mu))
    }

    function Room(z: seq<real>, i: nat, correction: real): real
      requires |z| == |lower| == |upper| && i < |z|
    {
      if correction > 0.0 then upper[i] - z[i] else z[i] - lower[i]
    }

    /** Sort keys of the correction order: the negated room of every entry. */
    function Keys(z: seq<real>, correction: real): seq<real>
      requires |z| == |lower| == |upper|
    {
      seq(|z|, i requires 0 <= i < |z| => -Room(z, i, correction))
    }

    function Corrected(z: seq<real>, correction: real, order: seq<nat>, k: nat): (r: seq<real>)
      requires |z| == |lower| == |upper| && k <= |order| && forall i :: 0 <= i < |order| ==> order[i] < |z|
      ensures |r| == |z|
      decreases |order| - k
    {
      if k == |order| then z
      else
        var i := order[k];
        var delta := CopySign(Min(Abs(correction), Room(z, i, correction)), correction);
        var z' := z[i := z[i] + delta];
        var c' := correction - delta;
        if Abs(c') < TOLERANCE then z' else Corrected(z', c', order, k + 1)
    }
  }

  function Bisected(p: Problem, k: nat): Bracket
    requires |p.values| == |p.lower| == |p.upper| > 0
  {
    if k == 0 then p.Start()
    else
      var b := Bisected(p, k - 1);
      if p.TotalAt(b.Mid()) > p.target then Bracket(b.Mid(), b.high) else Bracket(b.low, b.Mid())
  }

  /** The point the bisection reaches after k halvings, before the greedy correction. */
  function CoarseAt(p: Problem, k: nat): (z: seq<real>)
    requires |p.values| == |p.lower| == |p.upper| > 0
    ensures |z| == |p.values|
  {
    Shifted(p.values, p.lower, p.upper, Bisected(p, k).Mid())
  }

  function Coarse(p: Problem): (z: seq<real>)
    requires |p.values| == |p.lower| == |p.upper| > 0
    ensures |z| == |p.values|
  {
    CoarseAt(p, HALVINGS)
  }

  /** What the correction has to distribute. */
  function Shortfall(p: Problem): real
    requires |p.values| == |p.lower| == |p.upper| > 0
  {
    p.target - Sum(Coarse(p))
  }

  /** math.copysign for a non-negative magnitude. */
  function CopySign(magnitude: real, sign: real): real {
    if sign >= 0.0 then magnitude else -magnitude
  }

  /** numpy.argsort is outside this model: any function that returns a permutation of the indices. */
  ghost predicate IsArgsort(argsort: seq<real> -> seq<nat>) {
    forall keys: seq<real> :: IsPermutation(argsort(keys), |keys|)
  }

  ghost predicate IsPermutation(order: seq<nat>, n: nat) {
    && |order| == n
    && (forall i :: 0 <= i < n ==> order[i] < n)
    && (forall j: nat :: j < n ==> j in order)
  }

  function Projection(p: Problem, argsort: seq<real> -> seq<nat>): (z: seq<real>)
    requires p.Valid() && IsArgsort(argsort)
    ensures |z| == |p.values|
  {
    p.Corrected(Coarse(p), Shortfall(p), argsort(p.Keys(Coarse(p), Shortfall(p))), 0)
  }

  // ---------------------------------------------------------------------------------------
  // The loops of the source
  // ---------------------------------------------------------------------------------------

  method Bisect(p: Problem) returns (projected: seq<real>)
    requires p.Valid()
    ensures projected == Coarse(p)
  {
    hide Sum, Total, Shifted;
    var low := LeastGap(p.values, p.upper, |p.values|) - 1.0;
    var high := GreatestGap(p.values, p.lower, |p.values|) + 1.0;
    for k := 0 to HALVINGS
      invariant Bracket(low, high) == Bisected(p, k)
    {
      var midpoint := (low + high) / 2.0;
      projected := Shifted(p.values, p.lower, p.upper, midpoint);
      if Sum(projected) > p.target {
        low := midpoint;
      } else {
        high := midpoint;
      }
    }
    projected := Shifted(p.values, p.lower, p.upper, (low + high) / 2.0);
  }

  method Correct(p: Problem, start: seq<real>, shortfall: real, order: seq<nat>) returns (projected: seq<real>)
    requires |start| == |p.lower| == |p.upper| && forall i :: 0 <= i < |order| ==> order[i] < |start|
    ensures projected == p.Corrected(start, shortfall, order, 0)
  {
    projected := start;
    var correction := shortfall;
    for k := 0 to |order|
      invariant |projected| == |start|
      invariant p.Corrected(projected, correction, order, k) == p.Corrected(start, shortfall, order, 0)
    {
      var index := order[k];
      var room :=
        if correction > 0.0 then p.upper[index] - projected[index] else projected[index] - p.lower[index];
      var delta := CopySign(Min(Abs(correction), room), correction);
      projected := projected[index := projected[index] + delta];
      correction := correction - delta;
      if Abs(correction) < TOLERANCE {
        break;
      }
    }
  }

  method ProjectBoundedSum(values: seq<real>, lower: seq<real>, upper: seq<real>, target: real,
                           argsort: seq<real> -> seq<nat>)
    returns (projected: seq<real>)
    requires Problem(values, lower, upper, target).Valid() && IsArgsort(argsort)
    ensures projected == Projection(Problem(values, lower, upper, target), argsort)
  {
    hide Sum, CoarseAt;
    var p := Problem(values, lower, upper, target);
    projected := Bisect(p);
    var correction := target - Sum(projected);
    var order := argsort(p.Keys(projected, correction));
    assert IsPermutation(order, |p.Keys(projected, correction)|);
    projected := Correct(p, projected, correction, order);
  }

  // ---------------------------------------------------------------------------------------
  // Bisection
  // ---------------------------------------------------------------------------------------

  function PowerOfTwo(k: nat): real { if k == 0 then 1.0 else 2.0 * PowerOfTwo(k - 1) }

  lemma ShiftedInBox(p: Problem, mu: real)
    requires p.Valid()
    ensures InBox(Shifted(p.values, p.lower, p.upper, mu), p.lower, p.upper)
  {}

  /** A larger multiplier gives smaller entries, by at most the difference of the multipliers. */
  lemma {:induction false} ShiftedLipschitz(p: Problem, a: real, b: real, k: nat)
    requires p.Valid() && a <= b && k <= |p.values|
    ensures var za, zb := Shifted(p.values, p.lower, p.upper, a), Shifted(p.values, p.lower, p.upper, b);
            && (forall i :: 0 <= i < k ==> zb[i] <= za[i])
            && Total(zb, k) <= Total(za, k) <= Total(zb, k) + Mul(k as real, b - a)
  {
    hide Mul;
    if k == 0 {
      MulSuccessor(0, b - a);
    } else {
      ShiftedLipschitz(p, a, b, k - 1);
      MulSuccessor(k - 1, b - a);
      ClipLipschitz(p.values[k - 1] - b, p.values[k - 1] - a, p.lower[k - 1], p.upper[k - 1]);
    }
  }

  lemma ClipLipschitz(x: real, y: real, low: real, high: real)
    requires x <= y && low <= high
    ensures Clip(x, low, high) <= Clip(y, low, high) <= Clip(x, low, high) + (y - x)
  {}

  lemma StartBrackets(p: Problem)
    requires p.Valid()
    ensures p.TotalAt(p.Start().high) <= p.target <= p.TotalAt(p.Start().low)
    ensures p.Start().low <= p.Start().high
  {
    var n := |p.values|;
    var low, high := p.Start().low, p.Start().high;
    TotalEqual(Shifted(p.values, p.lower, p.upper, low), p.upper, n);
    TotalEqual(Shifted(p.values, p.lower, p.upper, high), p.lower, n);
    assert low <= p.values[0] - p.upper[0] <= p.values[0] - p.lower[0] <= high;
  }

  /** Bisection invariant: the bracket encloses the target and halves every time. */
  lemma {:induction false} BisectionBrackets(p: Problem, k: nat)
    requires p.Valid()
    ensures var b := Bisected(p, k);
            && p.TotalAt(b.high) <= p.target <= p.TotalAt(b.low)
            && b.low <= b.high
            && Mul(b.high - b.low, PowerOfTwo(k)) == p.Start().high - p.Start().low
  {
    hide Sum, Shifted, LeastGap, GreatestGap, Mul;
    if k == 0 {
      StartBrackets(p);
      MulHalf(p.Start().high - p.Start().low, 1.0);
    } else {
      BisectionBrackets(p, k - 1);
      var b := Bisected(p, k - 1);
      MulHalf(b.high - b.low, PowerOfTwo(k - 1));
    }
  }

  lemma MulHalf(w: real, q: real)
    ensures Mul(w / 2.0, 2.0 * q) == Mul(w, q) && Mul(w, 1.0) == w
  {}

  /** After k halvings the bisection misses the target by at most n times half the bracket, so by
      n times the starting width over 2 to the power k + 1. */
  lemma BisectionGap(p: Problem, k: nat)
    requires p.Valid()
    ensures Mul(Abs(p.target - Sum(CoarseAt(p, k))), PowerOfTwo(k + 1)) <=
            Mul(|p.values| as real, p.Start().high - p.Start().low)
  {
    hide Mul, LeastGap, GreatestGap, Bisected, Shifted;
    var n := |p.values|;
    var b := Bisected(p, k);
    BisectionBrackets(p, k);
    ShiftedLipschitz(p, b.low, b.Mid(), n);
    ShiftedLipschitz(p, b.Mid(), b.high, n);
    PowerPositive(k);
    var half := (b.high - b.low) / 2.0;
    assert b.Mid() - b.low == half && b.high - b.Mid() == half;
    ScaleBound(Abs(p.target - Sum(CoarseAt(p, k))), n as real, b.high - b.low, PowerOfTwo(k));
  }

  lemma {:induction false} PowerPositive(k: nat)
    ensures PowerOfTwo(k) > 0.0
  {
    if k > 0 { PowerPositive(k - 1); }
  }

  lemma ScaleBound(e: real, n: real, width: real, q: real)
    requires e <= Mul(n, width / 2.0) && q > 0.0
    ensures Mul(e, 2.0 * q) <= Mul(n, Mul(width, q))
  {
    assert (n * (width / 2.0) - e) * (2.0 * q) >= 0.0;
    assert n * (width / 2.0) * (2.0 * q) == n * (width * q);
  }

  // ---------------------------------------------------------------------------------------
  // Greedy correction
  // ---------------------------------------------------------------------------------------

  /** Every index already corrected has no room left in the direction of the correction. */
  ghost predicate Exhausted(p: Problem, z: seq<real>, c: real, order: seq<nat>, k: nat)
    requires |z| == |p.lower| == |p.upper| && k <= |order| && forall i :: 0 <= i < |order| ==> order[i] < |z|
  {
    && (k > 0 ==> Abs(c) >= TOLERANCE)
    && (c > 0.0 ==> forall j :: 0 <= j < k ==> z[order[j]] == p.upper[order[j]])
    && (c < 0.0 ==> forall j :: 0 <= j < k ==> z[order[j]] == p.lower[order[j]])
  }

  /** Moves from z to r, all up or all down, towards the target and not past it. */
  ghost predicate MovesTowards(p: Problem, z: seq<real>, r: seq<real>, c: real)
    requires |z| == |r|
  {
    && (c > 0.0 ==> Sum(z) <= Sum(r) <= p.target && forall i :: 0 <= i < |z| ==> z[i] <= r[i])
    && (c <= 0.0 ==> p.target <= Sum(r) <= Sum(z) && forall i :: 0 <= i < |z| ==> r[i] <= z[i])
  }

  lemma NothingLeft(p: Problem, z: seq<real>, c: real, order: seq<nat>)
    requires p.Valid() && |z| == |p.values| && IsPermutation(order, |z|) && Sum(z) + c == p.target
    requires (forall j :: 0 <= j < |order| ==> z[order[j]] == p.upper[order[j]]) ||
             (forall j :: 0 <= j < |order| ==> z[order[j]] == p.lower[order[j]])
    ensures (forall j :: 0 <= j < |order| ==> z[order[j]] == p.upper[order[j]]) ==> c <= 0.0
    ensures (forall j :: 0 <= j < |order| ==> z[order[j]] == p.lower[order[j]]) ==> c >= 0.0
  {
    if forall j :: 0 <= j < |order| ==> z[order[j]] == p.upper[order[j]] {
      forall i | 0 <= i < |z| ensures z[i] == p.upper[i] {
        assert i in order;
      }
      TotalEqual(z, p.upper, |z|);
    }
    if forall j :: 0 <= j < |order| ==> z[order[j]] == p.lower[order[j]] {
      forall i | 0 <= i < |z| ensures z[i] == p.lower[i] {
        assert i in order;
      }
      TotalEqual(z, p.lower, |z|);
    }
  }

  /** One step of the correction: inside the box, total and correction conserved. */
  lemma CorrectionStep(p: Problem, z: seq<real>, c: real, i: nat)
    requires p.Valid() && InBox(z, p.lower, p.upper) && i < |z| && Sum(z) + c == p.target
    ensures var delta := CopySign(Min(Abs(c), p.Room(z, i, c)), c);
            var r := z[i := z[i] + delta];
            && InBox(r, p.lower, p.upper)
            && Sum(r) + (c - delta) == p.target
            && MovesTowards(p, z, r, c)
            && (c - delta != 0.0 ==>
                  (c > 0.0 <==> c - delta > 0.0) && r[i] == if c > 0.0 then p.upper[i] else p.lower[i])
  {
    var delta := CopySign(Min(Abs(c), p.Room(z, i, c)), c);
    TotalUpdate(z, i, z[i] + delta, |z|);
  }

  /** An entry that could not take all of the correction has no room left; neither have the ones before. */
  lemma StillExhausted(p: Problem, z: seq<real>, r: seq<real>, c: real, rest: real, order: seq<nat>, k: nat)
    requires p.Valid() && |z| == |r| == |p.lower| && k < |order| && forall j :: 0 <= j < |order| ==> order[j] < |z|
    requires Exhausted(p, z, c, order, k) && Abs(rest) >= TOLERANCE && (c > 0.0 <==> rest > 0.0)
    requires r == z[order[k] := if c > 0.0 then p.upper[order[k]] else p.lower[order[k]]]
    ensures Exhausted(p, r, rest, order, k + 1)
  {
    hide Sum;
  }

  lemma {:induction false} CorrectionKeeps(p: Problem, z: seq<real>, c: real, order: seq<nat>, k: nat)
    requires p.Valid() && InBox(z, p.lower, p.upper) && Sum(z) + c == p.target
    requires IsPermutation(order, |z|) && k <= |order| && Exhausted(p, z, c, order, k)
    ensures var r := p.Corrected(z, c, order, k);
            && InBox(r, p.lower, p.upper)
            && Abs(p.target - Sum(r)) < TOLERANCE
            && MovesTowards(p, z, r, c)
    decreases |order| - k
  {
    hide Sum;
    if k == |order| {
      NothingLeft(p, z, c, order);
    } else {
      var i := order[k];
      var delta := CopySign(Min(Abs(c), p.Room(z, i, c)), c);
      var r := z[i := z[i] + delta];
      CorrectionStep(p, z, c, i);
      if Abs(c - delta) >= TOLERANCE {
        StillExhausted(p, z, r, c, c - delta, order, k);
        hide Exhausted;
        CorrectionKeeps(p, r, c - delta, order, k + 1);
      }
    }
  }

  /** The projection ends in the box, on the target up to the tolerance, having moved every entry of
      the bisection's answer the same way. */
  lemma ProjectionFeasible(p: Problem, argsort: seq<real> -> seq<nat>)
    requires p.Valid() && IsArgsort(argsort)
    ensures var z := Projection(p, argsort);
            && InBox(z, p.lower, p.upper)
            && Abs(Sum(z) - p.target) < TOLERANCE
            && MovesTowards(p, Coarse(p), z, Shortfall(p))
  {
    hide Sum;
    var keys := p.Keys(Coarse(p), Shortfall(p));
    var order := argsort(keys);
    assert IsPermutation(order, |keys|);
    ShiftedInBox(p, Bisected(p, HALVINGS).Mid());
    CorrectionKeeps(p, Coarse(p), Shortfall(p), order, 0);
  }

  // ---------------------------------------------------------------------------------------
  // The exact projection
  // ---------------------------------------------------------------------------------------

  function SquareDistance(a: seq<real>, b: seq<real>, k: nat): real
    requires k <= |a| && k <= |b|
  {
    if k == 0 then 0.0 else SquareDistance(a, b, k - 1) + Sq(a[k - 1] - b[k - 1])
  }

  function Distance1(a: seq<real>, b: seq<real>, k: nat): real
    requires k <= |a| && k <= |b|
  {
    if k == 0 then 0.0 else Distance1(a, b, k - 1) + Abs(a[k - 1] - b[k - 1])
  }

  lemma {:induction false} SquareDistancePositive(a: seq<real>, b: seq<real>, k: nat)
    requires k <= |a| && k <= |b|
    ensures SquareDistance(a, b, k) >= 0.0
    ensures a[..k] != b[..k] ==> SquareDistance(a, b, k) > 0.0
  {
    hide Sq;
    if k > 0 {
      SquareDistancePositive(a, b, k - 1);
      SqSign(a[k - 1] - b[k - 1]);
      assert a[..k] == a[..k - 1] + [a[k - 1]];
      assert b[..k] == b[..k - 1] + [b[k - 1]];
    }
  }

  /** Clipping solves the one-dimensional variational inequality. */
  lemma ClipVariational(v: real, mu: real, low: real, high: real, y: real)
    requires low <= y <= high
    ensures var c := Clip(v - mu, low, high); Sq(v - y) >= Sq(v - c) + Sq(c - y) + 2.0 * Mul(mu, c - y)
  {
    hide Mul, Sq;
    var c := Clip(v - mu, low, high);
    var r, s := v - c - mu, c - y;
    if r > 0.0 {
      MulNonNegative(r, s);
    } else if r < 0.0 {
      MulNonNegative(-r, -s);
      MulNegated(r, s);
      MulNegated(r, -s);
    } else {
      MulZero(s);
    }
    assert Mul(r, s) >= 0.0;
    MulSum(s, r, mu);
    assert v - y == (v - c) + s;
    SqSum(v - c, s);
    assert r + mu == v - c;
  }

  /** Every point of the box is further from the values than the shifted point, by the distance
      between the two and the multiplier times the difference of their totals. */
  lemma {:induction false} ShiftedVariational(p: Problem, mu: real, y: seq<real>, k: nat)
    requires p.Valid() && InBox(y, p.lower, p.upper) && k <= |y|
    ensures var c := Shifted(p.values, p.lower, p.upper, mu);
            SquareDistance(p.values, y, k) >=
            SquareDistance(p.values, c, k) + SquareDistance(c, y, k) + 2.0 * Mul(mu, Total(c, k) - Total(y, k))
  {
    hide Sq, Mul, Clip;
    var c := Shifted(p.values, p.lower, p.upper, mu);
    if k == 0 {
      MulZero(mu);
    } else {
      ShiftedVariational(p, mu, y, k - 1);
      ClipVariational(p.values[k - 1], mu, p.lower[k - 1], p.upper[k - 1], y[k - 1]);
      MulSum(mu, Total(c, k - 1) - Total(y, k - 1), c[k - 1] - y[k - 1]);
    }
  }

  /** The nearest point of the box with the target total, and the only one. */
  ghost predicate IsNearest(p: Problem, z: seq<real>)
    requires p.Valid()
  {
    && InBox(z, p.lower, p.upper) && Sum(z) == p.target
    && forall y :: InBox(y, p.lower, p.upper) && Sum(y) == p.target && y != z ==>
                     SquareDistance(p.values, z, |z|) < SquareDistance(p.values, y, |y|)
  }

  /** A shifted point that hits the target exactly is the exact projection. */
  lemma ExactMultiplierIsNearest(p: Problem, mu: real)
    requires p.Valid() && p.TotalAt(mu) == p.target
    ensures IsNearest(p, Shifted(p.values, p.lower, p.upper, mu))
  {
    hide SquareDistance, Mul, Shifted, Total;
    var z := Shifted(p.values, p.lower, p.upper, mu);
    ShiftedInBox(p, mu);
    forall y | InBox(y, p.lower, p.upper) && Sum(y) == p.target && y != z
      ensures SquareDistance(p.values, z, |z|) < SquareDistance(p.values, y, |y|)
    {
      ShiftedVariational(p, mu, y, |y|);
      SquareDistancePositive(z, y, |y|);
      assert z[..|y|] == z && y[..|y|] == y;
      MulZero(mu);
    }
  }

  /** Points at which some entry of the shifted point starts or stops being clipped. */
  function Breakpoint(p: Problem, i: nat): real
    requires p.Valid() && i < 2 * |p.values|
  {
    if i < |p.values| then p.values[i] - p.upper[i] else p.values[i - |p.values|] - p.lower[i - |p.values|]
  }

  ghost function Inside(p: Problem, a: real, b: real): set<nat>
    requires p.Valid()
  {
    set i: nat | i < 2 * |p.values| && a < Breakpoint(p, i) < b
  }

  /** Between breakpoints the total is affine in the multiplier. */
  lemma {:induction false} AffineBetween(p: Problem, a: real, b: real, t: real, k: nat)
    requires p.Valid() && a <= b && 0.0 <= t <= 1.0 && k <= |p.values| && Inside(p, a, b) == {}
    ensures var at := (mu: real) => Shifted(p.values, p.lower, p.upper, mu);
            Total(at(a + Mul(t, b - a)), k) == Total(at(a), k) + Mul(t, Total(at(b), k) - Total(at(a), k))
  {
    hide Mul, Clip;
    if k == 0 {
      MulZero(t);
    } else {
      AffineBetween(p, a, b, t, k - 1);
      var i := k - 1;
      assert i !in Inside(p, a, b) && (i + |p.values|) !in Inside(p, a, b);
      assert Breakpoint(p, i) == p.values[i] - p.upper[i];
      assert Breakpoint(p, i + |p.values|) == p.values[i] - p.lower[i];
      AffineClip(p.values[i], p.lower[i], p.upper[i], a, b, t);
      var za, zb := Shifted(p.values, p.lower, p.upper, a), Shifted(p.values, p.lower, p.upper, b);
      MulSum(t, Total(zb, i) - Total(za, i), zb[i] - za[i]);
    }
  }

  lemma AffineClip(v: real, low: real, high: real, a: real, b: real, t: real)
    requires low <= high && a <= b && 0.0 <= t <= 1.0
    requires !(a < v - high < b) && !(a < v - low < b)
    ensures Clip(v - (a + Mul(t, b - a)), low, high) ==
            Clip(v - a, low, high) + Mul(t, Clip(v - b, low, high) - Clip(v - a, low, high))
  {
    hide Mul;
    MulWithin(t, b - a);
    if v - high >= b {
      MulZero(t);
    } else if v - low <= a {
      MulZero(t);
    } else {
      MulNegated(t, b - a);
      assert Clip(v - b, low, high) - Clip(v - a, low, high) == -(b - a);
    }
  }

  lemma MulWithin(t: real, w: real)
    requires 0.0 <= t <= 1.0 && w >= 0.0
    ensures 0.0 <= Mul(t, w) <= w
  {
    hide Mul;
    MulNonNegative(t, w);
    MulOrder(t, 1.0, w);
    MulOne(w);
  }

  /** Intermediate value: a bracket of the target contains a multiplier that hits it. */
  lemma {:induction false} ExactMultiplierWithin(p: Problem, a: real, b: real) returns (mu: real)
    requires p.Valid() && a <= b && p.TotalAt(b) <= p.target <= p.TotalAt(a)
    ensures p.TotalAt(mu) == p.target
    decreases Inside(p, a, b)
  {
    hide Shifted, Mul;
    if i :| i in Inside(p, a, b) {
      var m := Breakpoint(p, i);
      assert i !in Inside(p, a, m) && i !in Inside(p, m, b);
      assert Inside(p, a, m) < Inside(p, a, b) && Inside(p, m, b) < Inside(p, a, b);
      if p.TotalAt(m) >= p.target {
        mu := ExactMultiplierWithin(p, m, b);
      } else {
        mu := ExactMultiplierWithin(p, a, m);
      }
    } else {
      var drop := p.TotalAt(a) - p.TotalAt(b);
      if drop == 0.0 {
        mu := a;
      } else {
        var t := (p.TotalAt(a) - p.target) / drop;
        FractionWithin(p.TotalAt(a) - p.target, drop);
        MulQuotient(p.TotalAt(a) - p.target, drop);
        MulNegated(t, drop);
        mu := a + Mul(t, b - a);
        AffineBetween(p, a, b, t, |p.values|);
      }
    }
  }

  lemma FractionWithin(a: real, b: real)
    requires 0.0 <= a <= b && b > 0.0
    ensures 0.0 <= a / b <= 1.0
  {}

  /** Every attainable problem has an exact projection, a shifted point. */
  lemma ExactMultiplier(p: Problem) returns (mu: real)
    requires p.Valid()
    ensures p.TotalAt(mu) == p.target
  {
    StartBrackets(p);
    mu := ExactMultiplierWithin(p, p.Start().low, p.Start().high);
  }

  // ---------------------------------------------------------------------------------------
  // How far the computed point is from the exact projection
  // ---------------------------------------------------------------------------------------

  lemma {:induction false} OrderedDistance(a: seq<real>, b: seq<real>, k: nat)
    requires k <= |a| && k <= |b| && forall i :: 0 <= i < k ==> a[i] <= b[i]
    ensures Distance1(a, b, k) == Distance1(b, a, k) == Total(b, k) - Total(a, k)
  {
    if k > 0 { OrderedDistance(a, b, k - 1); }
  }

  lemma {:induction false} DistanceTriangle(a: seq<real>, b: seq<real>, c: seq<real>, k: nat)
    requires k <= |a| && k <= |b| && k <= |c|
    ensures Distance1(a, c, k) <= Distance1(a, b, k) + Distance1(b, c, k)
  {
    if k > 0 { DistanceTriangle(a, b, c, k - 1); }
  }

  /** The computed point is within twice the shortfall of the exact projection. */
  lemma ProjectionError(p: Problem, argsort: seq<real> -> seq<nat>, mu: real)
    requires p.Valid() && IsArgsort(argsort) && p.TotalAt(mu) == p.target
    ensures Distance1(Projection(p, argsort), Shifted(p.values, p.lower, p.upper, mu), |p.values|)
            <= 2.0 * Abs(Shortfall(p))
  {
    hide Shifted, Total, Distance1, Mul;
    var n := |p.values|;
    var z, c, e := Projection(p, argsort), Coarse(p), Shifted(p.values, p.lower, p.upper, mu);
    ProjectionFeasible(p, argsort);
    if Shortfall(p) > 0.0 { OrderedDistance(c, z, n); } else { OrderedDistance(z, c, n); }
    var m := Bisected(p, HALVINGS).Mid();
    if m <= mu {
      ShiftedLipschitz(p, m, mu, n);
      OrderedDistance(e, c, n);
    } else {
      ShiftedLipschitz(p, mu, m, n);
      OrderedDistance(c, e, n);
    }
    DistanceTriangle(z, c, e, n);
  }

  /** Main result. The exact projection exists; the returned point lies in the box, meets the target
      within the tolerance, and is within n times the starting width over 2^100 of the projection. */
  lemma ProjectionAccuracy(p: Problem, argsort: seq<real> -> seq<nat>) returns (exact: seq<real>)
    requires p.Valid() && IsArgsort(argsort)
    ensures IsNearest(p, exact)
    ensures var z := Projection(p, argsort);
            && InBox(z, p.lower, p.upper) && Abs(Sum(z) - p.target) < TOLERANCE
            && Mul(Distance1(z, exact, |z|), PowerOfTwo(HALVINGS + 1)) <=
               2.0 * Mul(|z| as real, p.Start().high - p.Start().low)
  {
    hide Shifted, Total, Sum, Distance1, Mul, PowerOfTwo, IsNearest, Bisected, Coarse;
    var mu := ExactMultiplier(p);
    exact := Shifted(p.values, p.lower, p.upper, mu);
    ExactMultiplierIsNearest(p, mu);
    ProjectionFeasible(p, argsort);
    ProjectionError(p, argsort, mu);
    BisectionGap(p, HALVINGS);
    CoarseIs(p);
    PowerPositive(HALVINGS + 1);
    MulMonotone(Distance1(Projection(p, argsort), exact, |p.values|), Abs(Shortfall(p)), PowerOfTwo(HALVINGS + 1));
  }

  lemma CoarseIs(p: Problem)
    requires p.Valid()
    ensures Shortfall(p) == p.target - Sum(CoarseAt(p, HALVINGS))
  {
    hide CoarseAt, Sum;
  }

  lemma MulMonotone(a: real, b: real, q: real)
    requires a <= 2.0 * b && q > 0.0
    ensures Mul(a, q) <= 2.0 * Mul(b, q)
  {
    hide Mul;
    MulOrder(a, b + b, q);
    MulSum(q, b, b);
  }

  /** When nothing is left to correct, the returned point is the exact projection itself. */
  lemma ProjectionExact(p: Problem, argsort: seq<real> -> seq<nat>)
    requires p.Valid() && IsArgsort(argsort)
    ensures Shortfall(p) == 0.0 <==> Projection(p, argsort) == Coarse(p) && IsNearest(p, Coarse(p))
  {
    hide Shifted, Total, Distance1, IsNearest;
    var mu := Bisected(p, HALVINGS).Mid();
    if Shortfall(p) == 0.0 {
      ExactMultiplierIsNearest(p, mu);
      ProjectionError(p, argsort, mu);
      ZeroDistance(Projection(p, argsort), Coarse(p), |p.values|);
      var z := Projection(p, argsort);
      assert z[..|p.values|] == z && Coarse(p)[..|p.values|] == Coarse(p);
    }
    if IsNearest(p, Coarse(p)) {
      NearestOnTarget(p, Coarse(p));
    }
  }

  lemma NearestOnTarget(p: Problem, z: seq<real>)
    requires p.Valid() && IsNearest(p, z)
    ensures Sum(z) == p.target
  {}

  lemma {:induction false} ZeroDistance(a: seq<real>, b: seq<real>, k: nat)
    requires k <= |a| && k <= |b|
    ensures Distance1(a, b, k) >= 0.0
    ensures Distance1(a, b, k) <= 0.0 ==> a[..k] == b[..k]
  {
    if k > 0 {
      ZeroDistance(a, b, k - 1);
      assert a[..k] == a[..k - 1] + [a[k - 1]];
      assert b[..k] == b[..k - 1] + [b[k - 1]];
    }
  }
}
