/** Rainflow cycle counting over a state-of-charge trajectory (ASTM E1049-85, section 5.4.4),
    as grid_ems.py runs it: collapse repeats, keep reversals, then a stack machine that emits
    half cycles at the bottom of the stack and full cycles above it. */
module Rainflow {
  import opened RealMath

  datatype Cycle = Cycle(depth: real, mean: real, count: real)

  datatype Machine = Machine(stack: seq<real>, cycles: seq<Cycle>)

  // ---------------------------------------------------------------------------------------
  // Reference definitions
  // ---------------------------------------------------------------------------------------

  function TotalVariation(s: seq<real>): real {
    if |s| < 2 then 0.0 else TotalVariation(s[..|s| - 1]) + Abs(s[|s| - 1] - s[|s| - 2])
  }

  /** Sum of depth times count, the equivalent full cycles of a cycle list. */
  function WeightedDepth(cycles: seq<Cycle>): real {
    if |cycles| == 0 then 0.0
    else WeightedDepth(cycles[..|cycles| - 1]) + cycles[|cycles| - 1].depth * cycles[|cycles| - 1].count
  }

  function CountSum(cycles: seq<Cycle>): real {
    if |cycles| == 0 then 0.0 else CountSum(cycles[..|cycles| - 1]) + cycles[|cycles| - 1].count
  }

  ghost predicate Bounded(s: seq<real>, lo: real, hi: real) {
    forall i :: 0 <= i < |s| ==> lo <= s[i] <= hi
  }

  /** b is a strict local maximum or minimum between a and c. */
  predicate Peak(a: real, b: real, c: real) { (a < b && b > c) || (a > b && b < c) }

  /** The steps from a to b and from c to d go the same way, and both go somewhere. */
  predicate SameWay(a: real, b: real, c: real, d: real) { (a < b && c < d) || (a > b && c > d) }

  /** Consecutive steps have strictly opposite directions. */
  ghost predicate Alternating(s: seq<real>) {
    && (|s| >= 2 ==> s[0] != s[1])
    && forall i :: 0 <= i < |s| - 2 ==> PeakAt(s, i)
  }

  predicate PeakAt(s: seq<real>, i: nat)
    requires i + 2 < |s|
  {
    Peak(s[i], s[i + 1], s[i + 2])
  }

  /** The first `n` ranges shrink strictly. */
  ghost predicate Shrinking(s: seq<real>, n: int) {
    forall i :: 0 <= i && i + 1 < n && i + 2 < |s| ==> ShrinksAt(s, i)
  }

  predicate ShrinksAt(s: seq<real>, i: nat)
    requires i + 2 < |s|
  {
    Abs(s[i + 1] - s[i]) > Abs(s[i + 2] - s[i + 1])
  }

  /** The state a stack is left in by the inner loop: alternating, with strictly decreasing ranges. */
  ghost predicate Funnel(s: seq<real>) {
    Alternating(s) && Shrinking(s, |s| - 1)
  }

  /** A funnel stack with one more point pushed: only the last range may be too large. */
  ghost predicate Pushed(s: seq<real>) {
    Alternating(s) && Shrinking(s, |s| - 2)
  }

  // ---------------------------------------------------------------------------------------
  // The algorithm as functions
  // ---------------------------------------------------------------------------------------

  /** Values with consecutive repeats removed. */
  function Turning(values: seq<real>): (t: seq<real>)
    requires |values| > 0
    ensures 0 < |t| && t[|t| - 1] == values[|values| - 1]
  {
    if |values| == 1 then values
    else
      var t := Turning(values[..|values| - 1]);
      var v := values[|values| - 1];
      if v != t[|t| - 1] then t + [v] else t
  }

  /** First point, then every reversal among the interior points with index below k. */
  function Reversals(t: seq<real>, k: nat): seq<real>
    requires 1 <= k < |t|
  {
    if k == 1 then [t[0]]
    else
      var e := Reversals(t, k - 1);
      if (t[k - 1] - t[k - 2]) * (t[k] - t[k - 1]) <= 0.0 then e + [t[k - 1]] else e
  }

  function Extrema(t: seq<real>): seq<real>
    requires |t| >= 2
  {
    Reversals(t, |t| - 1) + [t[|t| - 1]]
  }

  /** The stack after the inner loop removes a range. */
  function Pop(s: seq<real>): (u: seq<real>)
    requires |s| >= 3
    ensures 2 <= |u| < |s| && u[|u| - 1] == s[|s| - 1]
  {
    if |s| == 3 then s[1..] else s[..|s| - 3] + [s[|s| - 1]]
  }

  /** The cycle the inner loop emits when it removes that range. */
  function Emitted(s: seq<real>): Cycle
    requires |s| >= 3
  {
    var n := |s|;
    Cycle(Abs(s[n - 2] - s[n - 3]), (s[n - 3] + s[n - 2]) / 2.0, if n == 3 then 0.5 else 1.0)
  }

  /** The inner loop does not break. */
  predicate Closes(s: seq<real>) {
    |s| >= 3 && Abs(s[|s| - 1] - s[|s| - 2]) >= Abs(s[|s| - 2] - s[|s| - 3])
  }

  /** The inner loop run to its end. */
  function Reduce(m: Machine): Machine
    decreases |m.stack|
  {
    if Closes(m.stack) then Reduce(Machine(Pop(m.stack), m.cycles + [Emitted(m.stack)])) else m
  }

  function Feed(points: seq<real>): Machine {
    if |points| == 0 then Machine([], [])
    else
      var m := Feed(points[..|points| - 1]);
      Reduce(Machine(m.stack + [points[|points| - 1]], m.cycles))
  }

  /** Half cycles for the first k ranges left on the stack. */
  function Residue(s: seq<real>, k: nat): seq<Cycle>
    requires k == 0 || k < |s|
  {
    if k == 0 then []
    else Residue(s, k - 1) + [Cycle(Abs(s[k] - s[k - 1]), (s[k] + s[k - 1]) / 2.0, 0.5)]
  }

  function KeepPositive(cycles: seq<Cycle>): seq<Cycle> {
    if |cycles| == 0 then []
    else
      var c := cycles[|cycles| - 1];
      KeepPositive(cycles[..|cycles| - 1]) + (if c.depth > 0.0 then [c] else [])
  }

  function AllCycles(points: seq<real>): seq<Cycle> {
    var m := Feed(points);
    m.cycles + Residue(m.stack, if |m.stack| == 0 then 0 else |m.stack| - 1)
  }

  function RainflowCycles(values: seq<real>): seq<Cycle>
    requires |values| > 0
  {
    var t := Turning(values);
    if |t| < 2 then [] else KeepPositive(AllCycles(Extrema(t)))
  }

  // ---------------------------------------------------------------------------------------
  // The loops of the source, proved to compute that function
  // ---------------------------------------------------------------------------------------

  method ComputeRainflowCycles(values: seq<real>) returns (result: seq<Cycle>)
    requires |values| > 0
    ensures result == RainflowCycles(values)
  {
    var turning := [values[0]];
    for i := 1 to |values|
      invariant turning == Turning(values[..i])
    {
      assert values[..i + 1][..i] == values[..i];
      if values[i] != turning[|turning| - 1] {
        turning := turning + [values[i]];
      }
    }
    assert values[..|values|] == values;
    if |turning| < 2 {
      return [];
    }
    var extrema := [turning[0]];
    for index := 1 to |turning| - 1
      invariant extrema == Reversals(turning, index)
    {
      if (turning[index] - turning[index - 1]) * (turning[index + 1] - turning[index]) <= 0.0 {
        extrema := extrema + [turning[index]];
      }
    }
    extrema := extrema + [turning[|turning| - 1]];
    var cycles := CountCycles(extrema);
    result := [];
    for i := 0 to |cycles|
      invariant result == KeepPositive(cycles[..i])
    {
      assert cycles[..i + 1][..i] == cycles[..i];
      if cycles[i].depth > 0.0 {
        result := result + [cycles[i]];
      }
    }
    assert cycles[..|cycles|] == cycles;
  }

  /** The inner loop: closes ranges until the last one is smaller than the one before it. */
  method CloseRanges(pushed: seq<real>, before: seq<Cycle>) returns (stack: seq<real>, cycles: seq<Cycle>)
    ensures Machine(stack, cycles) == Reduce(Machine(pushed, before))
  {
    stack, cycles := pushed, before;
    while |stack| >= 3
      invariant Reduce(Machine(stack, cycles)) == Reduce(Machine(pushed, before))
      decreases |stack|
    {
      var n := |stack|;
      var previous := Abs(stack[n - 2] - stack[n - 3]);
      var current := Abs(stack[n - 1] - stack[n - 2]);
      if current < previous {
        break;
      }
      var mean := (stack[n - 3] + stack[n - 2]) / 2.0;
      if n == 3 {
        cycles := cycles + [Cycle(previous, mean, 0.5)];
        stack := stack[1..];
      } else {
        cycles := cycles + [Cycle(previous, mean, 1.0)];
        var last := stack[n - 1];
        stack := stack[..n - 3] + [last];
      }
    }
  }

  /** The stack machine over the reversals, with the residue counted as half cycles. */
  method CountCycles(extrema: seq<real>) returns (cycles: seq<Cycle>)
    ensures cycles == AllCycles(extrema)
  {
    hide Reduce;
    var stack: seq<real> := [];
    cycles := [];
    for p := 0 to |extrema|
      invariant Machine(stack, cycles) == Feed(extrema[..p])
    {
      assert extrema[..p + 1][..p] == extrema[..p];
      stack, cycles := CloseRanges(stack + [extrema[p]], cycles);
    }
    assert extrema[..|extrema|] == extrema;
    ghost var counted := cycles;
    for index := 0 to if |stack| == 0 then 0 else |stack| - 1
      invariant cycles == counted + Residue(stack, index)
    {
      cycles := cycles + [Cycle(Abs(stack[index + 1] - stack[index]), (stack[index + 1] + stack[index]) / 2.0, 0.5)];
    }
  }

  // ---------------------------------------------------------------------------------------
  // Collapsing repeats and dropping interior points of monotone runs loses nothing
  // ---------------------------------------------------------------------------------------

  ghost predicate NoRepeats(s: seq<real>) {
    forall i :: 0 <= i < |s| - 1 ==> DiffersAt(s, i)
  }

  predicate DiffersAt(s: seq<real>, i: nat)
    requires i + 1 < |s|
  {
    s[i] != s[i + 1]
  }

  lemma VariationSnoc(s: seq<real>, x: real)
    requires |s| > 0
    ensures TotalVariation(s + [x]) == TotalVariation(s) + Abs(x - s[|s| - 1])
  {
    assert (s + [x])[..|s|] == s;
  }

  lemma VariationPrefix(s: seq<real>, k: nat)
    requires 1 <= k < |s|
    ensures TotalVariation(s[..k + 1]) == TotalVariation(s[..k]) + Abs(s[k] - s[k - 1])
  {
    assert s[..k + 1] == s[..k] + [s[k]];
    VariationSnoc(s[..k], s[k]);
  }

  lemma {:induction false} TurningPreserves(values: seq<real>)
    requires |values| > 0
    ensures TotalVariation(Turning(values)) == TotalVariation(values)
    ensures NoRepeats(Turning(values))
  {
    if |values| > 1 {
      var init, v := values[..|values| - 1], values[|values| - 1];
      TurningPreserves(init);
      var t := Turning(init);
      VariationSnoc(t, v);
      var u := Turning(values);
      forall i | 0 <= i < |u| - 1 ensures DiffersAt(u, i) {
        if i < |t| - 1 { assert DiffersAt(t, i); }
      }
    }
  }

  lemma {:induction false} TurningSameValues(values: seq<real>, v: real)
    requires |values| > 0
    ensures v in Turning(values) <==> v in values
  {
    if |values| > 1 {
      TurningSameValues(values[..|values| - 1], v);
      assert values == values[..|values| - 1] + [values[|values| - 1]];
    }
  }

  /** The sign test of the source detects exactly the peaks, once repeats are gone. */
  lemma ReversalTest(a: real, b: real, c: real)
    requires a != b && b != c
    ensures (b - a) * (c - b) <= 0.0 <==> Peak(a, b, c)
  {
    var x, y := b - a, c - b;
    if x > 0.0 && y > 0.0 { assert x * y > 0.0; }
    if x < 0.0 && y < 0.0 { assert x * y > 0.0; }
    if x > 0.0 && y < 0.0 { assert x * y < 0.0; }
    if x < 0.0 && y > 0.0 { assert x * y < 0.0; }
  }

  /** The part of a series up to index k and its reversals vary equally, and the reversals alternate. */
  lemma {:induction false} ReversalsPreserve(t: seq<real>, k: nat)
    requires 1 <= k < |t| && NoRepeats(t)
    ensures TotalVariation(Reversals(t, k) + [t[k]]) == TotalVariation(t[..k + 1])
    ensures Alternating(Reversals(t, k) + [t[k]])
    ensures var e := Reversals(t, k); |e| > 0 && SameWay(e[|e| - 1], t[k], t[k - 1], t[k])
  {
    hide TotalVariation, Alternating;
    VariationPrefix(t, k);
    assert DiffersAt(t, k - 1);
    if k == 1 {
      assert t[..1] == [t[0]];
      VariationSnoc([t[0]], t[1]);
      VariationOne([t[0]]);
      TwoPoints(t[0], t[1]);
    } else {
      ReversalsPreserve(t, k - 1);
      assert DiffersAt(t, k - 2);
      ReversalTest(t[k - 2], t[k - 1], t[k]);
      var d := Reversals(t, k - 1);
      VariationSnoc(d, t[k - 1]);
      VariationSnoc(d, t[k]);
      VariationSnoc(d + [t[k - 1]], t[k]);
      ReplaceLast(d, t[k - 1], t[k]);
      assert t[..k] == t[..k - 1 + 1];
    }
  }

  lemma TwoPoints(a: real, b: real)
    requires a != b
    ensures Alternating([a] + [b])
  {}

  /** Appending to an alternating sequence, or stretching its last step, keeps it alternating. */
  lemma ReplaceLast(d: seq<real>, b: real, c: real)
    requires |d| > 0 && Alternating(d + [b])
    ensures Peak(d[|d| - 1], b, c) ==> Alternating(d + [b] + [c])
    ensures SameWay(d[|d| - 1], b, d[|d| - 1], c) ==> Alternating(d + [c])
  {
    var f := d + [b];
    var g, h := f + [c], d + [c];
    forall i | 0 <= i < |g| - 2 && Peak(d[|d| - 1], b, c) ensures PeakAt(g, i) {
      if i < |f| - 2 { assert PeakAt(f, i); }
    }
    forall i | 0 <= i < |h| - 2 && SameWay(d[|d| - 1], b, d[|d| - 1], c) ensures PeakAt(h, i) {
      assert PeakAt(f, i);
    }
  }

  /** A reversal is kept, any other interior point dropped. */
  lemma ReversalsStep(t: seq<real>, k: nat)
    requires 2 <= k < |t| && NoRepeats(t)
    ensures var d := Reversals(t, k - 1);
            Reversals(t, k) == if Peak(t[k - 2], t[k - 1], t[k]) then d + [t[k - 1]] else d
    ensures !Peak(t[k - 2], t[k - 1], t[k]) ==> SameWay(t[k - 2], t[k - 1], t[k - 1], t[k])
  {
    assert DiffersAt(t, k - 2) && DiffersAt(t, k - 1);
    ReversalTest(t[k - 2], t[k - 1], t[k]);
  }

  lemma BoundedParts(s: seq<real>, x: real, lo: real, hi: real)
    ensures Bounded(s + [x], lo, hi) <==> Bounded(s, lo, hi) && lo <= x <= hi
  {
    assert (s + [x])[|s|] == x;
    assert forall i :: 0 <= i < |s| ==> (s + [x])[i] == s[i];
  }

  /** Bounds of the reversals and of the next point hold for the point between them. */
  lemma InteriorWithin(t: seq<real>, k: nat, lo: real, hi: real)
    requires 2 <= k < |t| && NoRepeats(t)
    requires Bounded(Reversals(t, k), lo, hi) && lo <= t[k] <= hi
    ensures Bounded(Reversals(t, k - 1), lo, hi) && lo <= t[k - 1] <= hi
  {
    hide TotalVariation, Alternating, Reversals, NoRepeats;
    ReversalsStep(t, k);
    ReversalsPreserve(t, k - 1);
    var d := Reversals(t, k - 1);
    BoundedParts(d, t[k - 1], lo, hi);
    assert lo <= d[|d| - 1] <= hi;
  }

  lemma {:induction false} ReversalsBound(t: seq<real>, k: nat, lo: real, hi: real)
    requires 1 <= k < |t| && NoRepeats(t)
    requires Bounded(Reversals(t, k), lo, hi) && lo <= t[k] <= hi
    ensures Bounded(t[..k + 1], lo, hi)
  {
    if k == 1 {
      assert lo <= Reversals(t, k)[0] <= hi;
    } else {
      hide Reversals, Bounded, NoRepeats;
      InteriorWithin(t, k, lo, hi);
      ReversalsBound(t, k - 1, lo, hi);
      assert t[..k + 1] == t[..k] + [t[k]];
      BoundedParts(t[..k], t[k], lo, hi);
    }
  }

  lemma {:induction false} ReversalsAreValues(t: seq<real>, k: nat, i: nat)
    requires 1 <= k < |t| && i < |Reversals(t, k)|
    ensures Reversals(t, k)[i] in t
  {
    if k > 1 && i < |Reversals(t, k - 1)| { ReversalsAreValues(t, k - 1, i); }
  }

  // ---------------------------------------------------------------------------------------
  // One pop of the stack machine
  // ---------------------------------------------------------------------------------------

  /** Removing the inner range X-Y of W-X-Y-Z keeps the direction and accounts for twice its length. */
  lemma FourPoints(w: real, x: real, y: real, z: real)
    requires Peak(w, x, y) && Peak(x, y, z)
    requires Abs(x - w) > Abs(y - x) && Abs(z - y) >= Abs(y - x)
    ensures SameWay(w, z, w, x) && SameWay(w, z, y, z)
    ensures Abs(z - w) == Abs(x - w) - Abs(y - x) + Abs(z - y)
    ensures (w <= x <= z && w <= y <= z) || (w >= x >= z && w >= y >= z)
  {}

  lemma LastFour(s: seq<real>)
    requires |s| >= 4 && Pushed(s) && Closes(s)
    ensures var w, x, y, z := s[|s| - 4], s[|s| - 3], s[|s| - 2], s[|s| - 1];
            && SameWay(w, z, w, x) && SameWay(w, z, y, z)
            && Abs(z - w) == Abs(x - w) - Abs(y - x) + Abs(z - y)
            && ((w <= x <= z && w <= y <= z) || (w >= x >= z && w >= y >= z))
  {
    var n := |s|;
    assert PeakAt(s, n - 4);
    assert PeakAt(s, n - 3);
    assert ShrinksAt(s, n - 4);
    FourPoints(s[n - 4], s[n - 3], s[n - 2], s[n - 1]);
  }

  lemma LastThree(s: seq<real>)
    requires |s| >= 3 && Alternating(s)
    ensures Peak(s[|s| - 3], s[|s| - 2], s[|s| - 1])
  {
    assert PeakAt(s, |s| - 3);
  }

  lemma PopKeepsShape(s: seq<real>)
    requires Pushed(s) && Closes(s)
    ensures Pushed(Pop(s))
  {
    var n := |s|;
    var u := Pop(s);
    if n > 3 {
      LastFour(s);
      forall i | 0 <= i < |u| - 2 ensures PeakAt(u, i) {
        assert PeakAt(s, i);
      }
      forall i | 0 <= i && i + 1 < |u| - 2 && i + 2 < |u|
        ensures ShrinksAt(u, i)
      {
        assert ShrinksAt(s, i);
      }
    } else {
      assert PeakAt(s, 0);
    }
  }

  /** Variation of the points before the last three, and of the last three ranges. */
  lemma VariationTail(s: seq<real>)
    requires |s| >= 3
    ensures TotalVariation(s) ==
            TotalVariation(s[..|s| - 2]) + Abs(s[|s| - 2] - s[|s| - 3]) + Abs(s[|s| - 1] - s[|s| - 2])
  {
    hide TotalVariation;
    VariationLast(s);
    VariationLast(s[..|s| - 1]);
    assert s[..|s| - 1][..|s| - 2] == s[..|s| - 2];
  }

  lemma VariationOfPop(s: seq<real>)
    requires |s| >= 3
    ensures var n, u := |s|, Pop(s);
            TotalVariation(u) == if n == 3 then Abs(s[2] - s[1])
                else TotalVariation(s[..n - 3]) + Abs(s[n - 1] - s[n - 4])
  {
    hide TotalVariation;
    var u := Pop(s);
    VariationLast(u);
    if |s| == 3 {
      VariationOne(u[..1]);
    } else {
      assert u[..|s| - 3] == s[..|s| - 3];
    }
  }

  lemma PopConserves(s: seq<real>)
    requires Pushed(s) && Closes(s)
    ensures TotalVariation(s) == TotalVariation(Pop(s)) + 2.0 * Emitted(s).depth * Emitted(s).count
    ensures s[|s| - 3] != s[|s| - 2]
  {
    hide TotalVariation, Alternating, Shrinking, Pop;
    LastThree(s);
    VariationTail(s);
    VariationOfPop(s);
    if |s| == 3 {
      VariationOne(s[..1]);
    } else {
      LastFour(s);
      VariationLast(s[..|s| - 2]);
      assert s[..|s| - 2][..|s| - 3] == s[..|s| - 3];
    }
  }

  lemma VariationLast(s: seq<real>)
    requires |s| >= 2
    ensures TotalVariation(s) == TotalVariation(s[..|s| - 1]) + Abs(s[|s| - 1] - s[|s| - 2])
  {}

  lemma VariationOne(s: seq<real>)
    requires |s| == 1
    ensures TotalVariation(s) == 0.0
  {}

  lemma PopBound(s: seq<real>, lo: real, hi: real)
    requires Pushed(s) && Closes(s)
    requires Bounded(Pop(s), lo, hi)
    ensures Bounded(s, lo, hi)
  {
    var n := |s|;
    var u := Pop(s);
    assert PeakAt(s, n - 3);
    assert lo <= u[|u| - 1] <= hi;
    if n == 3 {
      assert lo <= u[0] <= hi;
    } else {
      LastFour(s);
      assert lo <= u[n - 4] <= hi;
      forall i | 0 <= i < n ensures lo <= s[i] <= hi {
        if i < n - 3 { assert u[i] == s[i]; }
      }
    }
  }

  // ---------------------------------------------------------------------------------------
  // The whole inner loop and the whole feed
  // ---------------------------------------------------------------------------------------

  /** What the cycle list and stack conserve together: twice the weighted depth plus the variation. */
  function Ledger(m: Machine): real { 2.0 * WeightedDepth(m.cycles) + TotalVariation(m.stack) }

  /** Twice the cycle count plus the stack height. */
  function Tally(m: Machine): real { 2.0 * CountSum(m.cycles) + |m.stack| as real }

  /** A cycle is a range between two of the given points, not empty, counted half or once. */
  ghost predicate Honest(c: Cycle, points: set<real>) {
    && c.depth > 0.0
    && (c.count == 0.5 || c.count == 1.0)
    && c.mean - c.depth / 2.0 in points
    && c.mean + c.depth / 2.0 in points
  }

  ghost predicate AllHonest(cycles: seq<Cycle>, points: set<real>) {
    forall i :: 0 <= i < |cycles| ==> Honest(cycles[i], points)
  }

  ghost predicate From(s: seq<real>, points: set<real>) {
    forall i :: 0 <= i < |s| ==> s[i] in points
  }

  lemma RangeIsHonest(a: real, b: real, count: real, points: set<real>)
    requires a != b && a in points && b in points && (count == 0.5 || count == 1.0)
    ensures Honest(Cycle(Abs(b - a), (a + b) / 2.0, count), points)
  {
    var c := Cycle(Abs(b - a), (a + b) / 2.0, count);
    if a < b {
      assert c.mean - c.depth / 2.0 == a && c.mean + c.depth / 2.0 == b;
    } else {
      assert c.mean - c.depth / 2.0 == b && c.mean + c.depth / 2.0 == a;
    }
  }

  lemma EmitCycle(cycles: seq<Cycle>, c: Cycle)
    ensures WeightedDepth(cycles + [c]) == WeightedDepth(cycles) + c.depth * c.count
    ensures CountSum(cycles + [c]) == CountSum(cycles) + c.count
  {
    assert (cycles + [c])[..|cycles|] == cycles;
  }

  lemma PopStep(m: Machine, points: set<real>)
    requires Pushed(m.stack) && Closes(m.stack) && AllHonest(m.cycles, points) && From(m.stack, points)
    ensures var r := Machine(Pop(m.stack), m.cycles + [Emitted(m.stack)]);
            && Pushed(r.stack) && AllHonest(r.cycles, points) && From(r.stack, points)
            && Ledger(r) == Ledger(m) && Tally(r) == Tally(m)
  {
    hide TotalVariation, WeightedDepth, CountSum, Pushed;
    var s, n := m.stack, |m.stack|;
    PopKeepsShape(s);
    PopConserves(s);
    EmitCycle(m.cycles, Emitted(s));
    RangeIsHonest(s[n - 3], s[n - 2], Emitted(s).count, points);
  }

  lemma {:induction false} ReduceKeeps(m: Machine, points: set<real>)
    requires Pushed(m.stack) && AllHonest(m.cycles, points) && From(m.stack, points)
    ensures var r := Reduce(m);
            && Funnel(r.stack) && AllHonest(r.cycles, points) && From(r.stack, points)
            && Ledger(r) == Ledger(m) && Tally(r) == Tally(m)
    decreases |m.stack|
  {
    if Closes(m.stack) {
      PopStep(m, points);
      ReduceKeeps(Machine(Pop(m.stack), m.cycles + [Emitted(m.stack)]), points);
    }
  }

  lemma {:induction false} ReduceBound(m: Machine, lo: real, hi: real)
    requires Pushed(m.stack) && Bounded(Reduce(m).stack, lo, hi)
    ensures Bounded(m.stack, lo, hi)
    decreases |m.stack|
  {
    if Closes(m.stack) {
      PopKeepsShape(m.stack);
      ReduceBound(Machine(Pop(m.stack), m.cycles + [Emitted(m.stack)]), lo, hi);
      PopBound(m.stack, lo, hi);
    }
  }

  /** The last step on the stack goes the way of the last input step, so the next push alternates. */
  lemma {:induction false} ReduceKeepsLastStep(m: Machine)
    requires Pushed(m.stack) && |m.stack| >= 2
    ensures var r, s := Reduce(m).stack, m.stack;
            |r| >= 2 && r[|r| - 1] == s[|s| - 1] && SameWay(r[|r| - 2], r[|r| - 1], s[|s| - 2], s[|s| - 1])
    decreases |m.stack|
  {
    var s, n := m.stack, |m.stack|;
    if n >= 3 { assert PeakAt(s, n - 3); }
    if Closes(s) {
      PopKeepsShape(s);
      ReduceKeepsLastStep(Machine(Pop(s), m.cycles + [Emitted(s)]));
      if n > 3 { LastFour(s); }
    }
  }

  /** The stack ends with the last input point, reached in the direction of the last input step. */
  ghost predicate Ready(stack: seq<real>, points: seq<real>) {
    var n, k := |points|, |stack|;
    && n >= 1 && k >= 1 && stack[k - 1] == points[n - 1]
    && (n >= 2 ==> k >= 2 && SameWay(stack[k - 2], stack[k - 1], points[n - 2], points[n - 1]))
    && (n == 1 ==> k == 1)
  }

  lemma PushKeepsShape(stack: seq<real>, points: seq<real>, p: real)
    requires Funnel(stack) && Ready(stack, points) && Alternating(points + [p])
    ensures Pushed(stack + [p])
    ensures SameWay(stack[|stack| - 1], p, points[|points| - 1], p)
  {
    var s, q := stack + [p], points + [p];
    var n := |points|;
    if n >= 2 {
      assert PeakAt(q, n - 2);
      var d := stack[..|stack| - 1];
      assert stack == d + [stack[|stack| - 1]];
      ReplaceLast(d, stack[|stack| - 1], p);
    } else {
      assert q[0] != q[1];
    }
    forall i | 0 <= i && i + 1 < |s| - 2 && i + 2 < |s|
      ensures ShrinksAt(s, i)
    {
      assert ShrinksAt(stack, i);
    }
  }

  lemma FeedOne(p: real)
    ensures Feed([p]) == Machine([p], [])
    ensures TotalVariation([p]) == 0.0 && WeightedDepth([]) == 0.0 && CountSum([]) == 0.0 && Funnel([p])
  {
    assert [p][..0] == [] && [] + [p] == [p];
  }

  /** After every inner loop the stack alternates with strictly decreasing ranges, and the two
      ledgers account exactly for the points fed so far. */
  lemma {:induction false} FeedKeeps(points: seq<real>, universe: set<real>)
    requires |points| >= 1 && Alternating(points) && From(points, universe)
    ensures var m := Feed(points);
            && Funnel(m.stack) && Ready(m.stack, points)
            && AllHonest(m.cycles, universe) && From(m.stack, universe)
            && Ledger(m) == TotalVariation(points) && Tally(m) == |points| as real
  {
    hide TotalVariation, WeightedDepth, CountSum, Alternating, Shrinking, Reduce;
    var n := |points|;
    var init, p := points[..n - 1], points[n - 1];
    if n == 1 {
      FeedOne(p);
      assert points == [p];
    } else {
      AlternatingPrefix(points);
      FeedKeeps(init, universe);
      var m := Feed(init);
      assert points == init + [p];
      PushKeepsShape(m.stack, init, p);
      VariationSnoc(m.stack, p);
      VariationSnoc(init, p);
      var pushed := Machine(m.stack + [p], m.cycles);
      ReduceKeeps(pushed, universe);
      ReduceKeepsLastStep(pushed);
      assert Feed(points) == Reduce(pushed);
    }
  }

  lemma AlternatingPrefix(points: seq<real>)
    requires Alternating(points) && |points| >= 2
    ensures Alternating(points[..|points| - 1])
  {
    var init := points[..|points| - 1];
    forall i | 0 <= i < |init| - 2 ensures PeakAt(init, i) {
      assert PeakAt(points, i);
    }
  }

  /** The stack spans every point fed so far. */
  lemma {:induction false} FeedSpans(points: seq<real>, lo: real, hi: real)
    requires |points| >= 1 && Alternating(points) && Bounded(Feed(points).stack, lo, hi)
    ensures Bounded(points, lo, hi)
  {
    var n := |points|;
    var init, p := points[..n - 1], points[n - 1];
    if n == 1 {
      FeedKeeps(points, {p});
    } else {
      hide TotalVariation, WeightedDepth, CountSum, Reduce, Bounded, Alternating, Shrinking;
      AlternatingPrefix(points);
      var universe := set q | q in init;
      FeedKeeps(init, universe);
      var m := Feed(init);
      assert points == init + [p];
      PushKeepsShape(m.stack, init, p);
      ReduceBound(Machine(m.stack + [p], m.cycles), lo, hi);
      BoundedParts(m.stack, p, lo, hi);
      FeedSpans(init, lo, hi);
      BoundedParts(init, p, lo, hi);
    }
  }

  /** A funnel is contained in its first range. */
  lemma {:induction false} FunnelHull(s: seq<real>, k: nat)
    requires Funnel(s) && 2 <= k <= |s|
    ensures Bounded(s[..k], Min(s[0], s[1]), Max(s[0], s[1]))
    ensures k >= 3 ==> Min(s[k - 3], s[k - 2]) <= s[k - 1] <= Max(s[k - 3], s[k - 2])
  {
    if k >= 3 {
      FunnelHull(s, k - 1);
      assert PeakAt(s, k - 3);
      assert ShrinksAt(s, k - 3);
      assert s[..k - 1][k - 3] == s[k - 3] && s[..k - 1][k - 2] == s[k - 2];
    }
  }

  // ---------------------------------------------------------------------------------------
  // Residue and filter
  // ---------------------------------------------------------------------------------------

  lemma {:induction false} ResidueKeeps(s: seq<real>, k: nat, points: set<real>)
    requires k < |s| && NoRepeats(s) && From(s, points)
    ensures 2.0 * WeightedDepth(Residue(s, k)) == TotalVariation(s[..k + 1])
    ensures 2.0 * CountSum(Residue(s, k)) == k as real
    ensures AllHonest(Residue(s, k), points)
  {
    hide TotalVariation, WeightedDepth, CountSum;
    if k == 0 {
      assert s[..1] == [s[0]];
      FeedOne(s[0]);
    } else {
      ResidueKeeps(s, k - 1, points);
      assert DiffersAt(s, k - 1);
      VariationPrefix(s, k);
      var c := Cycle(Abs(s[k] - s[k - 1]), (s[k] + s[k - 1]) / 2.0, 0.5);
      EmitCycle(Residue(s, k - 1), c);
      RangeIsHonest(s[k - 1], s[k], 0.5, points);
    }
  }

  /** The final depth filter never removes anything. */
  lemma {:induction false} FilterIsIdle(cycles: seq<Cycle>, points: set<real>)
    requires AllHonest(cycles, points)
    ensures KeepPositive(cycles) == cycles
  {
    if |cycles| > 0 {
      FilterIsIdle(cycles[..|cycles| - 1], points);
      assert Honest(cycles[|cycles| - 1], points);
    }
  }

  lemma {:induction false} CycleSumsConcat(a: seq<Cycle>, b: seq<Cycle>)
    ensures WeightedDepth(a + b) == WeightedDepth(a) + WeightedDepth(b)
    ensures CountSum(a + b) == CountSum(a) + CountSum(b)
  {
    if |b| == 0 {
      assert a + b == a;
    } else {
      CycleSumsConcat(a, b[..|b| - 1]);
      assert (a + b)[..|a + b| - 1] == a + b[..|b| - 1];
    }
  }

  lemma AlternatingNoRepeats(s: seq<real>)
    requires Alternating(s)
    ensures NoRepeats(s)
  {
    forall i | 0 <= i < |s| - 1 ensures DiffersAt(s, i) {
      if i > 0 { assert PeakAt(s, i - 1); }
    }
  }

  // ---------------------------------------------------------------------------------------
  // Main results
  // ---------------------------------------------------------------------------------------

  lemma ExtremaFacts(values: seq<real>)
    requires |values| > 0 && |Turning(values)| >= 2
    ensures var e := Extrema(Turning(values));
            && |e| >= 2 && Alternating(e) && TotalVariation(e) == TotalVariation(values)
            && From(e, set v | v in values)
  {
    hide TotalVariation, Alternating, Turning, Reversals;
    var t := Turning(values);
    TurningPreserves(values);
    ReversalsPreserve(t, |t| - 1);
    assert t[..|t| - 1 + 1] == t;
    var e, r := Extrema(t), Reversals(t, |t| - 1);
    forall i | 0 <= i < |e| ensures e[i] in values {
      if i < |r| { ReversalsAreValues(t, |t| - 1, i); }
      assert e[i] in t;
      TurningSameValues(values, e[i]);
    }
  }

  /** Cycles of a run of alternating points: both ledgers closed, every cycle honest. */
  lemma AllCyclesKeeps(points: seq<real>, universe: set<real>)
    requires |points| >= 2 && Alternating(points) && From(points, universe)
    ensures var c := AllCycles(points);
            && 2.0 * WeightedDepth(c) == TotalVariation(points)
            && 2.0 * CountSum(c) == (|points| - 1) as real
            && AllHonest(c, universe)
  {
    hide TotalVariation, WeightedDepth, CountSum, Feed, Residue, Alternating, Shrinking;
    FeedKeeps(points, universe);
    var m := Feed(points);
    AlternatingNoRepeats(m.stack);
    ResidueKeeps(m.stack, |m.stack| - 1, universe);
    assert m.stack[..|m.stack|] == m.stack;
    CycleSumsConcat(m.cycles, Residue(m.stack, |m.stack| - 1));
  }

  /** Conservation: twice the weighted depth is the total variation of the series, for every series. */
  lemma RainflowConserves(values: seq<real>)
    requires |values| > 0
    ensures 2.0 * WeightedDepth(RainflowCycles(values)) == TotalVariation(values)
  {
    var t := Turning(values);
    TurningPreserves(values);
    if |t| >= 2 {
      ExtremaFacts(values);
      var universe := set v | v in values;
      AllCyclesKeeps(Extrema(t), universe);
      FilterIsIdle(AllCycles(Extrema(t)), universe);
    }
  }

  /** The cycle count is half the number of reversal-to-reversal steps. */
  lemma RainflowCounts(values: seq<real>)
    requires |values| > 0 && |Turning(values)| >= 2
    ensures 2.0 * CountSum(RainflowCycles(values)) == (|Extrema(Turning(values))| - 1) as real
  {
    var t := Turning(values);
    ExtremaFacts(values);
    var universe := set v | v in values;
    AllCyclesKeeps(Extrema(t), universe);
    FilterIsIdle(AllCycles(Extrema(t)), universe);
  }

  /** Every reported cycle is a non-empty range whose two ends are values of the series. */
  lemma RainflowCyclesAreRanges(values: seq<real>)
    requires |values| > 0
    ensures AllHonest(RainflowCycles(values), set v | v in values)
  {
    var t := Turning(values);
    if |t| >= 2 {
      ExtremaFacts(values);
      var universe := set v | v in values;
      AllCyclesKeeps(Extrema(t), universe);
      FilterIsIdle(AllCycles(Extrema(t)), universe);
    }
  }

  /** The depth of a cycle that spans the whole series. */
  ghost predicate SpansSeries(c: Cycle, values: seq<real>) {
    Bounded(values, c.mean - c.depth / 2.0, c.mean + c.depth / 2.0)
  }

  /** Some cycle of an alternating run of points spans all of them. */
  lemma SpanningCycle(points: seq<real>, universe: set<real>) returns (i: nat)
    requires |points| >= 2 && Alternating(points) && From(points, universe)
    ensures i < |AllCycles(points)| && SpansSeries(AllCycles(points)[i], points)
  {
    hide TotalVariation, WeightedDepth, CountSum, Feed, Alternating, Shrinking, Residue;
    FeedKeeps(points, universe);
    var m := Feed(points);
    var s := m.stack;
    FunnelHull(s, |s|);
    assert s[..|s|] == s;
    var lo, hi := Min(s[0], s[1]), Max(s[0], s[1]);
    FeedSpans(points, lo, hi);
    FirstResidue(s, |s| - 1);
    i := |m.cycles|;
    var c := AllCycles(points)[i];
    assert c == Residue(s, |s| - 1)[0];
    assert c.mean - c.depth / 2.0 == lo && c.mean + c.depth / 2.0 == hi;
  }

  /** Some reported cycle reaches from the minimum to the maximum of a non-constant series. */
  lemma RainflowLargestCycle(values: seq<real>) returns (i: nat)
    requires |values| > 0 && |Turning(values)| >= 2
    ensures i < |RainflowCycles(values)| && SpansSeries(RainflowCycles(values)[i], values)
  {
    hide Turning, Extrema, AllCycles, TotalVariation, Alternating, Bounded, From, AllHonest, KeepPositive;
    var e := Extrema(Turning(values));
    var universe := set v | v in values;
    ExtremaFacts(values);
    AllCyclesKeeps(e, universe);
    FilterIsIdle(AllCycles(e), universe);
    i := SpanningCycle(e, universe);
    var c := AllCycles(e)[i];
    BoundedBack(values, c.mean - c.depth / 2.0, c.mean + c.depth / 2.0);
  }

  lemma {:induction false} FirstResidue(s: seq<real>, k: nat)
    requires 1 <= k < |s|
    ensures |Residue(s, k)| >= 1 && Residue(s, k)[0] == Cycle(Abs(s[1] - s[0]), (s[1] + s[0]) / 2.0, 0.5)
  {
    if k == 1 {
      assert Residue(s, 0) == [];
    } else {
      FirstResidue(s, k - 1);
    }
  }

  lemma BoundedBack(values: seq<real>, lo: real, hi: real)
    requires |values| > 0 && |Turning(values)| >= 2 && Bounded(Extrema(Turning(values)), lo, hi)
    ensures Bounded(values, lo, hi)
  {
    var t := Turning(values);
    var e, r := Extrema(t), Reversals(t, |t| - 1);
    TurningPreserves(values);
    assert forall i :: 0 <= i < |r| ==> r[i] == e[i];
    assert e[|r|] == t[|t| - 1];
    ReversalsBound(t, |t| - 1, lo, hi);
    assert t[..|t|] == t;
    forall i | 0 <= i < |values| ensures lo <= values[i] <= hi {
      TurningSameValues(values, values[i]);
      var j :| 0 <= j < |t| && t[j] == values[i];
      assert lo <= t[..|t|][j] <= hi;
    }
  }

  /** Hull: no depth exceeds the spread of the series, and for a non-constant series one attains it. */
  lemma RainflowHull(values: seq<real>, lo: real, hi: real)
    requires |values| > 0 && lo in values && hi in values && Bounded(values, lo, hi)
    ensures var c := RainflowCycles(values);
            && (forall i :: 0 <= i < |c| ==> c[i].depth <= hi - lo)
            && (lo < hi ==> exists i :: 0 <= i < |c| && c[i].depth == hi - lo)
            && (lo == hi ==> c == [])
  {
    var c := RainflowCycles(values);
    RainflowCyclesAreRanges(values);
    forall i | 0 <= i < |c| ensures c[i].depth <= hi - lo {
      assert Honest(c[i], set v | v in values);
    }
    TurningPreserves(values);
    var t := Turning(values);
    TurningSameValues(values, lo);
    TurningSameValues(values, hi);
    if |t| >= 2 {
      TurningSameValues(values, t[0]);
      TurningSameValues(values, t[1]);
      assert DiffersAt(t, 0);
      assert lo < hi;
      var i := RainflowLargestCycle(values);
      assert Honest(c[i], set v | v in values);
      assert c[i].depth >= hi - lo;
    }
  }

  /** The two figures the degradation report prints side by side, before rounding. */
  lemma ThroughputIsTwiceEquivalentCycles(soc: seq<real>, capacityKwh: real)
    requires |soc| > 0
    ensures TotalVariation(soc) * capacityKwh == 2.0 * WeightedDepth(RainflowCycles(soc)) * capacityKwh
  {
    RainflowConserves(soc);
  }
}
