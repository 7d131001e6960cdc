/** Gauss-Jordan elimination with partial pivoting, as digital_twin.py solves its ridge systems. */
module LinearSolver {
  import opened RealMath

  /** Pivots smaller than this are replaced by it. */
  const PIVOT_FLOOR: real := 0.0000000001

  type Row = seq<real>

  ghost predicate Shape(rows: seq<Row>, n: nat) {
    |rows| == n && forall i :: 0 <= i < n ==> |rows[i]| == n + 1
  }

  /** An augmented row, as an equation in x. */
  ghost predicate Holds(row: Row, x: seq<real>)
    requires |row| == |x| + 1
  {
    Dot(row, x, |x|) == row[|x|]
  }

  ghost predicate HoldsUpTo(rows: seq<Row>, x: seq<real>, k: nat)
    requires Shape(rows, |x|) && k <= |x|
  {
    forall i :: 0 <= i < k ==> Holds(rows[i], x)
  }

  ghost predicate Solves(rows: seq<Row>, x: seq<real>)
    requires Shape(rows, |x|)
  {
    HoldsUpTo(rows, x, |x|)
  }

  // ---------------------------------------------------------------------------------------
  // The elimination as functions
  // ---------------------------------------------------------------------------------------

  function Minus(a: Row, f: real, b: Row): (r: Row)
    requires |a| == |b|
    ensures |r| == |a|
  {
    seq(|a|, j requires 0 <= j < |a| => a[j] - f * b[j])
  }

  function Divided(a: Row, d: real): (r: Row)
    requires d != 0.0
    ensures |r| == |a|
  {
    seq(|a|, j requires 0 <= j < |a| => a[j] / d)
  }

  /** First row at or below p whose entry in column p is largest in absolute value, among rows below m. */
  function PivotRow(rows: seq<Row>, p: nat, m: nat): (best: nat)
    requires p < m <= |rows| && Shape(rows, |rows|)
    ensures p <= best < m
  {
    if m == p + 1 then p
    else
      var best := PivotRow(rows, p, m - 1);
      if Abs(rows[m - 1][p]) > Abs(rows[best][p]) then m - 1 else best
  }

  function Swap(rows: seq<Row>, p: nat, q: nat): seq<Row>
    requires p < |rows| && q < |rows|
  {
    rows[p := rows[q]][q := rows[p]]
  }

  predicate TooSmall(d: real) { Abs(d) < PIVOT_FLOOR }

  function Floored(row: Row, p: nat): Row
    requires p < |row|
  {
    if TooSmall(row[p]) then row[p := PIVOT_FLOOR] else row
  }

  /** Clear column p in every other row, the pivot row being already normalised. */
  function Cleared(rows: seq<Row>, p: nat, m: nat): (r: seq<Row>)
    requires p < |rows| && m <= |rows| && Shape(rows, |rows|)
    ensures Shape(r, |rows|)
  {
    seq(|rows|, i requires 0 <= i < |rows| => if i < m && i != p then Minus(rows[i], rows[i][p], rows[p]) else rows[i])
  }

  /** Rows after the first k columns are eliminated, and the columns whose pivot was floored. */
  datatype Progress = Progress(rows: seq<Row>, floored: set<nat>)

  function Swapped(rows: seq<Row>, p: nat): (r: seq<Row>)
    requires p < |rows| && Shape(rows, |rows|)
    ensures Shape(r, |rows|)
  {
    Swap(rows, p, PivotRow(rows, p, |rows|))
  }

  /** The pivot row floored and divided by its pivot. */
  function Normalised(rows: seq<Row>, p: nat): (r: seq<Row>)
    requires p < |rows| && Shape(rows, |rows|)
    ensures Shape(r, |rows|)
  {
    var f := Floored(rows[p], p);
    rows[p := Divided(f, f[p])]
  }

  function Stage(s: Progress, p: nat): (r: Progress)
    requires p < |s.rows| && Shape(s.rows, |s.rows|)
    ensures Shape(r.rows, |s.rows|)
  {
    var swapped := Swapped(s.rows, p);
    Progress(Cleared(Normalised(swapped, p), p, |s.rows|),
             if TooSmall(swapped[p][p]) then s.floored + {p} else s.floored)
  }

  function Eliminated(rows: seq<Row>, k: nat): (r: Progress)
    requires Shape(rows, |rows|) && k <= |rows|
    ensures Shape(r.rows, |rows|)
  {
    if k == 0 then Progress(rows, {}) else Stage(Eliminated(rows, k - 1), k - 1)
  }

  function Augment(matrix: seq<seq<real>>, vector: seq<real>): (r: seq<Row>)
    requires Square(matrix, |vector|)
    ensures Shape(r, |vector|)
  {
    seq(|vector|, i requires 0 <= i < |vector| => matrix[i] + [vector[i]])
  }

  ghost predicate Square(matrix: seq<seq<real>>, n: nat) {
    |matrix| == n && forall i :: 0 <= i < n ==> |matrix[i]| == n
  }

  /** What the solver returns: the last column after eliminating every column. */
  function Solution(rows: seq<Row>): (x: seq<real>)
    requires Shape(rows, |rows|)
    ensures |x| == |rows|
  {
    var e := Eliminated(rows, |rows|).rows;
    seq(|rows|, i requires 0 <= i < |rows| => e[i][|rows|])
  }

  /** Columns whose chosen pivot fell below the floor. */
  function FlooredPivots(rows: seq<Row>): set<nat>
    requires Shape(rows, |rows|)
  {
    Eliminated(rows, |rows|).floored
  }

  // ---------------------------------------------------------------------------------------
  // The loops of the source
  // ---------------------------------------------------------------------------------------

  method FindPivot(augmented: seq<Row>, pivot: nat) returns (best: nat)
    requires pivot < |augmented| && Shape(augmented, |augmented|)
    ensures best == PivotRow(augmented, pivot, |augmented|)
  {
    best := pivot;
    for index := pivot + 1 to |augmented|
      invariant best == PivotRow(augmented, pivot, index)
    {
      if Abs(augmented[index][pivot]) > Abs(augmented[best][pivot]) {
        best := index;
      }
    }
  }

  method ClearColumn(rows: seq<Row>, pivot: nat) returns (augmented: seq<Row>)
    requires pivot < |rows| && Shape(rows, |rows|)
    ensures augmented == Cleared(rows, pivot, |rows|)
  {
    augmented := rows;
    for rowIndex := 0 to |rows|
      invariant augmented == Cleared(rows, pivot, rowIndex)
    {
      if rowIndex != pivot {
        var factor := augmented[rowIndex][pivot];
        augmented := augmented[rowIndex := Minus(augmented[rowIndex], factor, augmented[pivot])];
      }
    }
  }

  method SolveLinear(matrix: seq<seq<real>>, vector: seq<real>) returns (x: seq<real>)
    requires Square(matrix, |vector|)
    ensures x == Solution(Augment(matrix, vector))
  {
    hide Cleared, PivotRow, Dot, Minus;
    var size := |vector|;
    var augmented := Augment(matrix, vector);
    ghost var system, floored: set<nat> := augmented, {};
    for pivot := 0 to size
      invariant Shape(augmented, size)
      invariant Progress(augmented, floored) == Eliminated(system, pivot)
    {
      ghost var before := augmented;
      var best := FindPivot(augmented, pivot);
      augmented := augmented[pivot := augmented[best]][best := augmented[pivot]];
      ghost var swapped := augmented;
      assert swapped == Swapped(before, pivot);
      var divisor := augmented[pivot][pivot];
      if Abs(divisor) < PIVOT_FLOOR {
        divisor := PIVOT_FLOOR;
        augmented := augmented[pivot := augmented[pivot][pivot := divisor]];
        floored := floored + {pivot};
      }
      augmented := augmented[pivot := Divided(augmented[pivot], divisor)];
      assert augmented == Normalised(swapped, pivot);
      augmented := ClearColumn(augmented, pivot);
    }
    x := seq(size, index requires 0 <= index < size && Shape(augmented, size) => augmented[index][size]);
  }

  // ---------------------------------------------------------------------------------------
  // Row operations on equations
  // ---------------------------------------------------------------------------------------

  lemma {:induction false} DotMinus(a: seq<real>, f: real, b: seq<real>, c: seq<real>, x: seq<real>, k: nat)
    requires k <= |a| && k <= |b| && k <= |c| && k <= |x|
    requires forall j :: 0 <= j < k ==> c[j] == a[j] - f * b[j]
    ensures Dot(c, x, k) == Dot(a, x, k) - f * Dot(b, x, k)
  {
    if k > 0 {
      DotMinus(a, f, b, c, x, k - 1);
      var u, v, w := a[k - 1], b[k - 1], x[k - 1];
      Distribute(u, f, v, w, Dot(b, x, k - 1));
      assert c[k - 1] == u - f * v;
    }
  }

  lemma Distribute(u: real, f: real, v: real, w: real, d: real)
    ensures (u - f * v) * w == u * w - f * (v * w)
    ensures f * (d + v * w) == f * d + f * (v * w)
  {}

  lemma {:induction false} DotDivided(a: seq<real>, d: real, c: seq<real>, x: seq<real>, k: nat)
    requires k <= |a| && k <= |c| && k <= |x| && d != 0.0
    requires forall j :: 0 <= j < k ==> c[j] == a[j] / d
    ensures Dot(c, x, k) * d == Dot(a, x, k)
  {
    if k > 0 {
      DotDivided(a, d, c, x, k - 1);
      Undivide(a[k - 1], d, x[k - 1], Dot(c, x, k - 1));
    }
  }

  lemma Undivide(u: real, d: real, w: real, s: real)
    requires d != 0.0
    ensures (s + u / d * w) * d == s * d + u * w
  {
    var q := u / d;
    assert q * d == u;
    assert q * w * d == (q * d) * w;
  }

  lemma {:induction false} DotReplaced(a: seq<real>, p: nat, v: real, x: seq<real>, k: nat)
    requires k <= |a| && k <= |x| && p < |a|
    ensures Dot(a[p := v], x, k) == Dot(a, x, k) + (if p < k then (v - a[p]) * x[p] else 0.0)
  {
    if k > 0 {
      DotReplaced(a, p, v, x, k - 1);
      if p == k - 1 {
        assert a[p] * x[p] + (v - a[p]) * x[p] == v * x[p];
      }
    }
  }

  lemma MinusHolds(a: Row, f: real, b: Row, x: seq<real>)
    requires |a| == |b| == |x| + 1 && Holds(b, x)
    ensures Holds(Minus(a, f, b), x) <==> Holds(a, x)
  {
    hide Dot;
    DotMinus(a, f, b, Minus(a, f, b), x, |x|);
    assert f * Dot(b, x, |x|) == f * b[|x|];
  }

  lemma DividedHolds(a: Row, d: real, x: seq<real>)
    requires |a| == |x| + 1 && d != 0.0
    ensures Holds(Divided(a, d), x) <==> Holds(a, x)
  {
    var n := |x|;
    var c := Divided(a, d);
    DotDivided(a, d, c, x, n);
    assert c[n] * d == a[n];
    var e := Dot(c, x, n);
    if e * d == c[n] * d { Cancel(e, c[n], d); }
  }

  lemma Cancel(a: real, b: real, d: real)
    requires d != 0.0 && a * d == b * d
    ensures a == b
  {
    assert (a - b) * d == 0.0;
  }

  lemma ZeroProduct(a: real, b: real)
    requires a != 0.0
    ensures a * b == 0.0 <==> b == 0.0
  {
    if a * b == 0.0 { Cancel(b, 0.0, a); }
  }

  /** Flooring the pivot of a row changes what it says about x exactly when x[p] is not zero. */
  lemma FlooredHolds(row: Row, p: nat, x: seq<real>)
    requires |row| == |x| + 1 && p < |x| && Holds(Floored(row, p), x)
    ensures Holds(row, x) <==> (TooSmall(row[p]) ==> x[p] == 0.0)
  {
    if TooSmall(row[p]) {
      DotReplaced(row, p, PIVOT_FLOOR, x, |x|);
      var gap := PIVOT_FLOOR - row[p];
      ZeroProduct(gap, x[p]);
    }
  }

  // ---------------------------------------------------------------------------------------
  // What one elimination stage keeps
  // ---------------------------------------------------------------------------------------

  /** Columns below k are unit columns. */
  ghost predicate UnitColumns(rows: seq<Row>, k: nat)
    requires Shape(rows, |rows|) && k <= |rows|
  {
    forall i, j :: 0 <= i < |rows| && 0 <= j < k ==> UnitAt(rows, i, j)
  }

  predicate UnitAt(rows: seq<Row>, i: nat, j: nat)
    requires i < |rows| && j < |rows[i]|
  {
    rows[i][j] == if i == j then 1.0 else 0.0
  }

  lemma SelfQuotient(d: real)
    requires d != 0.0
    ensures d / d == 1.0
  {}

  lemma StageUnit(s: Progress, p: nat)
    requires p < |s.rows| && Shape(s.rows, |s.rows|) && UnitColumns(s.rows, p)
    ensures UnitColumns(Stage(s, p).rows, p + 1)
  {
    var n := |s.rows|;
    var a := Swapped(s.rows, p);
    var b := Normalised(a, p);
    var c := Stage(s, p).rows;
    var best := PivotRow(s.rows, p, n);
    var f := Floored(a[p], p);
    SelfQuotient(f[p]);
    assert b[p] == Divided(f, f[p]);
    forall j | 0 <= j < p ensures b[p][j] == 0.0 && a[best][j] == 0.0 {
      assert UnitAt(s.rows, best, j) && UnitAt(s.rows, p, j);
      assert a[p][j] == 0.0 && f[j] == a[p][j];
    }
    forall i, j | 0 <= i < n && 0 <= j < p + 1 ensures UnitAt(c, i, j) {
      if i != p {
        assert c[i] == Minus(a[i], a[i][p], b[p]);
        if j < p && i != best { assert UnitAt(s.rows, i, j); }
      }
    }
  }

  lemma StageHolds(s: Progress, p: nat, x: seq<real>)
    requires p < |s.rows| == |x| && Shape(s.rows, |x|)
    requires HoldsUpTo(Stage(s, p).rows, x, p + 1)
    ensures HoldsUpTo(s.rows, x, p)
    ensures (Solves(s.rows, x) <==>
             Solves(Stage(s, p).rows, x) && (TooSmall(Swapped(s.rows, p)[p][p]) ==> x[p] == 0.0))
  {
    var n := |x|;
    var a := Swapped(s.rows, p);
    var b := Normalised(a, p);
    var c := Stage(s, p).rows;
    var best := PivotRow(s.rows, p, n);
    var f := Floored(a[p], p);
    assert c[p] == b[p] && Holds(c[p], x);
    DividedHolds(f, f[p], x);
    FlooredHolds(a[p], p, x);
    forall i | 0 <= i < n && i != p ensures Holds(c[i], x) <==> Holds(a[i], x) {
      assert c[i] == Minus(a[i], a[i][p], b[p]);
      MinusHolds(a[i], a[i][p], b[p], x);
    }
    assert forall i :: 0 <= i < p ==> a[i] == s.rows[i];
    assert a[p] == s.rows[best] && a[best] == s.rows[p];
    assert forall i :: 0 <= i < n && i != p && i != best ==> a[i] == s.rows[i];
  }

  lemma NoUnitColumns(rows: seq<Row>)
    requires Shape(rows, |rows|)
    ensures UnitColumns(Eliminated(rows, 0).rows, 0)
  {}

  lemma {:induction false} EliminatedUnit(rows: seq<Row>, k: nat)
    requires Shape(rows, |rows|) && k <= |rows|
    ensures UnitColumns(Eliminated(rows, k).rows, k)
  {
    hide Stage, UnitColumns;
    if k == 0 {
      NoUnitColumns(rows);
    } else {
      EliminatedUnit(rows, k - 1);
      var s := Eliminated(rows, k - 1);
      StageUnit(s, k - 1);
      assert Eliminated(rows, k) == Stage(s, k - 1);
    }
  }

  ghost predicate ZeroOn(x: seq<real>, columns: set<nat>) {
    forall p :: p in columns && p < |x| ==> x[p] == 0.0
  }

  /** Elimination up to column k loses nothing about vectors that satisfy the finished rows, except
      at the floored pivots. */
  lemma {:induction false} EliminatedHolds(rows: seq<Row>, k: nat, x: seq<real>)
    requires Shape(rows, |rows|) && k <= |rows| == |x|
    requires HoldsUpTo(Eliminated(rows, k).rows, x, k)
    ensures Solves(rows, x) <==> Solves(Eliminated(rows, k).rows, x) && ZeroOn(x, Eliminated(rows, k).floored)
  {
    hide Dot, Swapped, Normalised, Cleared, HoldsUpTo, Solves;
    if k == 0 {
      assert Eliminated(rows, 0) == Progress(rows, {});
    } else {
      var s := Eliminated(rows, k - 1);
      StageHolds(s, k - 1, x);
      EliminatedHolds(rows, k - 1, x);
      var t := Stage(s, k - 1);
      assert ZeroOn(x, t.floored) <==>
             ZeroOn(x, s.floored) && (TooSmall(Swapped(s.rows, k - 1)[k - 1][k - 1]) ==> x[k - 1] == 0.0);
    }
  }

  lemma {:induction false} UnitDot(row: Row, i: nat, x: seq<real>, k: nat)
    requires k <= |x| && |x| <= |row| && i < |x|
    requires forall j :: 0 <= j < k ==> row[j] == if j == i then 1.0 else 0.0
    ensures Dot(row, x, k) == if i < k then x[i] else 0.0
  {
    if k > 0 {
      UnitDot(row, i, x, k - 1);
      assert row[k - 1] * x[k - 1] == if k - 1 == i then x[i] else 0.0;
    }
  }

  /** A fully reduced system is solved by its last column and by nothing else. */
  lemma ReducedSolution(rows: seq<Row>, x: seq<real>)
    requires Shape(rows, |rows|) && |x| == |rows| && UnitColumns(rows, |rows|)
    ensures Solves(rows, x) <==> forall i :: 0 <= i < |x| ==> x[i] == rows[i][|x|]
  {
    forall i | 0 <= i < |x| ensures Dot(rows[i], x, |x|) == x[i] {
      forall j | 0 <= j < |x| ensures rows[i][j] == if j == i then 1.0 else 0.0 {
        assert UnitAt(rows, i, j);
      }
      UnitDot(rows[i], i, x, |x|);
    }
    if forall i :: 0 <= i < |x| ==> x[i] == rows[i][|x|] {
      forall i | 0 <= i < |x| ensures Holds(rows[i], x) {}
    }
    if Solves(rows, x) {
      forall i | 0 <= i < |x| ensures x[i] == rows[i][|x|] { assert Holds(rows[i], x); }
    }
  }

  // ---------------------------------------------------------------------------------------
  // Main results
  // ---------------------------------------------------------------------------------------

  /** The returned vector solves the system it was given exactly when it is zero at every floored pivot. */
  lemma SolutionSolvesIff(rows: seq<Row>)
    requires Shape(rows, |rows|)
    ensures Solves(rows, Solution(rows)) <==> ZeroOn(Solution(rows), FlooredPivots(rows))
  {
    var n := |rows|;
    var x := Solution(rows);
    EliminatedUnit(rows, n);
    ReducedSolution(Eliminated(rows, n).rows, x);
    EliminatedHolds(rows, n, x);
  }

  /** Without a floored pivot the returned vector is the one and only solution. */
  lemma SolutionUnique(rows: seq<Row>, y: seq<real>)
    requires Shape(rows, |rows|) && |y| == |rows| && FlooredPivots(rows) == {}
    ensures Solves(rows, y) <==> y == Solution(rows)
  {
    var n := |rows|;
    var x := Solution(rows);
    var e := Eliminated(rows, n).rows;
    EliminatedUnit(rows, n);
    SolutionSolvesIff(rows);
    if Solves(rows, y) {
      SolvesForward(rows, n, y);
      ReducedSolution(e, y);
    }
  }

  lemma {:induction false} SolvesForward(rows: seq<Row>, k: nat, y: seq<real>)
    requires Shape(rows, |rows|) && k <= |rows| == |y|
    requires Eliminated(rows, k).floored == {} && Solves(rows, y)
    ensures Solves(Eliminated(rows, k).rows, y)
  {
    hide Solves, Swapped, Normalised, Cleared;
    if k == 0 {
      assert Eliminated(rows, 0) == Progress(rows, {});
    } else {
      var s := Eliminated(rows, k - 1);
      SolvesForward(rows, k - 1, y);
      StageForward(s, k - 1, y);
    }
  }

  lemma StageForward(s: Progress, p: nat, x: seq<real>)
    requires p < |s.rows| == |x| && Shape(s.rows, |x|)
    requires Solves(s.rows, x) && !TooSmall(Swapped(s.rows, p)[p][p])
    ensures Solves(Stage(s, p).rows, x)
  {
    var n := |x|;
    var a := Swapped(s.rows, p);
    var b := Normalised(a, p);
    var c := Stage(s, p).rows;
    DividedHolds(a[p], a[p][p], x);
    forall i | 0 <= i < n ensures Holds(c[i], x) {
      if i != p {
        assert c[i] == Minus(a[i], a[i][p], b[p]);
        MinusHolds(a[i], a[i][p], b[p], x);
      }
    }
  }

  /** Partial pivoting: no candidate in the column beats the chosen row. */
  lemma {:induction false} PivotRowIsLargest(rows: seq<Row>, p: nat, m: nat, i: nat)
    requires p < m <= |rows| && Shape(rows, |rows|) && p <= i < m
    ensures Abs(rows[i][p]) <= Abs(rows[PivotRow(rows, p, m)][p])
  {
    if m > p + 1 && i < m - 1 { PivotRowIsLargest(rows, p, m - 1, i); }
    else if m > p + 1 { PivotRowIsLargest(rows, p, m - 1, p); }
  }
}
