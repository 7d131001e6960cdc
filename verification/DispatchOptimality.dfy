/** When the plan of the rolling dynamic program is the cheapest one (optimizer.py). Its states are keyed by
    state of charge alone, so a cheaper path can be lost to one that the ramp limit later holds back. */
module DispatchOptimality {
  import opened RealMath
  import opened Rounding
  import opened Wrappers
  import opened DispatchMpc

  const LARGEST_RATIO: real := 0.72

  /** No expansion of the search is larger than the beam. */
  ghost predicate Unpruned(c: Case) {
    forall step :: 0 <= step < |c.forecast| ==> Fits(c, step)
  }

  ghost predicate Fits(c: Case, step: nat)
    requires step < |c.forecast|
  {
    |Expand(c, step, Searched(c, step).beam, |Searched(c, step).beam|)| <= BEAM
  }

  /** Whatever the power before it, the ramp limit allows this step. */
  predicate RampFree(c: Case, powerKw: real) {
    Abs(powerKw) + LARGEST_RATIO * Abs(c.station.storagePowerKw) <= RampLimit(c)
  }

  ghost predicate RampFreePath(c: Case, path: seq<PlanStep>) {
    forall k :: 0 <= k < |path| ==> RampFree(c, path[k].powerKw)
  }

  // ---------------------------------------------------------------------------------------
  // Pruning a small expansion drops nothing
  // ---------------------------------------------------------------------------------------

  lemma SmallIsKept(s: seq<Entry>, key: int, cost: real)
    requires |s| <= BEAM && Covered(s, key, cost)
    ensures Covered(Prune(s), key, cost)
  {
    var i :| 0 <= i < |s| && s[i].key == key && s[i].state.cost <= cost;
    assert s[i] in multiset(SortByCost(s));
    var j :| 0 <= j < |Prune(s)| && Prune(s)[j] == s[i];
  }

  lemma RatioPower(r: nat, powerKw: real)
    requires r < |RATIOS|
    ensures Abs(Mul(RATIOS[r], powerKw)) <= LARGEST_RATIO * Abs(powerKw)
  {}

  /** The power a beam entry ends with never stands in the way of a step that is free of the ramp limit. */
  lemma RampAllows(c: Case, step: nat, e: Entry, powerKw: real)
    requires EntryOk(c, step, e) && RampFree(c, powerKw)
    ensures Abs(powerKw - e.state.prevPower) <= RampLimit(c)
  {
    hide Mul;
    if step > 0 {
      assert StepOk(c, e.state.path, step - 1);
      var r :| 0 <= r < |RATIOS| && e.state.prevPower == Mul(RATIOS[r], c.station.storagePowerKw);
      RatioPower(r, c.station.storagePowerKw);
    }
  }

  /** A beam entry at the right key can take the same step at the same cost. */
  lemma StepFollows(c: Case, path: seq<PlanStep>, k: nat, e: Entry) returns (q: nat)
    requires PathOk(c, path) && k < |path| && EntryOk(c, k, e) && e.key == FromKey(c, path, k)
    requires RampFree(c, path[k].powerKw)
    ensures q < |RATIOS| && Candidate(c, k, e, RATIOS[q]).Some?
    ensures var x := Candidate(c, k, e, RATIOS[q]).value;
            x.key == FromKey(c, path, k + 1) && x.state.cost == e.state.cost + path[k].cost
  {
    hide Mul, TransitionCost, Feasible, SocKey, NextSoc, EntryOk, RampLimit;
    assert StepOk(c, path, k);
    q :| 0 <= q < |RATIOS| && path[k].powerKw == Mul(RATIOS[q], c.station.storagePowerKw);
    RampAllows(c, k, e, path[k].powerKw);
  }

  lemma CoveredMore(s: seq<Entry>, key: int, low: real, high: real)
    requires Covered(s, key, low) && low <= high
    ensures Covered(s, key, high)
  {}

  // ---------------------------------------------------------------------------------------
  // Main results
  // ---------------------------------------------------------------------------------------

  /** At every step the beam holds an entry that is where the path is, at no higher cost. */
  lemma {:induction false} PrefixCovered(c: Case, path: seq<PlanStep>, k: nat)
    requires PathOk(c, path) && RampFreePath(c, path) && Unpruned(c) && k <= |path|
    ensures !Searched(c, k).emptied
    ensures Covered(Searched(c, k).beam, FromKey(c, path, k), PathCost(path, k))
  {
    assert |path| <= |c.forecast|;
    hide Candidate, Expand, Prune, EntryOk, PathOk, RampFree;
    if k == 0 {
      var beam := Searched(c, 0).beam;
      assert beam[0].key == SocKey(c.initialSoc) && beam[0].state.cost == 0.0;
    } else {
      PrefixCovered(c, path, k - 1);
      var beam := Searched(c, k - 1).beam;
      var m :| 0 <= m < |beam| && beam[m].key == FromKey(c, path, k - 1) &&
          beam[m].state.cost <= PathCost(path, k - 1);
      SearchOk(c, k - 1, beam[m]);
      var q := StepFollows(c, path, k - 1, beam[m]);
      ExpandCovers(c, k - 1, beam, |beam|, m, q);
      var next := Expand(c, k - 1, beam, |beam|);
      CoveredMore(next, FromKey(c, path, k), beam[m].state.cost + path[k - 1].cost, PathCost(path, k));
      assert Fits(c, k - 1);
      SmallIsKept(next, FromKey(c, path, k), PathCost(path, k));
    }
  }

  /** If no expansion outgrows the beam, the returned plan costs no more than any full plan on the rounded
      grid that meets every limit and whose steps are free of the ramp limit. */
  lemma PlanIsCheapest(c: Case, path: seq<PlanStep>)
    requires Unpruned(c) && PathOk(c, path) && |path| == |c.forecast| && RampFreePath(c, path)
    ensures !Searched(c, |c.forecast|).emptied
    ensures var final := Searched(c, |c.forecast|).beam;
            final[Cheapest(final, |final|)].state.cost <= PathCost(path, |path|)
  {
    hide PathOk, RampFree, Fits;
    PrefixCovered(c, path, |path|);
  }

  /** With a ramp limit of at least 1.44 times the storage power every plan is free of it, so the returned
      plan is the cheapest of all. */
  lemma PlanIsCheapestOfAll(c: Case, path: seq<PlanStep>)
    requires Unpruned(c) && PathOk(c, path) && |path| == |c.forecast|
    requires RampLimit(c) >= 2.0 * LARGEST_RATIO * Abs(c.station.storagePowerKw)
    ensures !Searched(c, |c.forecast|).emptied
    ensures var final := Searched(c, |c.forecast|).beam;
            var best := final[Cheapest(final, |final|)].state;
            && PathOk(c, best.path) && |best.path| == |c.forecast|
            && PathCost(best.path, |best.path|) <= PathCost(path, |path|)
  {
    hide Mul, Searched;
    forall k | 0 <= k < |path| ensures RampFree(c, path[k].powerKw) {
      assert StepOk(c, path, k);
      var r :| 0 <= r < |RATIOS| && path[k].powerKw == Mul(RATIOS[r], c.station.storagePowerKw);
      RatioPower(r, c.station.storagePowerKw);
    }
    PlanIsCheapest(c, path);
    PlanIsSound(c);
  }

  // ---------------------------------------------------------------------------------------
  // A narrow range of states of charge never fills the beam
  // ---------------------------------------------------------------------------------------

  lemma DropKey(s: seq<Entry>, i: nat)
    requires UniqueKeys(s) && i < |s|
    ensures var t := s[..i] + s[i + 1..];
            UniqueKeys(t) && forall j :: 0 <= j < |t| ==> t[j] in s && t[j].key != s[i].key
  {
    var t := s[..i] + s[i + 1..];
    forall j | 0 <= j < |t| ensures t[j] == s[if j < i then j else j + 1] {}
    forall j, k | 0 <= j < k < |t| ensures t[j].key != t[k].key {
      assert s[if j < i then j else j + 1].key != s[if k < i then k else k + 1].key;
    }
  }

  lemma {:induction false} FewKeys(s: seq<Entry>, low: int, high: int)
    requires UniqueKeys(s) && low <= high + 1 && forall e :: e in s ==> low <= e.key <= high
    ensures |s| <= high - low + 1
    decreases high + 1 - low
  {
    if s != [] {
      assert s[0] in s;
      if i :| 0 <= i < |s| && s[i].key == high {
        DropKey(s, i);
        FewKeys(s[..i] + s[i + 1..], low, high - 1);
      } else {
        FewKeys(s, low, high - 1);
      }
    }
  }

  /** The search never prunes when the allowed states of charge span at most thirty hundredths. */
  lemma NarrowRangeIsUnpruned(c: Case)
    requires c.limits.socMax - c.limits.socMin <= 0.3
    ensures Unpruned(c)
  {
    hide Candidate, Searched;
    forall step | 0 <= step < |c.forecast| ensures Fits(c, step) {
      var beam := Searched(c, step).beam;
      var next := Expand(c, step, beam, |beam|);
      ExpandKeeps(c, step, beam, |beam|);
      assert beam[..|beam|] == beam;
      var low := SocKey(c.limits.socMin);
      forall e | e in next ensures low <= e.key <= low + 31 {
        var m, r := Origin(c, step, beam, e);
        CandidateKey(c, step, beam[m], r);
      }
      FewKeys(next, low, low + 31);
    }
  }

  lemma CandidateKey(c: Case, step: nat, e: Entry, r: nat)
    requires c.limits.socMax - c.limits.socMin <= 0.3
    requires step < |c.forecast| && r < |RATIOS| && Candidate(c, step, e, RATIOS[r]).Some?
    ensures var low := SocKey(c.limits.socMin);
            low <= Candidate(c, step, e, RATIOS[r]).value.key <= low + 31
  {
    hide Mul, TransitionCost, RampLimit, GridLimit, RoundHalfEven;
    var soc := NextSoc(KeySoc(e.key), Mul(RATIOS[r], c.station.storagePowerKw), c.station.storageCapacityKwh);
    RoundHalfEvenMonotone(c.limits.socMin * 100.0, soc * 100.0);
  }

  // ---------------------------------------------------------------------------------------
  // A binding ramp limit breaks optimality
  // ---------------------------------------------------------------------------------------

  /** Ten kilowatts of load in two hours, the first dear, the second at a negative price; the ramp allows
      one kilowatt per hour, and the storage is so large that its state of charge does not move. */
  const SLOW: Case := Case(Station(4.0, 0.0, 100.0, 0.0), Constraints(0.25, 0.0, 0.0, 1.0, 1.0), CostFirst,
                           [Forecast(10.0, 1.0, 0), Forecast(10.0, -10.0, 0)], 0.5)

  /** Waiting in the first hour to charge in the second. */
  const PATIENT: seq<PlanStep> := [PlanStep(0.0, 10.0, 0.5, 10.0, false), PlanStep(1.0, 11.0, 0.5, -109.945, false)]

  lemma Limits()
    ensures RampLimit(SLOW) == 1.0 && GridLimit(SLOW) == 100.0 && KeySoc(SocKey(0.5)) == 0.5
  {}

  lemma SlowCost(price: real, gridKw: real, powerKw: real)
    ensures TransitionCost(SLOW, Forecast(10.0, price, 0), powerKw, gridKw) == Mul(gridKw, price) + Abs(powerKw) * 0.055
  {
    hide Mul;
    MulZero(Max(0.0, gridKw - 78.0));
  }

  /** A step of a path that stays at the initial state of charge. */
  lemma SlowStep(path: seq<PlanStep>, k: nat, r: nat)
    requires k < |path| <= 2 && r < |RATIOS| && FromKey(SLOW, path, k) == SocKey(0.5)
    requires var p, s := Mul(RATIOS[r], 4.0), path[k];
             && Abs(p - PowerBefore(path, k)) <= 1.0 && -3.0 <= p <= 3.0
             && s == PlanStep(p, 10.0 + p, 0.5, Mul(10.0 + p, SLOW.forecast[k].price) + Abs(p) * 0.055, false)
    ensures StepOk(SLOW, path, k)
  {
    Limits();
    var p := path[k].powerKw;
    SlowCost(SLOW.forecast[k].price, 10.0 + p, p);
    hide Mul, TransitionCost, RampLimit, GridLimit, SocKey, KeySoc, FromKey, PowerBefore;
  }

  lemma PatientWaits()
    ensures StepOk(SLOW, PATIENT, 0)
  {
    MulOne(10.0);
    MulZero(4.0);
    hide Mul, StepOk, SocKey;
    SlowStep(PATIENT, 0, 3);
  }

  lemma PatientCharges()
    ensures StepOk(SLOW, PATIENT, 1)
  {
    assert Mul(11.0, -10.0) == -110.0;
    assert Mul(0.25, 4.0) == 1.0;
    hide Mul, StepOk, SocKey;
    SlowStep(PATIENT, 1, 4);
  }

  lemma PatientIsOk()
    ensures PathOk(SLOW, PATIENT) && PathCost(PATIENT, 2) == -99.945
  {
    PatientWaits();
    PatientCharges();
    hide StepOk;
    assert PathCost(PATIENT, 1) == 10.0;
  }

  /** What a candidate of either hour looks like. */
  lemma SlowCandidate(step: nat, e: Entry, r: nat)
    requires step < 2 && r < |RATIOS| && e.key == SocKey(0.5) && -1.0 <= e.state.prevPower <= 0.0
    requires Candidate(SLOW, step, e, RATIOS[r]).Some?
    ensures var x := Candidate(SLOW, step, e, RATIOS[r]).value;
            var p := Mul(RATIOS[r], 4.0);
            && x.key == SocKey(0.5) && x.state.prevPower == p && Abs(p - e.state.prevPower) <= 1.0
            && x.state.cost == e.state.cost + Mul(10.0 + p, SLOW.forecast[step].price) + Abs(p) * 0.055
  {
    Limits();
    var p := Mul(RATIOS[r], 4.0);
    assert -2.88 <= p <= 2.88;
    SlowCost(SLOW.forecast[step].price, 10.0 + p, p);
    hide Mul, TransitionCost, RampLimit, GridLimit, SocKey, KeySoc;
  }

  const FIRST: Entry := Entry(SocKey(0.5), State(0.0, [], 0.0))

  /** Discharging at once is the cheapest first hour, and only the cheapest is kept. */
  lemma SlowFirst(e: Entry)
    requires e in Searched(SLOW, 1).beam
    ensures e.key == SocKey(0.5) && e.state.prevPower == -1.0 && e.state.cost == 9.055
  {
    FirstDischarges();
    hide Candidate, Mul, SocKey, Expand;
    assert Searched(SLOW, 0).beam == [FIRST];
    var next := Expand(SLOW, 0, [FIRST], 1);
    assert |next| > 0 ==> Searched(SLOW, 1).beam == Prune(next);
    FirstCandidates(next);
    PrunedWasThere(next, e);
    var i :| 0 <= i < |next| && next[i] == e;
  }

  lemma FirstDischarges()
    ensures var x := Candidate(SLOW, 0, FIRST, RATIOS[2]);
            x.Some? && x.value.key == SocKey(0.5) && x.value.state.cost == 9.055
  {
    SlowStepIsOffered(0, FIRST, 2);
    MulOne(9.0);
    assert RATIOS[2] == -0.25 && Mul(-0.25, 4.0) == -1.0;
    hide Candidate, Mul, SocKey;
    SlowCandidate(0, FIRST, 2);
  }

  lemma SlowStepIsOffered(step: nat, e: Entry, r: nat)
    requires step < 2 && r < |RATIOS| && e.key == SocKey(0.5)
    requires Abs(Mul(RATIOS[r], 4.0) - e.state.prevPower) <= 1.0
    ensures Candidate(SLOW, step, e, RATIOS[r]).Some?
  {
    Limits();
    assert -2.88 <= Mul(RATIOS[r], 4.0) <= 2.88;
    hide Mul, TransitionCost, RampLimit, GridLimit, SocKey, KeySoc;
  }

  lemma FirstCandidates(next: seq<Entry>)
    requires next == Expand(SLOW, 0, [FIRST], 1)
    ensures next != []
    ensures forall i :: 0 <= i < |next| ==>
              next[i].key == SocKey(0.5) && next[i].state.prevPower == -1.0 && next[i].state.cost == 9.055
  {
    FirstDischarges();
    hide Candidate, Mul, SocKey, Expand;
    ExpandCovers(SLOW, 0, [FIRST], 1, 0, 2);
    forall i | 0 <= i < |next|
      ensures next[i].key == SocKey(0.5) && next[i].state.prevPower == -1.0 && next[i].state.cost == 9.055
    {
      ExpansionKeepsCheapest(SLOW, 0, [FIRST], i, 0, 2);
      var m, r := Origin(SLOW, 0, [FIRST], next[i]);
      SlowCandidate(0, FIRST, r);
      FirstPower(r);
    }
  }

  lemma FirstPower(r: nat)
    requires r < |RATIOS|
    ensures var p := Mul(RATIOS[r], 4.0);
            var cost := Mul(10.0 + p, 1.0) + Abs(p) * 0.055;
            (p == -1.0 && cost == 9.055) || p < -1.0 || cost > 9.055
  {}

  /** After an hour of discharging, the ramp keeps the second hour from charging. */
  lemma SlowSecond(e: Entry)
    requires e in Searched(SLOW, 2).beam
    ensures e.state.cost >= -90.945
  {
    hide Candidate, Mul, SocKey, Expand;
    var beam := Searched(SLOW, 1).beam;
    var next := Expand(SLOW, 1, beam, |beam|);
    forall x | x in beam ensures x.key == SocKey(0.5) && x.state.prevPower == -1.0 && x.state.cost == 9.055 {
      SlowFirst(x);
    }
    if next != [] {
      PrunedWasThere(next, e);
      ExpandKeeps(SLOW, 1, beam, |beam|);
      assert beam[..|beam|] == beam;
      var m, r := Origin(SLOW, 1, beam, e);
      SlowCandidate(1, beam[m], r);
      SecondPower(r);
    }
  }

  lemma SecondPower(r: nat)
    requires r < |RATIOS|
    ensures var p := Mul(RATIOS[r], 4.0); p <= 0.0 ==> Mul(10.0 + p, -10.0) + Abs(p) * 0.055 >= -100.0
  {}

  /** With a ramp limit of a quarter of the storage power, the search returns a plan nine units dearer than
      one that meets every limit: it kept only the cheaper first hour. */
  lemma RampBreaksOptimality()
    ensures PathOk(SLOW, PATIENT) && |PATIENT| == |SLOW.forecast| == 2
    ensures var final := Searched(SLOW, 2).beam;
            PathCost(PATIENT, 2) + 9.0 <= final[Cheapest(final, |final|)].state.cost
  {
    PatientIsOk();
    hide Mul, Searched;
    var final := Searched(SLOW, 2).beam;
    SlowSecond(final[Cheapest(final, |final|)]);
  }
}
