/** The rolling dynamic program that plans station dispatch when no exact solver is available
    (_solve_station_mpc in optimizer.py): a beam of states keyed by rounded state of charge. */
module DispatchMpc {
  import opened RealMath
  import opened Rounding
  import opened Wrappers

  const BEAM: nat := 32

  const CHARGE_EFFICIENCY: real := 0.9

  const RATIOS: seq<real> := [-0.72, -0.5, -0.25, 0.0, 0.25, 0.5, 0.72]

  datatype Objective = CostFirst | RevenueFirst | Balanced

  datatype Station = Station(storagePowerKw: real, storageCapacityKwh: real, transformerCapacityKw: real,
                             demandCharge: real)

  datatype Constraints = Constraints(maxRampRatio: real, reserveSoc: real, socMin: real, socMax: real,
                                     transformerMaxRatio: real)

  datatype Forecast = Forecast(gridKw: real, price: real, queueLength: int)

  datatype Case = Case(station: Station, limits: Constraints, objective: Objective, forecast: seq<Forecast>,
                       initialSoc: real)

  /** One planned step; `hold` marks the emergency step taken when no candidate is feasible. */
  datatype PlanStep = PlanStep(powerKw: real, gridKw: real, soc: real, cost: real, hold: bool)

  datatype State = State(cost: real, path: seq<PlanStep>, prevPower: real)

  /** A dictionary from rounded state of charge to state, in insertion order. */
  datatype Entry = Entry(key: int, state: State)

  // ---------------------------------------------------------------------------------------
  // Helpers of the source
  // ---------------------------------------------------------------------------------------

  function SocKey(soc: real): int { RoundHalfEven(soc * 100.0) }

  function KeySoc(key: int): real { key as real / 100.0 }

  function NextSoc(soc: real, powerKw: real, capacityKwh: real): real {
    if capacityKwh <= 0.0 then soc
    else if powerKw >= 0.0 then soc + powerKw / capacityKwh * CHARGE_EFFICIENCY
    else soc + powerKw / capacityKwh / CHARGE_EFFICIENCY
  }

  function GridLimit(c: Case): real { Mul(c.station.transformerCapacityKw, c.limits.transformerMaxRatio) }

  predicate Feasible(c: Case, step: nat, soc: real, gridKw: real) {
    var horizon := |c.forecast|;
    var terminalReserve := if step >= (if horizon > 4 then horizon - 4 else 0) then c.limits.reserveSoc
        else c.limits.socMin;
    && c.limits.socMin <= soc <= c.limits.socMax
    && soc >= terminalReserve
    && gridKw <= GridLimit(c)
  }

  function TransitionCost(c: Case, row: Forecast, powerKw: real, gridKw: real): real {
    var energy := Mul(gridKw, row.price);
    var demandRisk := Mul(Max(0.0, gridKw - c.station.transformerCapacityKw * 0.78), c.station.demandCharge) / 30.0;
    var degradation := Abs(powerKw) * 0.055;
    var reserve := if row.queueLength >= 5 then Max(0.0, -powerKw) * 0.015 else 0.0;
    var service := if powerKw < 0.0 then Max(0.0, (row.queueLength - 2) as real) * 18.0
                   else Max(0.0, (row.queueLength - 5) as real) * 8.0;
    match c.objective
    case CostFirst => energy + demandRisk + degradation + reserve
    case RevenueFirst => service + degradation + demandRisk * 0.35
    case Balanced => energy + demandRisk + degradation + reserve + service * 0.45
  }

  function RampLimit(c: Case): real { Mul(c.station.storagePowerKw, c.limits.maxRampRatio) }

  // ---------------------------------------------------------------------------------------
  // One expansion of the beam
  // ---------------------------------------------------------------------------------------

  /** The state reached from one beam entry by one action, if the action is allowed. */
  function Candidate(c: Case, step: nat, e: Entry, ratio: real): Option<Entry>
    requires step < |c.forecast|
  {
    var row := c.forecast[step];
    var power := Mul(ratio, c.station.storagePowerKw);
    var soc := NextSoc(KeySoc(e.key), power, c.station.storageCapacityKwh);
    var grid := Max(0.0, row.gridKw + power);
    if Abs(power - e.state.prevPower) > RampLimit(c) || !Feasible(c, step, soc, grid) then None
    else
      var cost := TransitionCost(c, row, power, grid);
      Some(Entry(SocKey(soc), State(e.state.cost + cost, e.state.path + [PlanStep(power, grid, soc, cost, false)],
                                    power)))
  }

  /** Index of a key among the first k entries, k if absent. */
  function IndexOf(entries: seq<Entry>, key: int, k: nat): (i: nat)
    requires k <= |entries|
    ensures i <= k
    ensures i < k ==> entries[i].key == key
    ensures i == k ==> forall j :: 0 <= j < k ==> entries[j].key != key
  {
    if k == 0 then 0
    else
      var i := IndexOf(entries, key, k - 1);
      if i < k - 1 then i else if entries[k - 1].key == key then k - 1 else k
  }

  /** Keep the candidate if its key is new or it is cheaper than the one kept so far. */
  function Offer(entries: seq<Entry>, candidate: Option<Entry>): seq<Entry> {
    if candidate.None? then entries
    else
      var e := candidate.value;
      var i := IndexOf(entries, e.key, |entries|);
      if i == |entries| then entries + [e]
      else if e.state.cost < entries[i].state.cost then entries[i := e]
      else entries
  }

  function ExpandEntry(c: Case, step: nat, next: seq<Entry>, e: Entry, r: nat): seq<Entry>
    requires step < |c.forecast| && r <= |RATIOS|
  {
    if r == 0 then next else Offer(ExpandEntry(c, step, next, e, r - 1), Candidate(c, step, e, RATIOS[r - 1]))
  }

  function Expand(c: Case, step: nat, beam: seq<Entry>, k: nat): seq<Entry>
    requires step < |c.forecast| && k <= |beam|
  {
    if k == 0 then [] else ExpandEntry(c, step, Expand(c, step, beam, k - 1), beam[k - 1], |RATIOS|)
  }

  // ---------------------------------------------------------------------------------------
  // Pruning
  // ---------------------------------------------------------------------------------------

  function InsertByCost(s: seq<Entry>, e: Entry): (r: seq<Entry>)
    ensures multiset(r) == multiset(s) + multiset{e} && |r| == |s| + 1
  {
    if s == [] || e.state.cost < s[0].state.cost then [e] + s
    else
      assert s == [s[0]] + s[1..];
      [s[0]] + InsertByCost(s[1..], e)
  }

  /** Stable sort by cost. */
  function SortByCost(s: seq<Entry>): (r: seq<Entry>)
    ensures multiset(r) == multiset(s) && |r| == |s|
  {
    if s == [] then []
    else
      assert s == s[..|s| - 1] + [s[|s| - 1]];
      InsertByCost(SortByCost(s[..|s| - 1]), s[|s| - 1])
  }

  function Prune(s: seq<Entry>): seq<Entry> {
    var ranked := SortByCost(s);
    if |ranked| <= BEAM then ranked else ranked[..BEAM]
  }

  /** The emergency beam: the last state holds at the initial state of charge. */
  function HoldBeam(c: Case, step: nat, beam: seq<Entry>): seq<Entry>
    requires step < |c.forecast| && beam != []
  {
    var last := beam[|beam| - 1].state;
    [Entry(SocKey(c.initialSoc),
           State(last.cost, last.path + [PlanStep(0.0, c.forecast[step].gridKw, c.initialSoc, 9999.0, true)], 0.0))]
  }

  /** The beam after the first `step` rows, and whether it ever ran out of candidates. */
  datatype Search = Search(beam: seq<Entry>, emptied: bool)

  function Searched(c: Case, step: nat): (s: Search)
    requires step <= |c.forecast|
    ensures s.beam != []
  {
    if step == 0 then Search([Entry(SocKey(c.initialSoc), State(0.0, [], 0.0))], false)
    else
      var before := Searched(c, step - 1);
      var next := Expand(c, step - 1, before.beam, |before.beam|);
      if next == [] then Search(HoldBeam(c, step - 1, before.beam), true) else Search(Prune(next), before.emptied)
  }

  /** First cheapest of the first k entries. */
  function Cheapest(s: seq<Entry>, k: nat): (i: nat)
    requires 0 < k <= |s|
    ensures i < k && forall j :: 0 <= j < k ==> s[i].state.cost <= s[j].state.cost
    ensures forall j :: 0 <= j < i ==> s[i].state.cost < s[j].state.cost
  {
    if k == 1 then 0
    else
      var i := Cheapest(s, k - 1);
      if s[k - 1].state.cost < s[i].state.cost then k - 1 else i
  }

  // ---------------------------------------------------------------------------------------
  // The loops of the source
  // ---------------------------------------------------------------------------------------

  method ExpandBeam(c: Case, step: nat, beam: seq<Entry>) returns (next: seq<Entry>)
    requires step < |c.forecast|
    ensures next == Expand(c, step, beam, |beam|)
  {
    hide Mul, Candidate, Offer;
    next := [];
    for k := 0 to |beam|
      invariant next == Expand(c, step, beam, k)
    {
      ghost var before := next;
      for r := 0 to |RATIOS|
        invariant next == ExpandEntry(c, step, before, beam[k], r)
      {
        next := OfferCandidate(c, step, next, beam[k], RATIOS[r]);
      }
    }
  }

  method OfferCandidate(c: Case, step: nat, entries: seq<Entry>, e: Entry, ratio: real) returns (next: seq<Entry>)
    requires step < |c.forecast|
    ensures next == Offer(entries, Candidate(c, step, e, ratio))
  {
    hide Mul, TransitionCost, SocKey;
    next := entries;
    var row := c.forecast[step];
    var power := Mul(ratio, c.station.storagePowerKw);
    if Abs(power - e.state.prevPower) > RampLimit(c) {
      return;
    }
    var soc := NextSoc(KeySoc(e.key), power, c.station.storageCapacityKwh);
    var grid := Max(0.0, row.gridKw + power);
    if !Feasible(c, step, soc, grid) {
      return;
    }
    var cost := TransitionCost(c, row, power, grid);
    var key := SocKey(soc);
    var reached := State(e.state.cost + cost, e.state.path + [PlanStep(power, grid, soc, cost, false)], power);
    var i := IndexOf(next, key, |next|);
    if i == |next| {
      next := next + [Entry(key, reached)];
    } else if reached.cost < next[i].state.cost {
      next := next[i := Entry(key, reached)];
    }
  }

  method SolveStation(c: Case) returns (path: seq<PlanStep>, score: real)
    ensures var final := Searched(c, |c.forecast|).beam;
            var best := final[Cheapest(final, |final|)].state;
            path == best.path && score == -best.cost
    ensures !Searched(c, |c.forecast|).emptied ==>
              |path| == |c.forecast| && PathOk(c, path) && score == -PathCost(path, |path|)
  {
    hide Expand, Prune, PathOk;
    var beam := [Entry(SocKey(c.initialSoc), State(0.0, [], 0.0))];
    for step := 0 to |c.forecast|
      invariant beam == Searched(c, step).beam
    {
      var next := ExpandBeam(c, step, beam);
      if next == [] {
        beam := HoldBeam(c, step, beam);
      } else {
        beam := Prune(next);
      }
    }
    var best := beam[Cheapest(beam, |beam|)].state;
    if !Searched(c, |c.forecast|).emptied { PlanIsSound(c); }
    return best.path, -best.cost;
  }

  // ---------------------------------------------------------------------------------------
  // Each key keeps its cheapest candidate
  // ---------------------------------------------------------------------------------------

  /** Keys are unique, as in a dictionary. */
  ghost predicate UniqueKeys(s: seq<Entry>) {
    forall i, j :: 0 <= i < j < |s| ==> s[i].key != s[j].key
  }

  /** Some entry has this key and costs no more. */
  ghost predicate Covered(s: seq<Entry>, key: int, cost: real) {
    exists i :: 0 <= i < |s| && s[i].key == key && s[i].state.cost <= cost
  }

  lemma OfferKeeps(s: seq<Entry>, candidate: Option<Entry>, key: int, cost: real)
    requires UniqueKeys(s)
    ensures var t := Offer(s, candidate);
            && UniqueKeys(t)
            && (Covered(s, key, cost) ==> Covered(t, key, cost))
            && (candidate.Some? ==> Covered(t, candidate.value.key, candidate.value.state.cost))
            && (forall x :: x in t ==> x in s || candidate == Some(x))
  {
    var t := Offer(s, candidate);
    if candidate.Some? {
      var e := candidate.value;
      var i := IndexOf(s, e.key, |s|);
      if i == |s| {
        assert t[|s|] == e;
        if k :| 0 <= k < |s| && s[k].key == key && s[k].state.cost <= cost { assert t[k] == s[k]; }
      } else {
        assert t[i].key == e.key && t[i].state.cost <= e.state.cost;
        if k :| 0 <= k < |s| && s[k].key == key && s[k].state.cost <= cost {
          assert t[k].key == key && t[k].state.cost <= cost;
        }
      }
    }
  }

  /** Where an entry of the next beam comes from. */
  ghost predicate ComesFrom(c: Case, step: nat, beam: seq<Entry>, x: Entry)
    requires step < |c.forecast|
  {
    exists k, r :: 0 <= k < |beam| && 0 <= r < |RATIOS| && Candidate(c, step, beam[k], RATIOS[r]) == Some(x)
  }

  /** One of the first r actions leads from this entry to x. */
  ghost predicate LeadsTo(c: Case, step: nat, e: Entry, r: nat, x: Entry)
    requires step < |c.forecast| && r <= |RATIOS|
  {
    exists q :: 0 <= q < r && Candidate(c, step, e, RATIOS[q]) == Some(x)
  }

  lemma {:induction false} ExpandEntryKeeps(c: Case, step: nat, next: seq<Entry>, e: Entry, r: nat, key: int,
                                            cost: real)
    requires step < |c.forecast| && r <= |RATIOS| && UniqueKeys(next)
    ensures var t := ExpandEntry(c, step, next, e, r);
            && UniqueKeys(t) && (Covered(next, key, cost) ==> Covered(t, key, cost))
            && (forall x :: x in t ==> x in next || LeadsTo(c, step, e, r, x))
  {
    hide Candidate, Offer, Covered, UniqueKeys;
    if r > 0 {
      ExpandEntryKeeps(c, step, next, e, r - 1, key, cost);
      OfferKeeps(ExpandEntry(c, step, next, e, r - 1), Candidate(c, step, e, RATIOS[r - 1]), key, cost);
      forall x | LeadsTo(c, step, e, r - 1, x) ensures LeadsTo(c, step, e, r, x) {
        var q :| 0 <= q < r - 1 && Candidate(c, step, e, RATIOS[q]) == Some(x);
      }
    }
  }

  lemma {:induction false} ExpandEntryCovers(c: Case, step: nat, next: seq<Entry>, e: Entry, r: nat, q: nat)
    requires step < |c.forecast| && q < r <= |RATIOS| && UniqueKeys(next)
    requires Candidate(c, step, e, RATIOS[q]).Some?
    ensures var x := Candidate(c, step, e, RATIOS[q]).value;
            Covered(ExpandEntry(c, step, next, e, r), x.key, x.state.cost)
  {
    hide Candidate, Offer, Covered, UniqueKeys;
    var x := Candidate(c, step, e, RATIOS[q]).value;
    ExpandEntryKeeps(c, step, next, e, r - 1, x.key, x.state.cost);
    OfferKeeps(ExpandEntry(c, step, next, e, r - 1), Candidate(c, step, e, RATIOS[r - 1]), x.key, x.state.cost);
    if q < r - 1 { ExpandEntryCovers(c, step, next, e, r - 1, q); }
  }

  lemma {:induction false} ExpandKeeps(c: Case, step: nat, beam: seq<Entry>, k: nat)
    requires step < |c.forecast| && k <= |beam|
    ensures var t := Expand(c, step, beam, k);
            UniqueKeys(t) && forall x :: x in t ==> ComesFrom(c, step, beam[..k], x)
  {
    hide Candidate, UniqueKeys, ComesFrom, LeadsTo, ExpandEntry;
    if k == 0 {
      NoEntries();
    } else {
      ExpandKeeps(c, step, beam, k - 1);
      ExpandEntryKeeps(c, step, Expand(c, step, beam, k - 1), beam[k - 1], |RATIOS|, 0, 0.0);
      forall x | x in Expand(c, step, beam, k) ensures ComesFrom(c, step, beam[..k], x) {
        if ComesFrom(c, step, beam[..k - 1], x) {
          ComesFromMore(c, step, beam, k, x);
        } else {
          LeadsToComesFrom(c, step, beam, k, x);
        }
      }
    }
  }

  lemma ComesFromMore(c: Case, step: nat, beam: seq<Entry>, k: nat, x: Entry)
    requires step < |c.forecast| && 0 < k <= |beam| && ComesFrom(c, step, beam[..k - 1], x)
    ensures ComesFrom(c, step, beam[..k], x)
  {
    hide Candidate;
    var m, r := Origin(c, step, beam[..k - 1], x);
    assert beam[..k][m] == beam[..k - 1][m];
  }

  lemma LeadsToComesFrom(c: Case, step: nat, beam: seq<Entry>, k: nat, x: Entry)
    requires step < |c.forecast| && 0 < k <= |beam| && LeadsTo(c, step, beam[k - 1], |RATIOS|, x)
    ensures ComesFrom(c, step, beam[..k], x)
  {
    hide Candidate;
    var q :| 0 <= q < |RATIOS| && Candidate(c, step, beam[k - 1], RATIOS[q]) == Some(x);
    assert beam[..k][k - 1] == beam[k - 1];
  }

  lemma NoEntries()
    ensures UniqueKeys([])
  {}

  lemma {:induction false} ExpandCovers(c: Case, step: nat, beam: seq<Entry>, k: nat, m: nat, q: nat)
    requires step < |c.forecast| && m < k <= |beam| && q < |RATIOS|
    requires Candidate(c, step, beam[m], RATIOS[q]).Some?
    ensures var x := Candidate(c, step, beam[m], RATIOS[q]).value;
            Covered(Expand(c, step, beam, k), x.key, x.state.cost)
  {
    hide Candidate, Covered, UniqueKeys;
    hide ComesFrom, LeadsTo, ExpandEntry;
    var x := Candidate(c, step, beam[m], RATIOS[q]).value;
    ExpandKeeps(c, step, beam, k - 1);
    if m < k - 1 {
      ExpandCovers(c, step, beam, k - 1, m, q);
      ExpandEntryKeeps(c, step, Expand(c, step, beam, k - 1), beam[k - 1], |RATIOS|, x.key, x.state.cost);
    } else {
      ExpandEntryCovers(c, step, Expand(c, step, beam, k - 1), beam[k - 1], |RATIOS|, q);
    }
  }

  /** Main result on expansion: before pruning, the next beam holds one entry per key, each entry is a
      candidate of the beam, and no candidate with that key is cheaper. */
  lemma ExpansionKeepsCheapest(c: Case, step: nat, beam: seq<Entry>, i: nat, m: nat, q: nat)
    requires step < |c.forecast| && i < |Expand(c, step, beam, |beam|)| && m < |beam| && q < |RATIOS|
    ensures var t := Expand(c, step, beam, |beam|);
            && ComesFrom(c, step, beam, t[i])
            && var x := Candidate(c, step, beam[m], RATIOS[q]);
            (x.Some? && x.value.key == t[i].key ==> t[i].state.cost <= x.value.state.cost)
  {
    hide Candidate;
    ExpandKeeps(c, step, beam, |beam|);
    assert beam[..|beam|] == beam;
    var x := Candidate(c, step, beam[m], RATIOS[q]);
    if x.Some? { ExpandCovers(c, step, beam, |beam|, m, q); }
  }

  // ---------------------------------------------------------------------------------------
  // Pruning keeps the cheapest
  // ---------------------------------------------------------------------------------------

  ghost predicate ByCost(s: seq<Entry>) {
    forall i, j :: 0 <= i < j < |s| ==> s[i].state.cost <= s[j].state.cost
  }

  lemma {:induction false} InsertByCostOrdered(s: seq<Entry>, e: Entry)
    requires ByCost(s)
    ensures ByCost(InsertByCost(s, e))
  {
    if s != [] && !(e.state.cost < s[0].state.cost) {
      InsertByCostOrdered(s[1..], e);
      var t := InsertByCost(s[1..], e);
      forall j | 0 <= j < |t| ensures s[0].state.cost <= t[j].state.cost {
        assert t[j] in multiset(t);
        if t[j] != e {
          assert t[j] in s[1..];
          var k :| 0 <= k < |s[1..]| && s[1..][k] == t[j];
          assert s[0].state.cost <= s[k + 1].state.cost;
        }
      }
    }
  }

  lemma {:induction false} SortByCostOrdered(s: seq<Entry>)
    ensures ByCost(SortByCost(s))
  {
    if s != [] {
      SortByCostOrdered(s[..|s| - 1]);
      InsertByCostOrdered(SortByCost(s[..|s| - 1]), s[|s| - 1]);
    }
  }

  /** Pruning keeps at most 32 entries, only entries it was given, and nothing it drops is cheaper than
      anything it keeps. */
  lemma PruneKeepsCheapest(s: seq<Entry>, kept: Entry, dropped: Entry)
    requires kept in Prune(s) && dropped in s && dropped !in Prune(s)
    ensures |Prune(s)| == 32 && kept in s && kept.state.cost <= dropped.state.cost
  {
    SortByCostOrdered(s);
    var ranked := SortByCost(s);
    assert dropped in multiset(ranked);
    assert kept in ranked && kept in multiset(ranked) && kept in multiset(s);
    var i :| 0 <= i < |Prune(s)| && Prune(s)[i] == kept;
    var j :| 0 <= j < |ranked| && ranked[j] == dropped;
    assert forall q :: 0 <= q < |Prune(s)| ==> Prune(s)[q] == ranked[q] && Prune(s)[q] in Prune(s);
  }

  /** The entries of one cost, in order. */
  function OfCost(s: seq<Entry>, cost: real): seq<Entry> {
    if s == [] then []
    else OfCost(s[..|s| - 1], cost) + (if s[|s| - 1].state.cost == cost then [s[|s| - 1]] else [])
  }

  lemma {:induction false} OfCostCons(e: Entry, s: seq<Entry>, cost: real)
    ensures OfCost([e] + s, cost) == (if e.state.cost == cost then [e] else []) + OfCost(s, cost)
  {
    if s == [] {
      assert [e] + s == [e];
      assert [e][..0] == [];
    } else {
      var init, last := s[..|s| - 1], s[|s| - 1];
      OfCostCons(e, init, cost);
      assert ([e] + s)[..|s|] == [e] + init;
    }
  }

  lemma OfNothing(cost: real)
    ensures OfCost([], cost) == []
  {}

  lemma {:induction false} InsertIsStable(s: seq<Entry>, e: Entry, cost: real)
    requires ByCost(s)
    ensures OfCost(InsertByCost(s, e), cost) == OfCost(s, cost) + (if e.state.cost == cost then [e] else [])
  {
    hide OfCost;
    if s == [] {
      OfCostCons(e, [], cost);
      OfNothing(cost);
      assert [e] + [] == [e];
    } else if e.state.cost < s[0].state.cost {
      OfCostCons(e, s, cost);
      NoneOfCost(s, cost);
    } else {
      InsertIsStable(s[1..], e, cost);
      assert s == [s[0]] + s[1..];
      OfCostCons(s[0], s[1..], cost);
      OfCostCons(s[0], InsertByCost(s[1..], e), cost);
    }
  }

  lemma {:induction false} NoneOfCost(s: seq<Entry>, cost: real)
    requires ByCost(s)
    ensures s != [] && cost < s[0].state.cost ==> OfCost(s, cost) == []
  {
    if |s| > 1 { NoneOfCost(s[..|s| - 1], cost); }
  }

  /** The ranking is stable: equally dear entries stay in the order they came in, so it is the later ones
      that pruning drops. */
  lemma {:induction false} SortIsStable(s: seq<Entry>, cost: real)
    ensures OfCost(SortByCost(s), cost) == OfCost(s, cost)
  {
    if s != [] {
      SortIsStable(s[..|s| - 1], cost);
      SortByCostOrdered(s[..|s| - 1]);
      InsertIsStable(SortByCost(s[..|s| - 1]), s[|s| - 1], cost);
    }
  }

  lemma PrunedWasThere(s: seq<Entry>, e: Entry)
    requires e in Prune(s)
    ensures e in s
  {
    assert e in multiset(SortByCost(s));
  }

  // ---------------------------------------------------------------------------------------
  // Soundness of the returned plan
  // ---------------------------------------------------------------------------------------

  function PathCost(path: seq<PlanStep>, k: nat): real
    requires k <= |path|
  {
    if k == 0 then 0.0 else PathCost(path, k - 1) + path[k - 1].cost
  }

  /** State-of-charge key the k-th step was planned from. */
  function FromKey(c: Case, path: seq<PlanStep>, k: nat): int
    requires k <= |path|
  {
    if k == 0 then SocKey(c.initialSoc) else SocKey(path[k - 1].soc)
  }

  function PowerBefore(path: seq<PlanStep>, k: nat): real
    requires k <= |path|
  {
    if k == 0 then 0.0 else path[k - 1].powerKw
  }

  /** Everything a planned step promises. */
  ghost predicate StepOk(c: Case, path: seq<PlanStep>, k: nat)
    requires k < |path| <= |c.forecast|
  {
    var s, row := path[k], c.forecast[k];
    && !s.hold
    && (exists r :: 0 <= r < |RATIOS| && s.powerKw == Mul(RATIOS[r], c.station.storagePowerKw))
    && Abs(s.powerKw - PowerBefore(path, k)) <= RampLimit(c)
    && s.gridKw == Max(0.0, row.gridKw + s.powerKw)
    && s.soc == NextSoc(KeySoc(FromKey(c, path, k)), s.powerKw, c.station.storageCapacityKwh)
    && Feasible(c, k, s.soc, s.gridKw)
    && s.cost == TransitionCost(c, row, s.powerKw, s.gridKw)
  }

  ghost predicate PathOk(c: Case, path: seq<PlanStep>) {
    |path| <= |c.forecast| && forall k :: 0 <= k < |path| ==> StepOk(c, path, k)
  }

  ghost predicate EntryOk(c: Case, step: nat, e: Entry) {
    && |e.state.path| == step && PathOk(c, e.state.path)
    && e.state.cost == PathCost(e.state.path, step)
    && e.key == FromKey(c, e.state.path, step)
    && e.state.prevPower == PowerBefore(e.state.path, step)
  }

  lemma {:induction false} PathCostPrefix(a: seq<PlanStep>, b: seq<PlanStep>, k: nat)
    requires k <= |a| && a <= b
    ensures PathCost(a, k) == PathCost(b, k)
  {
    if k > 0 { PathCostPrefix(a, b, k - 1); }
  }

  lemma CandidateOk(c: Case, step: nat, e: Entry, r: nat)
    requires step < |c.forecast| && EntryOk(c, step, e) && r < |RATIOS|
    requires Candidate(c, step, e, RATIOS[r]).Some?
    ensures EntryOk(c, step + 1, Candidate(c, step, e, RATIOS[r]).value)
  {
    hide Mul, TransitionCost, SocKey, NextSoc, Feasible, RampLimit;
    var x := Candidate(c, step, e, RATIOS[r]).value;
    var before, path := e.state.path, x.state.path;
    PathCostPrefix(before, path, step);
    forall k | 0 <= k < |path| ensures StepOk(c, path, k) {
      if k < step { assert StepOk(c, before, k); }
    }
  }

  lemma {:induction false} SearchOk(c: Case, step: nat, e: Entry)
    requires step <= |c.forecast| && !Searched(c, step).emptied && e in Searched(c, step).beam
    ensures EntryOk(c, step, e)
  {
    hide Candidate, EntryOk, Prune, Expand, ComesFrom;
    if step == 0 {
      FirstEntryOk(c);
    } else {
      var before := Searched(c, step - 1);
      var next := Expand(c, step - 1, before.beam, |before.beam|);
      PrunedWasThere(next, e);
      ExpandKeeps(c, step - 1, before.beam, |before.beam|);
      assert before.beam[..|before.beam|] == before.beam;
      var m, r := Origin(c, step - 1, before.beam, e);
      SearchOk(c, step - 1, before.beam[m]);
      CandidateOk(c, step - 1, before.beam[m], r);
    }
  }

  lemma FirstEntryOk(c: Case)
    ensures EntryOk(c, 0, Entry(SocKey(c.initialSoc), State(0.0, [], 0.0)))
  {}

  lemma Origin(c: Case, step: nat, beam: seq<Entry>, x: Entry) returns (m: nat, r: nat)
    requires step < |c.forecast| && ComesFrom(c, step, beam, x)
    ensures m < |beam| && r < |RATIOS| && Candidate(c, step, beam[m], RATIOS[r]) == Some(x)
  {
    m, r :| 0 <= m < |beam| && 0 <= r < |RATIOS| && Candidate(c, step, beam[m], RATIOS[r]) == Some(x);
  }

  /** Main result: while the beam never empties, the returned plan covers the horizon, every step meets
      the ramp, grid and reserve limits and chains on from the rounded state before it, and the score is
      minus the sum of the step costs. No plan left in the beam is cheaper. */
  lemma PlanIsSound(c: Case)
    requires !Searched(c, |c.forecast|).emptied
    ensures var final := Searched(c, |c.forecast|).beam;
            var best := final[Cheapest(final, |final|)].state;
            && |best.path| == |c.forecast| && PathOk(c, best.path)
            && best.cost == PathCost(best.path, |best.path|)
            && forall e :: e in final ==> best.cost <= e.state.cost
  {
    var final := Searched(c, |c.forecast|).beam;
    SearchOk(c, |c.forecast|, final[Cheapest(final, |final|)]);
  }

  /** When no action of any state is allowed, the plan holds still for an hour at the state of charge it
      started from, whatever the limits say, and the search goes on from there. */
  lemma StuckHoldsStill(c: Case, step: nat)
    requires step < |c.forecast|
    requires forall m, r :: 0 <= m < |Searched(c, step).beam| && 0 <= r < |RATIOS| ==>
               Candidate(c, step, Searched(c, step).beam[m], RATIOS[r]).None?
    ensures var before, after := Searched(c, step).beam, Searched(c, step + 1);
            var was := before[|before| - 1].state;
            && after.emptied && |after.beam| == 1 && after.beam[0].key == SocKey(c.initialSoc)
            && var now := after.beam[0].state;
            && now.path == was.path + [PlanStep(0.0, c.forecast[step].gridKw, c.initialSoc, 9999.0, true)]
            && now.cost == was.cost && now.prevPower == 0.0
  {
    hide Candidate;
    var beam := Searched(c, step).beam;
    var next := Expand(c, step, beam, |beam|);
    ExpandKeeps(c, step, beam, |beam|);
    assert beam[..|beam|] == beam;
    if next != [] {
      var m, r := Origin(c, step, beam, next[0]);
    }
  }

  // ---------------------------------------------------------------------------------------
  // Rounding drift
  // ---------------------------------------------------------------------------------------

  /** State of charge after the first k steps, integrated from the true start without rounding. */
  function TrueSoc(c: Case, path: seq<PlanStep>, k: nat): real
    requires k <= |path|
  {
    if k == 0 then c.initialSoc else NextSoc(TrueSoc(c, path, k - 1), path[k - 1].powerKw, c.station.storageCapacityKwh)
  }

  lemma KeyIsClose(soc: real)
    ensures Abs(KeySoc(SocKey(soc)) - soc) <= 0.005
  {}

  lemma NextSocShift(a: real, b: real, powerKw: real, capacityKwh: real)
    ensures NextSoc(a, powerKw, capacityKwh) - NextSoc(b, powerKw, capacityKwh) == a - b
  {}

  /** The projected state of charge of the k-th step is within 0.005 k of the true one. */
  lemma {:induction false} DriftBound(c: Case, path: seq<PlanStep>, k: nat)
    requires PathOk(c, path) && 0 < k <= |path|
    ensures Abs(TrueSoc(c, path, k) - path[k - 1].soc) <= 0.005 * k as real
  {
    hide SocKey, NextSoc, KeySoc, Feasible, TransitionCost;
    assert StepOk(c, path, k - 1);
    var from := KeySoc(FromKey(c, path, k - 1));
    NextSocShift(TrueSoc(c, path, k - 1), from, path[k - 1].powerKw, c.station.storageCapacityKwh);
    if k == 1 {
      KeyIsClose(c.initialSoc);
    } else {
      DriftBound(c, path, k - 1);
      KeyIsClose(path[k - 2].soc);
    }
  }
}
