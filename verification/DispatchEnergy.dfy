/** What a dispatch plan of optimizer.py does to the battery and to the grid connection, reckoned from its
    powers and the station's own figures. */
module DispatchEnergy {
  import opened RealMath
  import opened Rounding
  import opened DispatchMpc

  /** Energy that ends up in the battery: nine tenths of what is drawn to charge it; what is delivered by
      discharging takes a ninth more out of it. */
  function Stored(powerKw: real): real { if powerKw >= 0.0 then 0.9 * powerKw else powerKw / 0.9 }

  function StoredTotal(path: seq<PlanStep>, k: nat): real
    requires k <= |path|
  {
    if k == 0 then 0.0 else StoredTotal(path, k - 1) + Stored(path[k - 1].powerKw)
  }

  /** Energy drawn by the first k steps, less what they deliver. */
  function DrawnTotal(path: seq<PlanStep>, k: nat): real
    requires k <= |path|
  {
    if k == 0 then 0.0 else DrawnTotal(path, k - 1) + path[k - 1].powerKw
  }

  lemma QuotientBack(a: real, d: real)
    requires d != 0.0
    ensures Mul(d, a / d) == a
  {}

  lemma ScaledQuotient(a: real, d: real)
    requires d != 0.0
    ensures a / d * 0.9 == 0.9 * a / d && a / d / 0.9 == a / 0.9 / d
  {}

  /** One step, from any charge: capacity times the change of charge is the energy stored. */
  lemma ChargeMoves(soc: real, powerKw: real, capacityKwh: real)
    ensures capacityKwh > 0.0 ==> Mul(capacityKwh, NextSoc(soc, powerKw, capacityKwh) - soc) == Stored(powerKw)
    ensures capacityKwh <= 0.0 ==> NextSoc(soc, powerKw, capacityKwh) == soc
  {
    if capacityKwh > 0.0 {
      ScaledQuotient(powerKw, capacityKwh);
      QuotientBack(0.9 * powerKw, capacityKwh);
      QuotientBack(powerKw / 0.9, capacityKwh);
    }
  }

  /** A planned step stores what its power says, reckoned from the rounded charge it starts from; charging
      never stores more than it draws and discharging never delivers more than it takes out. */
  lemma StepStores(c: Case, path: seq<PlanStep>, k: nat)
    requires PathOk(c, path) && k < |path| && c.station.storageCapacityKwh > 0.0
    ensures var s, capacity := path[k], c.station.storageCapacityKwh;
            var from := if k == 0 then RoundHalfEven(c.initialSoc * 100.0) else RoundHalfEven(path[k - 1].soc * 100.0);
            var stored := Mul(capacity, s.soc - from as real / 100.0);
            && (s.powerKw >= 0.0 ==> stored == 0.9 * s.powerKw)
            && (s.powerKw < 0.0 ==> stored == s.powerKw / 0.9)
            && stored <= s.powerKw
  {
    hide Mul, NextSoc, Feasible, TransitionCost, RampLimit;
    assert StepOk(c, path, k);
    ChargeMoves(KeySoc(FromKey(c, path, k)), path[k].powerKw, c.station.storageCapacityKwh);
  }

  lemma {:induction false} TrueSocStores(c: Case, path: seq<PlanStep>, k: nat)
    requires k <= |path| && c.station.storageCapacityKwh > 0.0
    ensures Mul(c.station.storageCapacityKwh, TrueSoc(c, path, k) - c.initialSoc) == StoredTotal(path, k)
    ensures StoredTotal(path, k) <= DrawnTotal(path, k)
  {
    hide Mul, NextSoc;
    var capacity := c.station.storageCapacityKwh;
    if k == 0 {
      MulZero(capacity);
    } else {
      TrueSocStores(c, path, k - 1);
      var before := TrueSoc(c, path, k - 1);
      ChargeMoves(before, path[k - 1].powerKw, capacity);
      MulSum(capacity, before - c.initialSoc, TrueSoc(c, path, k) - before);
    }
  }

  /** The charge the battery really has after k steps, its energy reckoned from the powers alone. */
  function Integrated(c: Case, path: seq<PlanStep>, k: nat): real
    requires k <= |path| && c.station.storageCapacityKwh > 0.0
  {
    c.initialSoc + StoredTotal(path, k) / c.station.storageCapacityKwh
  }

  lemma IntegratedIsTrue(c: Case, path: seq<PlanStep>, k: nat)
    requires k <= |path| && c.station.storageCapacityKwh > 0.0
    ensures Integrated(c, path, k) == TrueSoc(c, path, k)
  {
    hide Mul;
    TrueSocStores(c, path, k);
    var gain := TrueSoc(c, path, k) - c.initialSoc;
    MulCommutes(c.station.storageCapacityKwh, gain);
    QuotientOfProduct(gain, c.station.storageCapacityKwh);
  }

  /** Main result: executed from its true start, a plan keeps the battery within its limits after every
      step, up to 0.005 for each step taken, and above the reserve in the last four. */
  lemma BatteryStaysWithinLimits(c: Case, path: seq<PlanStep>, k: nat)
    requires PathOk(c, path) && 0 < k <= |path| && c.station.storageCapacityKwh > 0.0
    ensures var charge, slack := Integrated(c, path, k), 0.005 * k as real;
            && c.limits.socMin - slack <= charge <= c.limits.socMax + slack
            && (k + 4 > |c.forecast| ==> c.limits.reserveSoc - slack <= charge)
  {
    hide Mul, NextSoc, TransitionCost, RampLimit, GridLimit;
    assert StepOk(c, path, k - 1);
    IntegratedIsTrue(c, path, k);
    DriftBound(c, path, k);
  }

  /** What a planned step means for the connection: load plus battery power, never below zero, within the
      share of the transformer it may use; and no jump beyond the ramp limit. */
  lemma StepKeepsLimits(c: Case, path: seq<PlanStep>, k: nat)
    requires PathOk(c, path) && k < |path|
    ensures var s, load := path[k], c.forecast[k].gridKw;
            && s.gridKw >= 0.0 && s.gridKw >= load + s.powerKw && (s.gridKw == 0.0 || s.gridKw == load + s.powerKw)
            && s.gridKw <= Mul(c.station.transformerCapacityKw, c.limits.transformerMaxRatio)
            && Abs(s.powerKw - (if k == 0 then 0.0 else path[k - 1].powerKw)) <=
                 Mul(c.station.storagePowerKw, c.limits.maxRampRatio)
            && (exists r :: r in {-0.72, -0.5, -0.25, 0.0, 0.25, 0.5, 0.72} &&
                            s.powerKw == Mul(r, c.station.storagePowerKw))
            && c.limits.socMin <= s.soc <= c.limits.socMax
            && (k + 4 >= |c.forecast| ==> c.limits.reserveSoc <= s.soc)
  {
    hide TransitionCost, NextSoc;
    assert StepOk(c, path, k);
  }

  /** And nothing else is refused: a step is feasible exactly within the battery's range, above the reserve
      in the last four hours, and within the share of the transformer. */
  lemma FeasibleIff(c: Case, step: nat, soc: real, gridKw: real)
    requires step < |c.forecast|
    ensures Feasible(c, step, soc, gridKw) <==>
            && c.limits.socMin <= soc <= c.limits.socMax
            && (step + 4 >= |c.forecast| ==> c.limits.reserveSoc <= soc)
            && gridKw <= Mul(c.station.transformerCapacityKw, c.limits.transformerMaxRatio)
  {
    hide Mul;
  }

  // ---------------------------------------------------------------------------------------
  // What a step is charged for
  // ---------------------------------------------------------------------------------------

  /** Load beyond 78 % of the transformer. */
  function Excess(c: Case, gridKw: real): real {
    if gridKw > 0.78 * c.station.transformerCapacityKw then gridKw - 0.78 * c.station.transformerCapacityKw else 0.0
  }

  /** Every objective charges for battery wear on power in either direction and for load beyond 78 % of the
      transformer; beyond that, cost-first pays for energy, and for holding no reserve while five or more
      wait, revenue-first for keeping people waiting, balanced for the energy and 45 % of the waiting. */
  lemma ChargedFor(c: Case, row: Forecast, powerKw: real, gridKw: real)
    ensures var charge := TransitionCost(c, row, powerKw, gridKw);
            var costFirst := TransitionCost(c.(objective := CostFirst), row, powerKw, gridKw);
            var revenueFirst := TransitionCost(c.(objective := RevenueFirst), row, powerKw, gridKw);
            var wear := 0.055 * (if powerKw < 0.0 then -powerKw else powerKw);
            var demand := Mul(Excess(c, gridKw), c.station.demandCharge) / 30.0;
            var waiting := revenueFirst - wear - 0.35 * demand;
            && costFirst == Mul(gridKw, row.price) + demand + wear
                            + (if row.queueLength >= 5 && powerKw < 0.0 then -0.015 * powerKw else 0.0)
            && waiting == (if powerKw < 0.0 && row.queueLength > 2 then 18.0 * (row.queueLength - 2) as real
                           else if powerKw >= 0.0 && row.queueLength > 5 then 8.0 * (row.queueLength - 5) as real
                           else 0.0)
            && (c.objective == Balanced ==> charge == costFirst + 0.45 * waiting)
  {
    hide Mul;
    assert Max(0.0, gridKw - c.station.transformerCapacityKw * 0.78) == Excess(c, gridKw);
  }

  /** Drawing more from the grid at a price that is not negative never makes a cost-first step cheaper. */
  lemma DrawingCosts(c: Case, row: Forecast, powerKw: real, less: real, more: real)
    requires less <= more && row.price >= 0.0 && c.station.demandCharge >= 0.0 && c.objective == CostFirst
    ensures TransitionCost(c, row, powerKw, less) <= TransitionCost(c, row, powerKw, more)
  {
    ChargedFor(c, row, powerKw, less);
    ChargedFor(c, row, powerKw, more);
    hide Mul, TransitionCost;
    MulOrder(less, more, row.price);
    MulOrder(Excess(c, less), Excess(c, more), c.station.demandCharge);
  }
}
