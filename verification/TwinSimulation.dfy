/** The battery side of simulate_station in digital_twin.py: request clamped to the derated limit,
    state of charge clipped, power solved again when the clip bites. */
module TwinSimulation {
  import opened RealMath

  const SOC_FLOOR: real := 0.10

  const SOC_CEILING: real := 0.95

  datatype Station = Station(storagePowerKw: real, storageCapacityKwh: real)

  datatype ScheduleRow = ScheduleRow(requestedKw: real, ambientC: real)

  /** Quantities carried from step to step. */
  datatype Battery = Battery(soc: real, temperature: real, throughput: real, soh: real)

  /** What one step decides. */
  datatype Flow = Flow(powerKw: real, efficiency: real, soc: real)

  // ---------------------------------------------------------------------------------------
  // One step as functions
  // ---------------------------------------------------------------------------------------

  /** Rated power, derated linearly between 45 and 70 degrees. */
  function PowerLimit(st: Station, temperature: real): real {
    Mul(st.storagePowerKw, Max(0.0, 1.0 - Max(0.0, temperature - 45.0) / 25.0))
  }

  function Ratio(st: Station, powerKw: real): real { Abs(powerKw) / Max(1.0, st.storagePowerKw) }

  function Efficiency(st: Station, powerKw: real, temperature: real): (e: real)
    ensures 0.82 <= e <= 0.97
  {
    Clip(0.965 - 0.035 * Ratio(st, powerKw) - Max(0.0, Abs(temperature - 25.0) - 15.0) * 0.001, 0.82, 0.97)
  }

  /** Power that reaches the cells: charging loses, discharging draws more than it delivers. */
  function Stored(powerKw: real, efficiency: real): real
    requires efficiency > 0.0
  {
    if powerKw >= 0.0 then Mul(powerKw, efficiency) else powerKw / efficiency
  }

  function SocAfter(soc: real, powerKw: real, efficiency: real, dt: real, capacity: real): real
    requires efficiency > 0.0 && capacity > 0.0
  {
    soc + Mul(Stored(powerKw, efficiency), dt) / capacity
  }

  /** The power that moves `room` kilowatt-hours in one step. */
  function PowerFor(room: real, efficiency: real, dt: real): real
    requires efficiency > 0.0 && dt > 0.0
  {
    if room >= 0.0 then room / dt / efficiency else Mul(room / dt, efficiency)
  }

  function StepFlow(st: Station, soc: real, temperature: real, requestedKw: real, dt: real, capacity: real): Flow
    requires dt > 0.0 && capacity > 0.0
  {
    var limit := PowerLimit(st, temperature);
    var power := Clip(requestedKw, -limit, limit);
    var efficiency := Efficiency(st, power, temperature);
    var next := SocAfter(soc, power, efficiency, dt, capacity);
    var clipped := Clip(next, SOC_FLOOR, SOC_CEILING);
    Flow(if clipped != next then PowerFor(Mul(clipped - soc, capacity), efficiency, dt) else power, efficiency, clipped)
  }

  /** The exponent 1.7 of the thermal model is a parameter. */
  function StepBattery(st: Station, b: Battery, row: ScheduleRow, dt: real, capacity: real,
                       power17: real -> real): Battery
    requires dt > 0.0 && capacity > 0.0
  {
    var f := StepFlow(st, b.soc, b.temperature, row.requestedKw, dt, capacity);
    var limit := PowerLimit(st, b.temperature);
    var ratio := Ratio(st, Clip(row.requestedKw, -limit, limit));
    var target := row.ambientC + 8.0 + 22.0 * power17(ratio);
    var moved := Mul(Abs(f.powerKw), dt);
    Battery(f.soc,
            b.temperature + Mul(target - b.temperature, Min(1.0, dt / 1.5)),
            b.throughput + moved,
            Max(0.5, b.soh - moved / Max(1.0, st.storageCapacityKwh) * 0.00004))
  }

  /** The simulation's fixed surroundings. The capacity is set once, from the starting health. */
  datatype Setup = Setup(station: Station, start: Battery, schedule: seq<ScheduleRow>, dt: real, power17: real -> real)
  {
    function Capacity(): (c: real)
      ensures c >= 1.0
    {
      Max(1.0, Mul(station.storageCapacityKwh, start.soh))
    }
  }

  function BatteryAt(s: Setup, k: nat): Battery
    requires s.dt > 0.0 && k <= |s.schedule|
  {
    if k == 0 then s.start
    else StepBattery(s.station, BatteryAt(s, k - 1), s.schedule[k - 1], s.dt, s.Capacity(), s.power17)
  }

  function FlowAt(s: Setup, k: nat): Flow
    requires s.dt > 0.0 && k < |s.schedule|
  {
    var b := BatteryAt(s, k);
    StepFlow(s.station, b.soc, b.temperature, s.schedule[k].requestedKw, s.dt, s.Capacity())
  }

  // ---------------------------------------------------------------------------------------
  // Energy accounting of one step
  // ---------------------------------------------------------------------------------------

  lemma QuotientSign(a: real, d: real)
    requires d > 0.0
    ensures a >= 0.0 <==> a / d >= 0.0
  {}

  /** Power solved for a clipped state of charge really leads there. */
  lemma PowerForInverts(room: real, efficiency: real, dt: real)
    requires efficiency > 0.0 && dt > 0.0
    ensures Mul(Stored(PowerFor(room, efficiency, dt), efficiency), dt) == room
  {
    hide Mul;
    var rate := room / dt;
    QuotientSign(room, dt);
    QuotientSign(rate, efficiency);
    MulQuotient(room, dt);
    MulQuotient(rate, efficiency);
    if room < 0.0 {
      MulPositive(-rate, efficiency);
      MulNegated(-rate, efficiency);
      QuotientOfProduct(rate, efficiency);
    }
  }

  /** The step's energy balance, clipped or not: the change of stored energy is the efficiency-adjusted
      power times the step length, and the new state of charge is in range. */
  lemma StepAccounts(st: Station, soc: real, temperature: real, requestedKw: real, dt: real, capacity: real)
    requires dt > 0.0 && capacity > 0.0
    ensures var f := StepFlow(st, soc, temperature, requestedKw, dt, capacity);
            && Mul(f.soc - soc, capacity) == Mul(Stored(f.powerKw, f.efficiency), dt)
            && SOC_FLOOR <= f.soc <= SOC_CEILING
            && 0.82 <= f.efficiency <= 0.97
  {
    hide Mul, Efficiency, PowerLimit;
    var limit := PowerLimit(st, temperature);
    var power := Clip(requestedKw, -limit, limit);
    var efficiency := Efficiency(st, power, temperature);
    EfficiencyRange(st, power, temperature);
    var next := SocAfter(soc, power, efficiency, dt, capacity);
    var clipped := Clip(next, SOC_FLOOR, SOC_CEILING);
    PowerForInverts(Mul(clipped - soc, capacity), efficiency, dt);
    MulQuotient(Mul(Stored(power, efficiency), dt), capacity);
  }

  lemma EfficiencyRange(st: Station, powerKw: real, temperature: real)
    ensures 0.82 <= Efficiency(st, powerKw, temperature) <= 0.97
  {}

  /** Cells never gain more than the terminals deliver. */
  lemma StoredIsLess(powerKw: real, efficiency: real)
    requires 0.0 < efficiency <= 1.0
    ensures Stored(powerKw, efficiency) <= powerKw
  {
    hide Mul;
    if powerKw >= 0.0 {
      MulOrder(efficiency, 1.0, powerKw);
      MulOne(powerKw);
      MulCommutes(powerKw, efficiency);
    } else {
      MulQuotient(powerKw, efficiency);
      QuotientSign(-powerKw, efficiency);
      QuotientNegated(powerKw, efficiency);
      MulOrder(efficiency, 1.0, -(powerKw / efficiency));
      MulOne(-(powerKw / efficiency));
      MulNegated(efficiency, powerKw / efficiency);
      MulCommutes(powerKw / efficiency, efficiency);
    }
  }

  lemma QuotientNegated(a: real, d: real)
    requires d > 0.0
    ensures (-a) / d == -(a / d)
  {}

  // ---------------------------------------------------------------------------------------
  // Whole simulations
  // ---------------------------------------------------------------------------------------

  /** Efficiency-adjusted energy of the first k steps. */
  function StoredEnergy(s: Setup, k: nat): real
    requires s.dt > 0.0 && k <= |s.schedule|
  {
    if k == 0 then 0.0
    else
      var f := FlowAt(s, k - 1);
      StoredEnergy(s, k - 1) + (if f.efficiency > 0.0 then Mul(Stored(f.powerKw, f.efficiency), s.dt) else 0.0)
  }

  /** Net energy at the terminals over the first k steps. */
  function NetInput(s: Setup, k: nat): real
    requires s.dt > 0.0 && k <= |s.schedule|
  {
    if k == 0 then 0.0 else NetInput(s, k - 1) + Mul(FlowAt(s, k - 1).powerKw, s.dt)
  }

  lemma FlowIsState(s: Setup, k: nat)
    requires s.dt > 0.0 && k < |s.schedule|
    ensures BatteryAt(s, k + 1).soc == FlowAt(s, k).soc
  {
    hide StepFlow;
  }

  /** Main result, for every schedule and every start: capacity times the change in state of charge is
      the sum of the efficiency-adjusted energies, and never more than the net energy put in. */
  lemma {:induction false} EnergyAccounts(s: Setup, k: nat)
    requires s.dt > 0.0 && k <= |s.schedule|
    ensures Mul(BatteryAt(s, k).soc - s.start.soc, s.Capacity()) == StoredEnergy(s, k) <= NetInput(s, k)
    ensures k > 0 ==> SOC_FLOOR <= BatteryAt(s, k).soc <= SOC_CEILING
  {
    hide Mul, StepFlow, StepBattery, Stored;
    if k == 0 {
      MulZero(s.Capacity());
    } else {
      EnergyAccounts(s, k - 1);
      FlowIsState(s, k - 1);
      var b, f := BatteryAt(s, k - 1), FlowAt(s, k - 1);
      StepAccounts(s.station, b.soc, b.temperature, s.schedule[k - 1].requestedKw, s.dt, s.Capacity());
      StoredIsLess(f.powerKw, f.efficiency);
      MulOrder(Stored(f.powerKw, f.efficiency), f.powerKw, s.dt);
      MulSum(s.Capacity(), b.soc - s.start.soc, f.soc - b.soc);
    }
  }

  // ---------------------------------------------------------------------------------------
  // The power limit
  // ---------------------------------------------------------------------------------------

  lemma StoredMonotone(a: real, b: real, efficiency: real)
    requires a < b && efficiency > 0.0
    ensures Stored(a, efficiency) < Stored(b, efficiency)
  {
    hide Mul;
    if a >= 0.0 {
      MulPositive(b - a, efficiency);
      MulSum(efficiency, a, b - a);
    } else {
      QuotientStrict(a, b, efficiency);
      if b >= 0.0 { MulNonNegative(b, efficiency); QuotientSign(a, efficiency); }
    }
  }

  lemma QuotientStrict(a: real, b: real, d: real)
    requires a < b && d > 0.0
    ensures a / d < b / d
  {}

  /** More power, more charge, strictly. */
  lemma SocAfterMonotone(soc: real, a: real, b: real, efficiency: real, dt: real, capacity: real)
    requires efficiency > 0.0 && dt > 0.0 && capacity > 0.0
    ensures a <= b <==> SocAfter(soc, a, efficiency, dt, capacity) <= SocAfter(soc, b, efficiency, dt, capacity)
  {
    if a < b { SocAfterStrict(soc, a, b, efficiency, dt, capacity); }
    if b < a { SocAfterStrict(soc, b, a, efficiency, dt, capacity); }
  }

  lemma SocAfterStrict(soc: real, a: real, b: real, efficiency: real, dt: real, capacity: real)
    requires a < b && efficiency > 0.0 && dt > 0.0 && capacity > 0.0
    ensures SocAfter(soc, a, efficiency, dt, capacity) < SocAfter(soc, b, efficiency, dt, capacity)
  {
    hide Mul, Stored;
    StoredMonotone(a, b, efficiency);
    MulPositive(Stored(b, efficiency) - Stored(a, efficiency), dt);
    MulSum(dt, Stored(a, efficiency), Stored(b, efficiency) - Stored(a, efficiency));
    QuotientStrict(Mul(Stored(a, efficiency), dt), Mul(Stored(b, efficiency), dt), capacity);
  }

  /** The reported power stays within the derated limit exactly when the allowed range of charge can be
      reached from the present charge at that limit. */
  lemma PowerWithinLimitIff(st: Station, soc: real, temperature: real, requestedKw: real, dt: real, capacity: real)
    requires dt > 0.0 && capacity > 0.0 && PowerLimit(st, temperature) >= 0.0
    ensures var limit := PowerLimit(st, temperature);
            var f := StepFlow(st, soc, temperature, requestedKw, dt, capacity);
            Abs(f.powerKw) <= limit <==>
              && SOC_FLOOR <= SocAfter(soc, limit, f.efficiency, dt, capacity)
              && SocAfter(soc, -limit, f.efficiency, dt, capacity) <= SOC_CEILING
  {
    hide Mul, Efficiency, PowerLimit, Stored, SocAfter, PowerFor;
    var limit := PowerLimit(st, temperature);
    var power := Clip(requestedKw, -limit, limit);
    EfficiencyRange(st, power, temperature);
    var f := StepFlow(st, soc, temperature, requestedKw, dt, capacity);
    var e := f.efficiency;
    FlowReachesSoc(st, soc, temperature, requestedKw, dt, capacity);
    SocAfterMonotone(soc, -limit, power, e, dt, capacity);
    SocAfterMonotone(soc, power, limit, e, dt, capacity);
    SocAfterMonotone(soc, f.powerKw, limit, e, dt, capacity);
    SocAfterMonotone(soc, -limit, f.powerKw, e, dt, capacity);
    SocAfterMonotone(soc, power, f.powerKw, e, dt, capacity);
    SocAfterMonotone(soc, f.powerKw, power, e, dt, capacity);
  }

  lemma FlowReachesSoc(st: Station, soc: real, temperature: real, requestedKw: real, dt: real, capacity: real)
    requires dt > 0.0 && capacity > 0.0
    ensures var f := StepFlow(st, soc, temperature, requestedKw, dt, capacity);
            SocAfter(soc, f.powerKw, f.efficiency, dt, capacity) == f.soc
  {
    hide Mul, Efficiency, PowerLimit, Stored, StepFlow;
    var f := StepFlow(st, soc, temperature, requestedKw, dt, capacity);
    StepAccounts(st, soc, temperature, requestedKw, dt, capacity);
    QuotientOfProduct(f.soc - soc, capacity);
  }

  /** From a charge already in range the limit always holds. */
  lemma InRangeKeepsLimit(st: Station, soc: real, temperature: real, requestedKw: real, dt: real, capacity: real)
    requires dt > 0.0 && capacity > 0.0 && st.storagePowerKw >= 0.0 && SOC_FLOOR <= soc <= SOC_CEILING
    ensures Abs(StepFlow(st, soc, temperature, requestedKw, dt, capacity).powerKw) <= PowerLimit(st, temperature)
  {
    hide Efficiency, StepFlow, Stored;
    MulNonNegative(st.storagePowerKw, Max(0.0, 1.0 - Max(0.0, temperature - 45.0) / 25.0));
    var limit := PowerLimit(st, temperature);
    var f := StepFlow(st, soc, temperature, requestedKw, dt, capacity);
    StepAccounts(st, soc, temperature, requestedKw, dt, capacity);
    PowerWithinLimitIff(st, soc, temperature, requestedKw, dt, capacity);
    StillSoc(soc, f.efficiency, dt, capacity);
    SocAfterMonotone(soc, 0.0, limit, f.efficiency, dt, capacity);
    SocAfterMonotone(soc, -limit, 0.0, f.efficiency, dt, capacity);
  }

  lemma StillSoc(soc: real, efficiency: real, dt: real, capacity: real)
    requires efficiency > 0.0 && capacity > 0.0
    ensures SocAfter(soc, 0.0, efficiency, dt, capacity) == soc
  {}

  /** So from the second step on it always holds. */
  lemma LimitHoldsAfterFirstStep(s: Setup, k: nat)
    requires s.dt > 0.0 && 0 < k < |s.schedule| && s.station.storagePowerKw >= 0.0
    ensures Abs(FlowAt(s, k).powerKw) <= PowerLimit(s.station, BatteryAt(s, k).temperature)
  {
    hide StepFlow, StepBattery;
    EnergyAccounts(s, k);
    var b := BatteryAt(s, k);
    InRangeKeepsLimit(s.station, b.soc, b.temperature, s.schedule[k].requestedKw, s.dt, s.Capacity());
  }

  /** An out-of-range start can break it: an empty 100 kWh battery on a 10 kW inverter, asked for
      nothing for a quarter of an hour, is reported as charging above its limit. */
  lemma EmptyStartBreaksLimit()
    ensures var st := Station(10.0, 100.0);
            Abs(StepFlow(st, 0.0, 25.0, 0.0, 0.25, 100.0).powerKw) > PowerLimit(st, 25.0)
  {
    hide Efficiency, StepFlow;
    var st := Station(10.0, 100.0);
    assert PowerLimit(st, 25.0) == 10.0;
    var f := StepFlow(st, 0.0, 25.0, 0.0, 0.25, 100.0);
    StepAccounts(st, 0.0, 25.0, 0.0, 0.25, 100.0);
    PowerWithinLimitIff(st, 0.0, 25.0, 0.0, 0.25, 100.0);
    FullPowerGain(f.efficiency);
  }

  lemma FullPowerGain(efficiency: real)
    requires 0.82 <= efficiency <= 0.97
    ensures SocAfter(0.0, 10.0, efficiency, 0.25, 100.0) < SOC_FLOOR
  {}

  // ---------------------------------------------------------------------------------------
  // What the figures mean
  // ---------------------------------------------------------------------------------------

  /** Full power up to 45 degrees, none from 70 on, in proportion between. */
  lemma LimitDerates(st: Station, temperature: real)
    ensures temperature <= 45.0 ==> PowerLimit(st, temperature) == st.storagePowerKw
    ensures temperature >= 70.0 ==> PowerLimit(st, temperature) == 0.0
    ensures 45.0 <= temperature <= 70.0 ==>
              PowerLimit(st, temperature) == Mul(st.storagePowerKw, (70.0 - temperature) / 25.0)
  {
    MulOne(st.storagePowerKw);
    MulZero(st.storagePowerKw);
    hide Mul;
    if 45.0 <= temperature <= 70.0 { assert 1.0 - (temperature - 45.0) / 25.0 == (70.0 - temperature) / 25.0; }
  }

  /** Degrees outside the comfortable range of 10 to 40. */
  function Discomfort(temperature: real): real {
    if temperature > 40.0 then temperature - 40.0 else if temperature < 10.0 then 10.0 - temperature else 0.0
  }

  /** 96.5 % at rest, 3.5 points less at rated power and in proportion below, a tenth of a point less for every
      uncomfortable degree, between 82 % and 97 %. */
  lemma EfficiencyMeans(st: Station, powerKw: real, temperature: real)
    ensures var rated := if st.storagePowerKw > 1.0 then st.storagePowerKw else 1.0;
            var load := (if powerKw < 0.0 then -powerKw else powerKw) / rated;
            var e := 0.965 - 0.035 * load - 0.001 * Discomfort(temperature);
            Efficiency(st, powerKw, temperature) == if e < 0.82 then 0.82 else if e > 0.97 then 0.97 else e
  {
    assert Max(0.0, Abs(temperature - 25.0) - 15.0) == Discomfort(temperature);
  }

  /** A request within the limit whose charge stays between 10 % and 95 % is carried out as it is; a step that
      would leave that range ends on its edge instead. */
  lemma RequestIsCarriedOut(st: Station, soc: real, temperature: real, requestedKw: real, dt: real, capacity: real)
    requires dt > 0.0 && capacity > 0.0 && Abs(requestedKw) <= PowerLimit(st, temperature)
    ensures var e := Efficiency(st, requestedKw, temperature);
            var f := StepFlow(st, soc, temperature, requestedKw, dt, capacity);
            var next := SocAfter(soc, requestedKw, e, dt, capacity);
            && f.efficiency == e
            && (0.10 <= next <= 0.95 ==> f == Flow(requestedKw, e, next))
            && (next < 0.10 ==> f.soc == 0.10) && (next > 0.95 ==> f.soc == 0.95)
  {
    hide Mul, Efficiency, PowerLimit, SocAfter, PowerFor;
    EfficiencyRange(st, requestedKw, temperature);
  }

  /** The temperature moves towards ambient plus 8 degrees plus up to 22 for load, and gets there within an
      hour and a half. */
  lemma TemperatureRelaxes(st: Station, b: Battery, row: ScheduleRow, dt: real, capacity: real,
                           power17: real -> real)
    requires dt > 0.0 && capacity > 0.0
    ensures var limit := PowerLimit(st, b.temperature);
            var target := row.ambientC + 8.0 + 22.0 * power17(Ratio(st, Clip(row.requestedKw, -limit, limit)));
            var after := StepBattery(st, b, row, dt, capacity, power17).temperature;
            && (b.temperature <= target ==> b.temperature <= after <= target)
            && (b.temperature >= target ==> b.temperature >= after >= target)
            && (dt >= 1.5 ==> after == target)
            && (dt < 1.5 ==> after - b.temperature == Mul(target - b.temperature, dt / 1.5))
  {
    hide Mul, StepFlow, PowerLimit, Ratio;
    var limit := PowerLimit(st, b.temperature);
    var target := row.ambientC + 8.0 + 22.0 * power17(Ratio(st, Clip(row.requestedKw, -limit, limit)));
    var gap, rate := target - b.temperature, Min(1.0, dt / 1.5);
    MulOne(gap);
    if gap >= 0.0 {
      MulNonNegative(gap, rate);
      MulOrder(rate, 1.0, gap);
    } else {
      MulNonNegative(-gap, rate);
      MulOrder(rate, 1.0, -gap);
      MulOne(-gap);
      MulNegated(rate, gap);
      MulCommutes(gap, rate);
      MulCommutes(-gap, rate);
    }
  }

  /** Energy through the terminals in either direction in the first k flows. */
  function Moved(flows: seq<Flow>, dt: real, k: nat): real
    requires k <= |flows|
  {
    if k == 0 then 0.0
    else
      var p := flows[k - 1].powerKw;
      Moved(flows, dt, k - 1) + Mul(if p < 0.0 then -p else p, dt)
  }

  /** Energy that reached the cells, less what left them: charging arrives reduced by the efficiency,
      discharging takes more than it delivers. */
  function Gained(flows: seq<Flow>, dt: real, k: nat): real
    requires k <= |flows|
  {
    if k == 0 then 0.0
    else
      var f := flows[k - 1];
      Gained(flows, dt, k - 1) +
      (if f.powerKw >= 0.0 then Mul(Mul(f.powerKw, f.efficiency), dt)
       else if f.efficiency > 0.0 then Mul(f.powerKw / f.efficiency, dt) else 0.0)
  }

  ghost predicate FlowsOf(s: Setup, flows: seq<Flow>)
    requires s.dt > 0.0
  {
    |flows| == |s.schedule| && forall k :: 0 <= k < |flows| ==> flows[k] == FlowAt(s, k)
  }

  lemma FlowEfficiency(s: Setup, k: nat)
    requires s.dt > 0.0 && k < |s.schedule|
    ensures 0.82 <= FlowAt(s, k).efficiency <= 0.97
  {
    hide StepBattery;
    var b := BatteryAt(s, k);
    StepAccounts(s.station, b.soc, b.temperature, s.schedule[k].requestedKw, s.dt, s.Capacity());
  }

  lemma {:induction false} GainedIsStored(s: Setup, flows: seq<Flow>, k: nat)
    requires s.dt > 0.0 && FlowsOf(s, flows) && k <= |flows|
    ensures Gained(flows, s.dt, k) == StoredEnergy(s, k)
  {
    hide Mul, FlowAt;
    if k > 0 {
      GainedIsStored(s, flows, k - 1);
      FlowEfficiency(s, k - 1);
    }
  }

  lemma BatteryStep(s: Setup, k: nat)
    requires s.dt > 0.0 && 0 < k <= |s.schedule|
    ensures var before, after, f := BatteryAt(s, k - 1), BatteryAt(s, k), FlowAt(s, k - 1);
            && after.throughput == before.throughput + Mul(Abs(f.powerKw), s.dt)
            && after.soh == Max(0.5, before.soh - Mul(Abs(f.powerKw), s.dt) / Max(1.0, s.station.storageCapacityKwh)
                                     * 0.00004)
  {
    hide Mul, StepFlow;
  }

  /** Wear: the battery has moved what its flows say, and has lost four hundred-thousandths of its health for
      each full capacity moved, down to one half. */
  lemma {:induction false} WearFollowsThroughput(s: Setup, flows: seq<Flow>, k: nat)
    requires s.dt > 0.0 && FlowsOf(s, flows) && k <= |flows| && s.start.throughput == 0.0 && s.start.soh >= 0.5
    ensures Moved(flows, s.dt, k) >= 0.0 && BatteryAt(s, k).throughput == Moved(flows, s.dt, k)
    ensures var size := if s.station.storageCapacityKwh > 1.0 then s.station.storageCapacityKwh else 1.0;
            BatteryAt(s, k).soh == Max(0.5, s.start.soh - Moved(flows, s.dt, k) / size * 0.00004)
  {
    hide Mul, FlowAt;
    var size := Max(1.0, s.station.storageCapacityKwh);
    if k == 0 {
      NonNegativeQuotient(0.0, size);
      assert 0.0 / size == 0.0;
    } else {
      WearFollowsThroughput(s, flows, k - 1);
      BatteryStep(s, k);
      var before, step := Moved(flows, s.dt, k - 1), Mul(Abs(flows[k - 1].powerKw), s.dt);
      MulNonNegative(Abs(flows[k - 1].powerKw), s.dt);
      NonNegativeQuotient(step, size);
      QuotientSum(before, step, size);
    }
  }

  lemma NonNegativeQuotient(a: real, d: real)
    requires a >= 0.0 && d > 0.0
    ensures a / d >= 0.0
  {}

  // ---------------------------------------------------------------------------------------
  // The report
  // ---------------------------------------------------------------------------------------

  /** What a simulation reports, reckoned from its inputs and its flows alone: usable capacity times the
      change of charge is the energy gained, which is at most the net energy put in; throughput and wear
      follow the flows; charge and efficiency are in range; and from the second step on no power exceeds
      the limit. */
  ghost predicate Reconciles(st: Station, initialSoc: real, initialSoh: real, dt: real, flows: seq<Flow>,
                             final: Battery) {
    var n := |flows|;
    var soc := if initialSoc < 0.0 then 0.0 else if initialSoc > 1.0 then 1.0 else initialSoc;
    var soh := if initialSoh < 0.5 then 0.5 else if initialSoh > 1.0 then 1.0 else initialSoh;
    var size := if st.storageCapacityKwh > 1.0 then st.storageCapacityKwh else 1.0;
    var usable := if Mul(st.storageCapacityKwh, soh) > 1.0 then Mul(st.storageCapacityKwh, soh) else 1.0;
    && Mul(final.soc - soc, usable) == Gained(flows, dt, n)
    && final.throughput == Moved(flows, dt, n)
    && final.soh == Max(0.5, soh - Moved(flows, dt, n) / size * 0.00004)
    && (forall k :: 0 <= k < n ==> 0.10 <= flows[k].soc <= 0.95 && 0.82 <= flows[k].efficiency <= 0.97)
    && (n > 0 ==> final.soc == flows[n - 1].soc)
    && (st.storagePowerKw >= 0.0 ==> forall k :: 0 < k < n ==> Abs(flows[k].powerKw) <= st.storagePowerKw)
  }

  lemma SimulationReconciles(s: Setup, initialSoc: real, initialSoh: real, temperature: real, flows: seq<Flow>)
    requires s.dt > 0.0 && FlowsOf(s, flows)
    requires s.start == Battery(Clip(initialSoc, 0.0, 1.0), temperature, 0.0, Clip(initialSoh, 0.5, 1.0))
    ensures Reconciles(s.station, initialSoc, initialSoh, s.dt, flows, BatteryAt(s, |flows|))
  {
    hide Mul, FlowAt, BatteryAt, StoredEnergy, NetInput, Moved, Gained, PowerLimit;
    var n := |flows|;
    EnergyAccounts(s, n);
    GainedIsStored(s, flows, n);
    WearFollowsThroughput(s, flows, n);
    StartIs(s);
    forall k | 0 <= k < n ensures 0.10 <= flows[k].soc <= 0.95 && 0.82 <= flows[k].efficiency <= 0.97 {
      FlowEfficiency(s, k);
      FlowIsState(s, k);
      EnergyAccounts(s, k + 1);
    }
    if n > 0 { FlowIsState(s, n - 1); }
    if s.station.storagePowerKw >= 0.0 {
      forall k | 0 < k < n ensures Abs(flows[k].powerKw) <= s.station.storagePowerKw {
        LimitHoldsAfterFirstStep(s, k);
        LimitBelowRating(s.station, BatteryAt(s, k).temperature);
      }
    }
  }

  lemma StartIs(s: Setup)
    requires s.dt > 0.0
    ensures BatteryAt(s, 0) == s.start
  {}

  lemma LimitBelowRating(st: Station, temperature: real)
    requires st.storagePowerKw >= 0.0
    ensures 0.0 <= PowerLimit(st, temperature) <= st.storagePowerKw
  {
    LimitDerates(st, temperature);
    hide Mul, PowerLimit;
    if 45.0 <= temperature <= 70.0 {
      var part := (70.0 - temperature) / 25.0;
      MulNonNegative(st.storagePowerKw, part);
      MulOrder(part, 1.0, st.storagePowerKw);
      MulOne(st.storagePowerKw);
    }
  }

  // ---------------------------------------------------------------------------------------
  // The loop of the source
  // ---------------------------------------------------------------------------------------

  datatype Outcome = Simulated(flows: seq<Flow>, final: Battery) | EmptySchedule | InvalidInterval

  method SimulateStation(st: Station, initialSoc: real, initialSoh: real, batteryTemperature: real,
                         schedule: seq<ScheduleRow>, intervalMinutes: int, power17: real -> real) returns (r: Outcome)
    ensures r.EmptySchedule? <==> schedule == []
    ensures r.InvalidInterval? <==> schedule != [] && !(1 <= intervalMinutes <= 60)
    ensures r.Simulated? ==>
              var start := Battery(Clip(initialSoc, 0.0, 1.0), batteryTemperature, 0.0, Clip(initialSoh, 0.5, 1.0));
              var s := Setup(st, start, schedule, intervalMinutes as real / 60.0, power17);
              && |r.flows| == |schedule| && r.final == BatteryAt(s, |schedule|)
              && forall k :: 0 <= k < |schedule| ==> r.flows[k] == FlowAt(s, k)
    ensures r.Simulated? ==>
              Reconciles(st, initialSoc, initialSoh, intervalMinutes as real / 60.0, r.flows, r.final)
  {
    if schedule == [] {
      return EmptySchedule;
    }
    if !(1 <= intervalMinutes <= 60) {
      return InvalidInterval;
    }
    hide BatteryAt, FlowAt, Reconciles;
    var start := Battery(Clip(initialSoc, 0.0, 1.0), batteryTemperature, 0.0, Clip(initialSoh, 0.5, 1.0));
    var s := Setup(st, start, schedule, intervalMinutes as real / 60.0, power17);
    var flows, battery := RunSchedule(s);
    SimulationReconciles(s, initialSoc, initialSoh, batteryTemperature, flows);
    return Simulated(flows, battery);
  }

  /** The loop over the schedule. */
  method RunSchedule(s: Setup) returns (flows: seq<Flow>, battery: Battery)
    requires s.dt > 0.0
    ensures |flows| == |s.schedule| && battery == BatteryAt(s, |s.schedule|)
    ensures forall k :: 0 <= k < |s.schedule| ==> flows[k] == FlowAt(s, k)
  {
    hide Mul, StepFlow, StepBattery, Setup.Capacity;
    battery := s.start;
    var capacity := s.Capacity();
    flows := [];
    for index := 0 to |s.schedule|
      invariant battery == BatteryAt(s, index)
      invariant |flows| == index && forall k :: 0 <= k < index ==> flows[k] == FlowAt(s, k)
    {
      var flow;
      flow, battery := SimulateStep(s.station, battery, s.schedule[index], s.dt, capacity, s.power17);
      flows := flows + [flow];
    }
  }

  /** The loop body. */
  method SimulateStep(st: Station, b: Battery, row: ScheduleRow, dt: real, capacity: real, power17: real -> real)
    returns (flow: Flow, after: Battery)
    requires dt > 0.0 && capacity > 0.0
    ensures flow == StepFlow(st, b.soc, b.temperature, row.requestedKw, dt, capacity)
    ensures after == StepBattery(st, b, row, dt, capacity, power17)
  {
    hide Mul, Efficiency, PowerLimit, Ratio, SocAfter, PowerFor;
    var powerLimit := PowerLimit(st, b.temperature);
    var storagePower := Clip(row.requestedKw, -powerLimit, powerLimit);
    var ratio := Ratio(st, storagePower);
    var efficiency := Efficiency(st, storagePower, b.temperature);
    EfficiencyRange(st, storagePower, b.temperature);
    var nextSoc := SocAfter(b.soc, storagePower, efficiency, dt, capacity);
    var clippedSoc := Clip(nextSoc, SOC_FLOOR, SOC_CEILING);
    if clippedSoc != nextSoc {
      var energyRoom := Mul(clippedSoc - b.soc, capacity);
      storagePower := PowerFor(energyRoom, efficiency, dt);
    }
    flow := Flow(storagePower, efficiency, clippedSoc);
    var target := row.ambientC + 8.0 + 22.0 * power17(ratio);
    var stepThroughput := Mul(Abs(storagePower), dt);
    after := Battery(clippedSoc,
                     b.temperature + Mul(target - b.temperature, Min(1.0, dt / 1.5)),
                     b.throughput + stepThroughput,
                     Max(0.5, b.soh - stepThroughput / Max(1.0, st.storageCapacityKwh) * 0.00004));
  }
}
