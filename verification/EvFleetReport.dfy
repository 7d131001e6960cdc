/** The fleet report of aggregate_ev_flexibility in grid_ems.py, from the sessions as they are sent: what is
    refused, and what every bound in the report means for the vehicles. */
module EvFleetReport {
  import opened RealMath
  import opened EvFlexibility
  import Wrappers

  datatype RawSession = RawSession(sessionId: string, arrivalStep: int, departureStep: int, requiredEnergyKwh: real,
                                   deliveredEnergyKwh: real, maxChargeKw: real, efficiency: real)

  datatype Error = SessionsRequired | InvalidHorizon | InvalidWindow | InvalidEnergy | DuplicateSession

  type Result<+T> = Wrappers.Result<T, Error>

  /** _normalize_session, on already typed fields. */
  function Normalize(raw: RawSession, horizon: nat): (r: Result<Session>)
    ensures r.Ok? ==> r.value.Valid(horizon) && r.value.id == raw.sessionId
  {
    if raw.sessionId == "" || !(0 <= raw.arrivalStep < raw.departureStep <= horizon) then
      Wrappers.Err(InvalidWindow)
    else if raw.requiredEnergyKwh < 0.0 || raw.deliveredEnergyKwh < 0.0
        || raw.deliveredEnergyKwh > raw.requiredEnergyKwh
        || raw.maxChargeKw <= 0.0 || !(0.8 <= raw.efficiency <= 1.0) then Wrappers.Err(InvalidEnergy)
    else
      Wrappers.Ok(Session(raw.sessionId, raw.arrivalStep, raw.departureStep,
                          raw.requiredEnergyKwh - raw.deliveredEnergyKwh, raw.maxChargeKw, raw.efficiency))
  }

  // ---------------------------------------------------------------------------------------
  // What it means to serve a vehicle
  // ---------------------------------------------------------------------------------------

  /** Energy that reaches the battery before boundary b. */
  function Charged(raw: RawSession, dt: real, power: seq<real>, b: nat): real
    requires b <= |power|
  {
    if b == 0 then 0.0 else Charged(raw, dt, power, b - 1) + Mul(power[b - 1], Mul(raw.efficiency, dt))
  }

  /** Charging at these powers respects the charger and the stay, and takes the battery from what it has
      to what it needs. */
  ghost predicate Serves(raw: RawSession, dt: real, power: seq<real>) {
    && (forall t :: 0 <= t < |power| ==>
          && 0.0 <= power[t] <= raw.maxChargeKw
          && (power[t] > 0.0 ==> raw.arrivalStep <= t < raw.departureStep))
    && raw.deliveredEnergyKwh + Charged(raw, dt, power, |power|) == raw.requiredEnergyKwh
  }

  ghost predicate Servable(raw: RawSession, dt: real, horizon: nat) {
    exists power: seq<real> :: |power| == horizon && Serves(raw, dt, power)
  }

  /** Some way to serve the vehicle has charged exactly this much at the boundary. */
  ghost predicate Reachable(raw: RawSession, dt: real, horizon: nat, b: nat, energy: real)
    requires b <= horizon
  {
    exists power: seq<real> :: |power| == horizon && Serves(raw, dt, power) && Charged(raw, dt, power, b) == energy
  }

  /** Full power over the whole stay. */
  function FullPower(raw: RawSession, horizon: nat): (power: seq<real>)
    ensures |power| == horizon
  {
    seq(horizon, t requires 0 <= t < horizon =>
      if raw.arrivalStep <= t < raw.departureStep then raw.maxChargeKw else 0.0)
  }

  /** Energy full power delivers before the boundary, and from it on. */
  function FullBefore(raw: RawSession, dt: real, horizon: nat, b: nat): real
    requires b <= horizon
  {
    Charged(raw, dt, FullPower(raw, horizon), b)
  }

  function FullAfter(raw: RawSession, dt: real, horizon: nat, b: nat): real
    requires b <= horizon
  {
    FullBefore(raw, dt, horizon, horizon) - FullBefore(raw, dt, horizon, b)
  }

  function Needed(raw: RawSession): real { raw.requiredEnergyKwh - raw.deliveredEnergyKwh }

  /** What full power over the whole stay would deliver. */
  function FullStay(raw: RawSession, dt: real): real {
    Mul((raw.departureStep - raw.arrivalStep) as real, Mul(raw.maxChargeKw, Mul(raw.efficiency, dt)))
  }

  lemma {:induction false} ChargedIsDelivered(raw: RawSession, s: Session, dt: real, power: seq<real>, b: nat)
    requires b <= |power| && s.efficiency == raw.efficiency
    ensures Charged(raw, dt, power, b) == Delivered(power, s.Unit(dt), b)
  {
    hide Mul;
    if b > 0 { ChargedIsDelivered(raw, s, dt, power, b - 1); }
  }

  /** An accepted session is served exactly by the schedules that meet the normalised one. */
  lemma ServesIffMeets(raw: RawSession, s: Session, dt: real, horizon: nat, power: seq<real>)
    requires Normalize(raw, horizon) == Wrappers.Ok(s) && |power| == horizon
    ensures Serves(raw, dt, power) <==> Meets(s, dt, power)
  {
    hide Mul;
    ChargedIsDelivered(raw, s, dt, power, horizon);
  }

  lemma ServableMeans(raw: RawSession, s: Session, dt: real, horizon: nat)
    requires Normalize(raw, horizon) == Wrappers.Ok(s) && dt > 0.0
    ensures Servable(raw, dt, horizon) <==> s.remaining <= s.Deliverable(dt)
  {
    hide Mul, Normalize, Serves, Meets;
    ServableIff(s, dt, horizon);
    if Servable(raw, dt, horizon) {
      var power: seq<real> :| |power| == horizon && Serves(raw, dt, power);
      ServesIffMeets(raw, s, dt, horizon, power);
    }
    if s.remaining <= s.Deliverable(dt) {
      var power: seq<real> :| |power| == horizon && Meets(s, dt, power);
      ServesIffMeets(raw, s, dt, horizon, power);
    }
  }

  /** A vehicle can be served exactly if full power over the stay delivers what it still needs. */
  lemma ServableIffDeliverable(raw: RawSession, horizon: nat, dt: real)
    requires Normalize(raw, horizon).Ok? && dt > 0.0
    ensures Servable(raw, dt, horizon) <==> Needed(raw) <= FullStay(raw, dt)
  {
    hide Mul;
    ServableMeans(raw, Normalize(raw, horizon).value, dt, horizon);
  }

  // ---------------------------------------------------------------------------------------
  // What the report says about one vehicle
  // ---------------------------------------------------------------------------------------

  ghost predicate Bounds(raw: RawSession, d: Detail, dt: real, horizon: nat, b: nat)
    requires b <= horizon && |d.lower| == |d.upper| == horizon + 1
  {
    && (forall power: seq<real> :: |power| == horizon && Serves(raw, dt, power) ==>
          d.lower[b] <= Charged(raw, dt, power, b) <= d.upper[b])
    && (Servable(raw, dt, horizon) ==>
        forall energy :: d.lower[b] <= energy <= d.upper[b] ==> Reachable(raw, dt, horizon, b, energy))
  }

  /** Served or not, at most what full power delivers, at least what full power could not make up for; and
      the latest schedule is full power as late as possible. */
  ghost predicate ByFullPower(raw: RawSession, d: Detail, dt: real, horizon: nat, b: nat)
    requires b <= horizon && |d.lower| == |d.upper| == horizon + 1 && |d.latest| == horizon
  {
    var need, most := Needed(raw), FullBefore(raw, dt, horizon, horizon);
    && d.upper[b] == Min(need, FullBefore(raw, dt, horizon, b))
    && d.lower[b] == Max(0.0, need - FullAfter(raw, dt, horizon, b))
    && Charged(raw, dt, d.latest, b) == Max(0.0, Min(need, most) - FullAfter(raw, dt, horizon, b))
  }

  lemma FullIsSlots(raw: RawSession, s: Session, dt: real, horizon: nat, b: nat)
    requires Normalize(raw, horizon) == Wrappers.Ok(s) && b <= horizon
    ensures FullBefore(raw, dt, horizon, b) == Mul(s.Elapsed(b) as real, s.Slot(dt))
    ensures FullAfter(raw, dt, horizon, b) == Mul(s.Future(b) as real, s.Slot(dt))
    ensures FullBefore(raw, dt, horizon, horizon) == s.Deliverable(dt) == FullStay(raw, dt)
  {
    hide Mul;
    var full := FullPower(raw, horizon);
    assert full == TwoRates(s, horizon, horizon, s.maxPower, s.maxPower);
    TwoRatesDeliver(s, dt, horizon, horizon, s.maxPower, s.maxPower, b);
    TwoRatesDeliver(s, dt, horizon, horizon, s.maxPower, s.maxPower, horizon);
    ChargedIsDelivered(raw, s, dt, full, b);
    ChargedIsDelivered(raw, s, dt, full, horizon);
    assert s.Elapsed(horizon) - s.Elapsed(b) == s.Future(b);
    MulSum(s.Slot(dt), s.Elapsed(b) as real, s.Future(b) as real);
  }

  lemma ByFullPowerHolds(raw: RawSession, s: Session, dt: real, horizon: nat, b: nat)
    requires Normalize(raw, horizon) == Wrappers.Ok(s) && s.Unit(dt) >= LEAST_UNIT && b <= horizon
    ensures ByFullPower(raw, DetailOf(s, dt, horizon), dt, horizon, b)
  {
    hide Mul, Charged, FullBefore, FullAfter, Latest, FullStay;
    FullIsSlots(raw, s, dt, horizon, b);
    LatestDelivers(s, dt, horizon, b);
    ChargedIsDelivered(raw, s, dt, DetailOf(s, dt, horizon).latest, b);
  }

  /** The bounds are those of all ways to serve the vehicle, and each value between them is reached; the
      latest schedule serves it along the lower bound; the flag is right but for the numerical slack. */
  ghost predicate SessionExact(raw: RawSession, d: Detail, dt: real, horizon: nat) {
    && d.sessionId == raw.sessionId && |d.lower| == |d.upper| == horizon + 1 && |d.latest| == horizon
    && (d.feasible <==> Needed(raw) <= FullStay(raw, dt) + 0.000000001)
    && (forall b :: 0 <= b <= horizon ==> Bounds(raw, d, dt, horizon, b) && ByFullPower(raw, d, dt, horizon, b))
    && (forall t :: 0 <= t < horizon ==> 0.0 <= d.latest[t] <= raw.maxChargeKw)
    && (Servable(raw, dt, horizon) ==>
        Serves(raw, dt, d.latest) && forall b :: 0 <= b <= horizon ==> Charged(raw, dt, d.latest, b) == d.lower[b])
  }

  lemma BoundsHold(raw: RawSession, s: Session, dt: real, horizon: nat, b: nat)
    requires Normalize(raw, horizon) == Wrappers.Ok(s) && dt > 0.0 && s.Unit(dt) >= LEAST_UNIT && b <= horizon
    ensures Bounds(raw, DetailOf(s, dt, horizon), dt, horizon, b)
  {
    hide Mul, Normalize, Serves, Meets, Servable, Delivered, Charged, Session.Lower, Session.Upper, Session.Unit,
      Session.ReportedFeasible, Session.Deliverable, Latest;
    var d := DetailOf(s, dt, horizon);
    assert s.Valid(horizon) && s.efficiency == raw.efficiency by { NormalizedFields(raw, s, horizon); }
    forall power: seq<real> | |power| == horizon && Serves(raw, dt, power)
      ensures d.lower[b] <= Charged(raw, dt, power, b) <= d.upper[b]
    {
      ServesIffMeets(raw, s, dt, horizon, power);
      EnvelopeSound(s, dt, power, b);
      ChargedIsDelivered(raw, s, dt, power, b);
    }
    if Servable(raw, dt, horizon) {
      ServableMeans(raw, s, dt, horizon);
      forall energy | d.lower[b] <= energy <= d.upper[b] ensures Reachable(raw, dt, horizon, b, energy) {
        var power := EnvelopeAttained(s, dt, horizon, b, energy);
        ServesIffMeets(raw, s, dt, horizon, power);
        ChargedIsDelivered(raw, s, dt, power, b);
      }
    }
  }

  lemma NormalizedFields(raw: RawSession, s: Session, horizon: nat)
    requires Normalize(raw, horizon) == Wrappers.Ok(s)
    ensures s.Valid(horizon) && s.efficiency == raw.efficiency && s.id == raw.sessionId
  {}

  lemma LatestWithinPower(s: Session, dt: real, horizon: nat)
    requires s.Valid(horizon) && s.Unit(dt) >= LEAST_UNIT
    ensures var latest := DetailOf(s, dt, horizon).latest;
            |latest| == horizon && forall t :: 0 <= t < horizon ==> 0.0 <= latest[t] <= s.maxPower
  {
    LatestDelivers(s, dt, horizon, 0);
  }

  lemma SessionIsExact(raw: RawSession, s: Session, dt: real, horizon: nat)
    requires Normalize(raw, horizon) == Wrappers.Ok(s) && dt > 0.0 && s.Unit(dt) >= LEAST_UNIT
    ensures SessionExact(raw, DetailOf(s, dt, horizon), dt, horizon)
  {
    hide Mul, Serves, Meets, Servable, Delivered, Charged, Bounds, Latest, ByFullPower;
    var d := DetailOf(s, dt, horizon);
    forall b | 0 <= b <= horizon ensures Bounds(raw, d, dt, horizon, b) && ByFullPower(raw, d, dt, horizon, b) {
      BoundsHold(raw, s, dt, horizon, b);
      ByFullPowerHolds(raw, s, dt, horizon, b);
    }
    LatestWithinPower(s, dt, horizon);
    if Servable(raw, dt, horizon) {
      ServableMeans(raw, s, dt, horizon);
      LatestIsLowerBound(s, dt, horizon, 0);
      ServesIffMeets(raw, s, dt, horizon, d.latest);
      forall b | 0 <= b <= horizon ensures Charged(raw, dt, d.latest, b) == d.lower[b] {
        LatestIsLowerBound(s, dt, horizon, b);
        ChargedIsDelivered(raw, s, dt, d.latest, b);
      }
    }
  }

  // ---------------------------------------------------------------------------------------
  // What it says about the fleet
  // ---------------------------------------------------------------------------------------

  /** One power sequence per vehicle, each serving its own. */
  ghost predicate FleetServes(raw: seq<RawSession>, dt: real, horizon: nat, powers: seq<seq<real>>) {
    |powers| == |raw| && forall i :: 0 <= i < |raw| ==> |powers[i]| == horizon && Serves(raw[i], dt, powers[i])
  }

  /** Energy that reaches the first k batteries before the boundary. */
  function FleetCharged(raw: seq<RawSession>, dt: real, powers: seq<seq<real>>, b: nat, k: nat): real
    requires k <= |raw| == |powers| && forall i :: 0 <= i < |powers| ==> b <= |powers[i]|
  {
    if k == 0 then 0.0 else FleetCharged(raw, dt, powers, b, k - 1) + Charged(raw[k - 1], dt, powers[k - 1], b)
  }

  ghost predicate FleetReachable(raw: seq<RawSession>, dt: real, horizon: nat, b: nat, energy: real)
    requires b <= horizon
  {
    exists powers: seq<seq<real>> ::
      FleetServes(raw, dt, horizon, powers) && FleetCharged(raw, dt, powers, b, |raw|) == energy
  }

  /** Chargers of the first k vehicles that are there in step t. */
  function Connected(raw: seq<RawSession>, t: int, k: nat): real
    requires k <= |raw|
  {
    if k == 0 then 0.0
    else Connected(raw, t, k - 1) +
         (if raw[k - 1].arrivalStep <= t < raw[k - 1].departureStep then raw[k - 1].maxChargeKw else 0.0)
  }

  function LatestTotal(details: seq<Detail>, t: nat, k: nat): real
    requires k <= |details| && forall i :: 0 <= i < |details| ==> t < |details[i].latest|
  {
    if k == 0 then 0.0 else LatestTotal(details, t, k - 1) + details[k - 1].latest[t]
  }

  ghost predicate FleetBounds(raw: seq<RawSession>, e: Envelope, dt: real, horizon: nat, b: nat)
    requires b <= horizon && |e.lower| == |e.upper| == horizon + 1
  {
    && (forall powers: seq<seq<real>> :: FleetServes(raw, dt, horizon, powers) ==>
          e.lower[b] <= FleetCharged(raw, dt, powers, b, |raw|) <= e.upper[b])
    && ((forall i :: 0 <= i < |raw| ==> Servable(raw[i], dt, horizon)) ==>
        forall energy :: e.lower[b] <= energy <= e.upper[b] ==> FleetReachable(raw, dt, horizon, b, energy))
  }

  /** Somebody cannot be served, and this is how much is missing. */
  ghost predicate Missing(raw: seq<RawSession>, dt: real, v: Violation) {
    exists i :: 0 <= i < |raw| && MissingAt(raw[i], dt, v)
  }

  ghost predicate MissingAt(r: RawSession, dt: real, v: Violation) {
    && v.sessionId == r.sessionId
    && v.shortfallKwh == Needed(r) - FullStay(r, dt)
    && v.shortfallKwh > 0.000000001
  }

  /** The whole report, in terms of the vehicles. */
  ghost predicate Exact(raw: seq<RawSession>, e: Envelope, dt: real, horizon: nat) {
    && |e.details| == |raw| && |e.lower| == |e.upper| == horizon + 1
    && |e.maximumCharge| == |e.baseline| == horizon
    && (forall i :: 0 <= i < |raw| ==> SessionExact(raw[i], e.details[i], dt, horizon))
    && (forall b :: 0 <= b <= horizon ==> FleetBounds(raw, e, dt, horizon, b))
    && (forall t :: 0 <= t < horizon ==>
          && e.maximumCharge[t] == Connected(raw, t, |raw|)
          && e.baseline[t] == LatestTotal(e.details, t, |raw|)
          && 0.0 <= e.baseline[t] <= e.maximumCharge[t])
    && (e.feasible <==> e.violations == [])
    && (forall v :: v in e.violations <==> Missing(raw, dt, v))
  }

  ghost predicate Normalized(raw: seq<RawSession>, sessions: seq<Session>, horizon: nat) {
    |raw| == |sessions| && forall i :: 0 <= i < |raw| ==> Normalize(raw[i], horizon) == Wrappers.Ok(sessions[i])
  }

  lemma {:induction false} FleetChargedIsDelivered(raw: seq<RawSession>, sessions: seq<Session>, dt: real, horizon: nat,
                                                   powers: seq<seq<real>>, b: nat, k: nat)
    requires Normalized(raw, sessions, horizon) && k <= |raw| == |powers|
    requires forall i :: 0 <= i < |powers| ==> b <= |powers[i]|
    ensures FleetCharged(raw, dt, powers, b, k) == FleetDelivered(sessions, dt, powers, b, k)
  {
    hide Charged, Delivered;
    if k > 0 {
      FleetChargedIsDelivered(raw, sessions, dt, horizon, powers, b, k - 1);
      ChargedIsDelivered(raw[k - 1], sessions[k - 1], dt, powers[k - 1], b);
    }
  }

  lemma FleetServesIffMeets(raw: seq<RawSession>, sessions: seq<Session>, dt: real, horizon: nat,
                            powers: seq<seq<real>>)
    requires Normalized(raw, sessions, horizon)
    ensures FleetServes(raw, dt, horizon, powers) <==> FleetMeets(sessions, dt, horizon, powers)
  {
    hide Serves, Meets;
    if |powers| == |raw| {
      forall i | 0 <= i < |raw| && |powers[i]| == horizon
        ensures Serves(raw[i], dt, powers[i]) <==> Meets(sessions[i], dt, powers[i])
      {
        ServesIffMeets(raw[i], sessions[i], dt, horizon, powers[i]);
      }
    }
  }

  lemma FleetBoundsHold(raw: seq<RawSession>, sessions: seq<Session>, e: Envelope, dt: real, horizon: nat, b: nat)
    requires Normalized(raw, sessions, horizon) && dt > 0.0 && b <= horizon && |e.lower| == |e.upper| == horizon + 1
    requires e.lower[b] == LowerSum(sessions, dt, b, |raw|) && e.upper[b] == UpperSum(sessions, dt, b, |raw|)
    ensures FleetBounds(raw, e, dt, horizon, b)
  {
    hide Normalize, Serves, Meets, Servable, LowerSum, UpperSum, FleetCharged, FleetDelivered, Session.Deliverable;
    assert Fleet(sessions, horizon) by { FleetIsValid(raw, sessions, horizon); }
    forall powers: seq<seq<real>> | FleetServes(raw, dt, horizon, powers)
      ensures e.lower[b] <= FleetCharged(raw, dt, powers, b, |raw|) <= e.upper[b]
    {
      FleetServesIffMeets(raw, sessions, dt, horizon, powers);
      FleetSound(sessions, dt, horizon, powers, b, |raw|);
      FleetChargedIsDelivered(raw, sessions, dt, horizon, powers, b, |raw|);
    }
    if forall i :: 0 <= i < |raw| ==> Servable(raw[i], dt, horizon) {
      forall i | 0 <= i < |sessions| ensures sessions[i].remaining <= sessions[i].Deliverable(dt) {
        ServableMeans(raw[i], sessions[i], dt, horizon);
      }
      forall energy | e.lower[b] <= energy <= e.upper[b] ensures FleetReachable(raw, dt, horizon, b, energy) {
        var powers := FleetAttained(sessions, dt, horizon, b, energy);
        FleetServesIffMeets(raw, sessions, dt, horizon, powers);
        FleetChargedIsDelivered(raw, sessions, dt, horizon, powers, b, |raw|);
      }
    }
  }

  lemma FleetIsValid(raw: seq<RawSession>, sessions: seq<Session>, horizon: nat)
    requires Normalized(raw, sessions, horizon)
    ensures Fleet(sessions, horizon)
  {
    hide Normalize;
    forall i | 0 <= i < |sessions| ensures sessions[i].Valid(horizon) {
      NormalizedFields(raw[i], sessions[i], horizon);
    }
  }

  lemma {:induction false} ConnectedIsPowerSum(raw: seq<RawSession>, sessions: seq<Session>, horizon: nat, t: nat,
                                               k: nat)
    requires Normalized(raw, sessions, horizon) && k <= |raw|
    ensures Connected(raw, t, k) == PowerSum(sessions, t, k)
  {
    if k > 0 { ConnectedIsPowerSum(raw, sessions, horizon, t, k - 1); }
  }

  lemma {:induction false} LatestTotalIsSum(sessions: seq<Session>, details: seq<Detail>, dt: real, horizon: nat,
                                            t: nat, k: nat)
    requires Fleet(sessions, horizon) && forall i :: 0 <= i < |sessions| ==> sessions[i].Unit(dt) >= LEAST_UNIT
    requires |details| == |sessions| && k <= |sessions| && t < horizon
    requires forall i :: 0 <= i < |sessions| ==> details[i] == DetailOf(sessions[i], dt, horizon)
    requires forall i :: 0 <= i < |details| ==> |details[i].latest| == horizon
    ensures LatestTotal(details, t, k) == LatestSum(sessions, dt, t, k)
  {
    hide LatestPower, Session.Unit;
    if k > 0 { LatestTotalIsSum(sessions, details, dt, horizon, t, k - 1); }
  }

  lemma {:induction false} ViolationsAreMissing(raw: seq<RawSession>, sessions: seq<Session>, dt: real, horizon: nat,
                                                k: nat, v: Violation)
    requires Normalized(raw, sessions, horizon) && Fleet(sessions, horizon) && k <= |raw|
    ensures v in Violations(sessions, dt, k) <==> exists i :: 0 <= i < k && MissingAt(raw[i], dt, v)
  {
    hide Mul;
    if k > 0 {
      ViolationsAreMissing(raw, sessions, dt, horizon, k - 1, v);
      var s := sessions[k - 1];
      assert v in Violations(sessions, dt, k) <==>
             v in Violations(sessions, dt, k - 1)
             || (!s.ReportedFeasible(dt) && v == Violation(s.id, s.remaining - s.Deliverable(dt)));
      assert MissingAt(raw[k - 1], dt, v) <==>
             !s.ReportedFeasible(dt) && v == Violation(s.id, s.remaining - s.Deliverable(dt));
    }
  }

  /** What describes the normalised fleet is exact for the vehicles. */
  lemma ReportIsExact(raw: seq<RawSession>, sessions: seq<Session>, e: Envelope, dt: real, horizon: nat)
    requires Normalized(raw, sessions, horizon) && Fleet(sessions, horizon) && dt > 0.0
    requires Describes(e, sessions, dt, horizon)
    ensures Exact(raw, e, dt, horizon)
  {
    hide Normalize, DetailOf, SessionExact, FleetBounds, LowerSum, UpperSum, PowerSum, LatestSum, Violations, Missing,
      Connected, LatestTotal, Session.Unit, Session.ReportedFeasible;
    forall i | 0 <= i < |raw| ensures SessionExact(raw[i], e.details[i], dt, horizon) {
      SessionIsExact(raw[i], sessions[i], dt, horizon);
    }
    forall b | 0 <= b <= horizon ensures FleetBounds(raw, e, dt, horizon, b) {
      FleetBoundsHold(raw, sessions, e, dt, horizon, b);
    }
    forall i | 0 <= i < |e.details| ensures |e.details[i].latest| == horizon {
      LatestLength(sessions[i], dt, horizon);
    }
    forall t | 0 <= t < horizon
      ensures e.maximumCharge[t] == Connected(raw, t, |raw|) && e.baseline[t] == LatestTotal(e.details, t, |raw|)
      ensures 0.0 <= e.baseline[t] <= e.maximumCharge[t]
    {
      ConnectedIsPowerSum(raw, sessions, horizon, t, |raw|);
      LatestTotalIsSum(sessions, e.details, dt, horizon, t, |raw|);
      BaselineWithinPower(sessions, dt, horizon, t, |raw|);
    }
    ViolationsAreReal(sessions, dt, |raw|);
    forall v ensures v in e.violations <==> Missing(raw, dt, v) { IsMissing(raw, sessions, dt, horizon, v); }
  }

  lemma LatestLength(s: Session, dt: real, horizon: nat)
    requires s.arrival <= s.departure && s.Unit(dt) >= LEAST_UNIT
    ensures |DetailOf(s, dt, horizon).latest| == horizon
  {}

  lemma IsMissing(raw: seq<RawSession>, sessions: seq<Session>, dt: real, horizon: nat, v: Violation)
    requires Normalized(raw, sessions, horizon) && Fleet(sessions, horizon)
    ensures v in Violations(sessions, dt, |raw|) <==> Missing(raw, dt, v)
  {
    hide MissingAt, Violations;
    ViolationsAreMissing(raw, sessions, dt, horizon, |raw|, v);
  }

  // ---------------------------------------------------------------------------------------
  // The report
  // ---------------------------------------------------------------------------------------

  /** A stay inside the horizon, by somebody. */
  predicate WindowOk(r: RawSession, horizon: int) {
    r.sessionId != "" && 0 <= r.arrivalStep < r.departureStep <= horizon
  }

  /** A battery that has between nothing and what it needs, on a charger with some power. */
  predicate EnergyOk(r: RawSession) {
    0.0 <= r.deliveredEnergyKwh <= r.requiredEnergyKwh && r.maxChargeKw > 0.0 && 0.8 <= r.efficiency <= 1.0
  }

  /** The first session that is refused. */
  ghost predicate FirstBad(raw: seq<RawSession>, horizon: int, i: int) {
    && 0 <= i < |raw| && !(WindowOk(raw[i], horizon) && EnergyOk(raw[i]))
    && forall j :: 0 <= j < i ==> WindowOk(raw[j], horizon) && EnergyOk(raw[j])
  }

  predicate SettingsOk(horizon: int, intervalMinutes: int) {
    1 <= horizon <= 672 && intervalMinutes in {5, 15, 30, 60}
  }

  /** Which inputs are refused, with which error; otherwise a report that is exact for the vehicles. */
  method AggregateEvFlexibility(raw: seq<RawSession>, horizon: int, intervalMinutes: int) returns (r: Result<Envelope>)
    ensures r == Wrappers.Err(SessionsRequired) <==> raw == []
    ensures r == Wrappers.Err(InvalidHorizon) <==> raw != [] && !SettingsOk(horizon, intervalMinutes)
    ensures raw != [] && SettingsOk(horizon, intervalMinutes) ==>
              && (forall i :: FirstBad(raw, horizon, i) ==>
                    r == Wrappers.Err(if WindowOk(raw[i], horizon) then InvalidEnergy else InvalidWindow))
              && (r == Wrappers.Err(DuplicateSession) <==>
                  (forall i :: 0 <= i < |raw| ==> WindowOk(raw[i], horizon) && EnergyOk(raw[i])) &&
                  exists i, j :: 0 <= i < j < |raw| && raw[i].sessionId == raw[j].sessionId)
    ensures r.Ok? <==>
              && raw != [] && SettingsOk(horizon, intervalMinutes)
              && (forall i :: 0 <= i < |raw| ==> WindowOk(raw[i], horizon) && EnergyOk(raw[i]))
              && (forall i, j :: 0 <= i < j < |raw| ==> raw[i].sessionId != raw[j].sessionId)
    ensures r.Ok? ==> Exact(raw, r.value, intervalMinutes as real / 60.0, horizon)
  {
    hide Exact, Describes;
    if raw == [] {
      return Wrappers.Err(SessionsRequired);
    }
    if !(1 <= horizon <= 672) || intervalMinutes !in {5, 15, 30, 60} {
      return Wrappers.Err(InvalidHorizon);
    }
    var dt := intervalMinutes as real / 60.0;
    var sessions: seq<Session> := [];
    for i := 0 to |raw|
      invariant |sessions| == i && Fleet(sessions, horizon)
      invariant forall j :: 0 <= j < i ==> Normalize(raw[j], horizon) == Wrappers.Ok(sessions[j])
      invariant forall j :: 0 <= j < i ==> WindowOk(raw[j], horizon) && EnergyOk(raw[j])
    {
      var normalized := Normalize(raw[i], horizon);
      if normalized.Err? {
        return Wrappers.Err(normalized.error);
      }
      sessions := sessions + [normalized.value];
    }
    if exists i, j :: 0 <= i < j < |sessions| && sessions[i].id == sessions[j].id {
      return Wrappers.Err(DuplicateSession);
    }
    var envelope := Accumulate(sessions, dt, horizon);
    ReportIsExact(raw, sessions, envelope, dt, horizon);
    return Wrappers.Ok(envelope);
  }
}
