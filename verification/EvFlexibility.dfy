/** Deadline-aware charging flexibility (aggregate_ev_flexibility in grid_ems.py): cumulative energy
    envelopes per session and for the fleet, and the latest schedule that still meets the deadline. */
module EvFlexibility {
  import opened RealMath

  const FEASIBILITY_SLACK: real := 0.000000001

  const LEAST_UNIT: real := 0.000000000001

  datatype Session = Session(id: string, arrival: nat, departure: nat, remaining: real, maxPower: real,
                             efficiency: real)
  {
    ghost predicate Valid(horizon: nat) {
      && arrival < departure <= horizon
      && remaining >= 0.0 && maxPower > 0.0 && 0.8 <= efficiency <= 1.0
    }

    /** Energy stored per kilowatt and step. */
    function Unit(dt: real): real { Mul(efficiency, dt) }

    /** Energy stored by a step at full power. */
    function Slot(dt: real): real { Mul(maxPower, Unit(dt)) }

    function Deliverable(dt: real): real
      requires arrival <= departure
    {
      Mul((departure - arrival) as real, Slot(dt))
    }

    /** Steps between arrival and departure that lie before the boundary. */
    function Elapsed(b: nat): nat {
      var end := if b < departure then b else departure;
      if end > arrival then end - arrival else 0
    }

    /** Steps between arrival and departure that lie after the boundary. */
    function Future(b: nat): nat {
      var start := if b > arrival then b else arrival;
      if departure > start then departure - start else 0
    }

    function Lower(dt: real, b: nat): real { Max(0.0, remaining - Mul(Future(b) as real, Slot(dt))) }

    function Upper(dt: real, b: nat): real { Min(remaining, Mul(Elapsed(b) as real, Slot(dt))) }

    /** The flag the source reports. */
    predicate ReportedFeasible(dt: real)
      requires arrival <= departure
    {
      Deliverable(dt) + FEASIBILITY_SLACK >= remaining
    }
  }

  // ---------------------------------------------------------------------------------------
  // Charging schedules, the reference the envelopes are measured against
  // ---------------------------------------------------------------------------------------

  /** Power within limits, and none outside the session's window. */
  ghost predicate Follows(s: Session, power: seq<real>) {
    forall t :: 0 <= t < |power| ==>
      0.0 <= power[t] <= s.maxPower && (t < s.arrival || t >= s.departure ==> power[t] == 0.0)
  }

  /** Energy stored before boundary b. */
  function Delivered(power: seq<real>, unit: real, b: nat): real
    requires b <= |power|
  {
    if b == 0 then 0.0 else Delivered(power, unit, b - 1) + Mul(power[b - 1], unit)
  }

  /** A schedule that respects the window and delivers exactly what remains by the deadline. */
  ghost predicate Meets(s: Session, dt: real, power: seq<real>) {
    Follows(s, power) && Delivered(power, s.Unit(dt), |power|) == s.remaining
  }

  // ---------------------------------------------------------------------------------------
  // Every schedule stays inside the envelope
  // ---------------------------------------------------------------------------------------

  lemma SlotBound(s: Session, dt: real, p: real)
    requires dt > 0.0 && s.efficiency > 0.0 && 0.0 <= p <= s.maxPower
    ensures 0.0 <= Mul(p, s.Unit(dt)) <= s.Slot(dt) && s.Unit(dt) > 0.0
  {
    hide Mul;
    MulPositive(s.efficiency, dt);
    MulNonNegative(p, s.Unit(dt));
    MulOrder(p, s.maxPower, s.Unit(dt));
  }

  lemma {:induction false} DeliveredWithinElapsed(s: Session, dt: real, power: seq<real>, b: nat)
    requires s.Valid(|power|) && dt > 0.0 && Follows(s, power) && b <= |power|
    ensures 0.0 <= Delivered(power, s.Unit(dt), b) <= Mul(s.Elapsed(b) as real, s.Slot(dt))
  {
    hide Mul;
    if b == 0 {
      MulSuccessor(0, s.Slot(dt));
    } else {
      DeliveredWithinElapsed(s, dt, power, b - 1);
      SlotBound(s, dt, power[b - 1]);
      if s.arrival <= b - 1 < s.departure {
        assert s.Elapsed(b) == s.Elapsed(b - 1) + 1;
        MulSuccessor(s.Elapsed(b - 1), s.Slot(dt));
      } else {
        assert s.Elapsed(b) == s.Elapsed(b - 1);
        MulZero(s.Unit(dt));
      }
    }
  }

  lemma {:induction false} RestWithinFuture(s: Session, dt: real, power: seq<real>, b: nat)
    requires s.Valid(|power|) && dt > 0.0 && Follows(s, power) && b <= |power|
    ensures var rest := Delivered(power, s.Unit(dt), |power|) - Delivered(power, s.Unit(dt), b);
            0.0 <= rest <= Mul(s.Future(b) as real, s.Slot(dt))
    decreases |power| - b
  {
    hide Mul;
    if b == |power| {
      assert s.Future(b) == 0;
      MulSuccessor(0, s.Slot(dt));
    } else {
      RestWithinFuture(s, dt, power, b + 1);
      SlotBound(s, dt, power[b]);
      if s.arrival <= b < s.departure {
        assert s.Future(b) == s.Future(b + 1) + 1;
        MulSuccessor(s.Future(b + 1), s.Slot(dt));
      } else {
        assert s.Future(b) == s.Future(b + 1);
        MulZero(s.Unit(dt));
      }
    }
  }

  /** Soundness: a schedule that meets the deadline is between the bounds at every boundary. */
  lemma EnvelopeSound(s: Session, dt: real, power: seq<real>, b: nat)
    requires s.Valid(|power|) && dt > 0.0 && Meets(s, dt, power) && b <= |power|
    ensures s.Lower(dt, b) <= Delivered(power, s.Unit(dt), b) <= s.Upper(dt, b)
  {
    DeliveredWithinElapsed(s, dt, power, b);
    RestWithinFuture(s, dt, power, b);
  }

  // ---------------------------------------------------------------------------------------
  // Every value inside the envelope is attained
  // ---------------------------------------------------------------------------------------

  /** Constant power `before` up to boundary b, then constant power `after`, inside the window. */
  function TwoRates(s: Session, horizon: nat, b: nat, before: real, after: real): (power: seq<real>)
    ensures |power| == horizon
  {
    seq(horizon, t requires 0 <= t < horizon =>
      if t < s.arrival || t >= s.departure then 0.0 else if t < b then before else after)
  }

  lemma {:induction false} TwoRatesDeliver(s: Session, dt: real, horizon: nat, b: nat, before: real, after: real,
                                           k: nat)
    requires s.Valid(horizon) && b <= horizon && k <= horizon
    ensures Delivered(TwoRates(s, horizon, b, before, after), s.Unit(dt), k) ==
            if k <= b then Mul(s.Elapsed(k) as real, Mul(before, s.Unit(dt)))
            else Mul(s.Elapsed(b) as real, Mul(before, s.Unit(dt))) +
                 Mul((s.Elapsed(k) - s.Elapsed(b)) as real, Mul(after, s.Unit(dt)))
  {
    hide Mul;
    var unit := s.Unit(dt);
    if k == 0 {
      MulSuccessor(0, Mul(before, unit));
    } else {
      TwoRatesDeliver(s, dt, horizon, b, before, after, k - 1);
      MulSuccessor(s.Elapsed(k - 1), Mul(before, unit));
      MulZero(unit);
      if k > b {
        MulSuccessor(s.Elapsed(k - 1) - s.Elapsed(b), Mul(after, unit));
      }
    }
  }

  /** The constant power that spreads `energy` over n steps, within limits if the energy is. */
  function Rate(s: Session, dt: real, energy: real, n: nat): real {
    if n == 0 || s.Unit(dt) == 0.0 then 0.0 else energy / n as real / s.Unit(dt)
  }

  lemma RateDelivers(s: Session, dt: real, energy: real, n: nat)
    requires dt > 0.0 && s.efficiency > 0.0 && s.maxPower > 0.0
    requires 0.0 <= energy <= Mul(n as real, s.Slot(dt))
    ensures Mul(n as real, Mul(Rate(s, dt, energy, n), s.Unit(dt))) == energy
    ensures 0.0 <= Rate(s, dt, energy, n) <= s.maxPower
  {
    hide Mul;
    SlotBound(s, dt, 0.0);
    if n == 0 {
      MulSuccessor(0, s.Slot(dt));
      MulSuccessor(0, Mul(Rate(s, dt, energy, n), s.Unit(dt)));
    } else {
      var share := energy / n as real;
      MulQuotient(share, s.Unit(dt));
      MulQuotient(energy, n as real);
      MulCommutes(share, n as real);
      QuotientBound(energy, s.Slot(dt), n as real);
      MulCommutes(s.maxPower, s.Unit(dt));
      QuotientBound(share, s.maxPower, s.Unit(dt));
    }
  }

  lemma QuotientBound(a: real, b: real, d: real)
    requires d > 0.0 && 0.0 <= a <= Mul(d, b)
    ensures 0.0 <= a / d <= b
  {
    MulQuotient(a, d);
  }

  /** Completeness: if the session can be served at all, every energy between the bounds at a boundary
      is reached there by some schedule that meets the deadline. */
  lemma EnvelopeAttained(s: Session, dt: real, horizon: nat, b: nat, energy: real) returns (power: seq<real>)
    requires s.Valid(horizon) && dt > 0.0 && b <= horizon && s.remaining <= s.Deliverable(dt)
    requires s.Lower(dt, b) <= energy <= s.Upper(dt, b)
    ensures |power| == horizon && Meets(s, dt, power) && Delivered(power, s.Unit(dt), b) == energy
  {
    hide Mul, Rate;
    var before, after := Rate(s, dt, energy, s.Elapsed(b)), Rate(s, dt, s.remaining - energy, s.Future(b));
    SlotBound(s, dt, 0.0);
    RateDelivers(s, dt, energy, s.Elapsed(b));
    RateDelivers(s, dt, s.remaining - energy, s.Future(b));
    power := TwoRates(s, horizon, b, before, after);
    TwoRatesDeliver(s, dt, horizon, b, before, after, b);
    TwoRatesDeliver(s, dt, horizon, b, before, after, horizon);
    assert s.Elapsed(horizon) - s.Elapsed(b) == s.Future(b);
    MulSuccessor(0, Mul(after, s.Unit(dt)));
  }

  /** The bounds are in order at every boundary exactly when the session can be served. */
  lemma ServableIff(s: Session, dt: real, horizon: nat)
    requires s.Valid(horizon) && dt > 0.0
    ensures s.remaining <= s.Deliverable(dt) <==> exists power: seq<real> :: |power| == horizon && Meets(s, dt, power)
  {
    hide Mul;
    if s.remaining <= s.Deliverable(dt) {
      assert s.Elapsed(0) == 0 && s.Future(0) == s.departure - s.arrival;
      MulSuccessor(0, s.Slot(dt));
      var power := EnvelopeAttained(s, dt, horizon, 0, 0.0);
    }
    if power: seq<real> :| |power| == horizon && Meets(s, dt, power) {
      DeliveredWithinElapsed(s, dt, power, horizon);
      assert s.Elapsed(horizon) == s.departure - s.arrival;
    }
  }

  /** The reported flag agrees with the existence of a schedule exactly when what remains is not inside
      the numerical slack above what can be delivered. */
  lemma ReportedFeasibleIff(s: Session, dt: real, horizon: nat)
    requires s.Valid(horizon) && dt > 0.0
    ensures (s.ReportedFeasible(dt) <==> exists power: seq<real> :: |power| == horizon && Meets(s, dt, power)) <==>
            !(s.Deliverable(dt) < s.remaining <= s.Deliverable(dt) + FEASIBILITY_SLACK)
  {
    ServableIff(s, dt, horizon);
  }

  /** One such session: one hour at one kilowatt, half a nano-kilowatt-hour too much to deliver. */
  lemma ReportedFeasibleCounterexample()
    ensures var s := Session("s", 0, 1, 1.0000000005, 1.0, 1.0);
            s.Valid(1) && s.ReportedFeasible(1.0) && !exists power: seq<real> :: |power| == 1 && Meets(s, 1.0, power)
  {
    var s := Session("s", 0, 1, 1.0000000005, 1.0, 1.0);
    assert s.Deliverable(1.0) == 1.0;
    ServableIff(s, 1.0, 1);
  }

  // ---------------------------------------------------------------------------------------
  // The latest schedule
  // ---------------------------------------------------------------------------------------

  /** What the backward fill starts from. */
  function Goal(s: Session, dt: real): real
    requires s.arrival <= s.departure
  {
    Min(s.remaining, s.Deliverable(dt))
  }

  /** What the backward fill has left when it has handled every step from t on. */
  function Left(s: Session, dt: real, t: nat): real
    requires s.arrival <= s.departure
  {
    Max(0.0, Goal(s, dt) - Mul(s.Future(t) as real, s.Slot(dt)))
  }

  function LatestPower(s: Session, dt: real, t: nat): real
    requires s.arrival <= s.departure && s.Unit(dt) >= LEAST_UNIT
  {
    if t < s.arrival || t >= s.departure then 0.0 else Min(s.maxPower, Left(s, dt, t + 1) / s.Unit(dt))
  }

  method LatestSchedule(s: Session, dt: real, horizon: nat) returns (latest: array<real>)
    requires s.Valid(horizon) && s.Unit(dt) >= LEAST_UNIT
    ensures fresh(latest) && latest.Length == horizon
    ensures forall t :: 0 <= t < horizon ==> latest[t] == LatestPower(s, dt, t)
  {
    hide Mul;
    latest := new real[horizon](t => 0.0);
    var energyLeft := Min(s.remaining, s.Deliverable(dt));
    LeftAtDeparture(s, dt);
    for step := s.departure downto s.arrival
      invariant energyLeft == Left(s, dt, step)
      invariant forall t :: 0 <= t < horizon ==> latest[t] == if t < step then 0.0 else LatestPower(s, dt, t)
    {
      var gridKw := Min(s.maxPower, energyLeft / Max(LEAST_UNIT, s.Unit(dt)));
      latest[step] := gridKw;
      LeftStep(s, dt, step);
      energyLeft := energyLeft - Mul(gridKw, s.Unit(dt));
    }
  }

  lemma LeftAtDeparture(s: Session, dt: real)
    requires s.arrival < s.departure && s.remaining >= 0.0 && s.maxPower > 0.0 && s.Unit(dt) >= LEAST_UNIT
    ensures Left(s, dt, s.departure) == Goal(s, dt)
  {
    hide Mul;
    MulSuccessor(0, s.Slot(dt));
    MulNonNegative(s.maxPower, s.Unit(dt));
    MulNonNegative((s.departure - s.arrival) as real, s.Slot(dt));
    assert s.Future(s.departure) == 0;
  }

  lemma LeftStep(s: Session, dt: real, t: nat)
    requires s.arrival <= t < s.departure && s.maxPower > 0.0 && s.Unit(dt) >= LEAST_UNIT
    ensures Left(s, dt, t) == Left(s, dt, t + 1) - Mul(LatestPower(s, dt, t), s.Unit(dt))
    ensures 0.0 <= LatestPower(s, dt, t) <= s.maxPower
  {
    hide Mul;
    var left := Left(s, dt, t + 1);
    assert s.Future(t) == s.Future(t + 1) + 1;
    MulSuccessor(s.Future(t + 1), s.Slot(dt));
    MulQuotient(left, s.Unit(dt));
    MulPositive(s.maxPower, s.Unit(dt));
    if left / s.Unit(dt) <= s.maxPower {
      MulOrder(left / s.Unit(dt), s.maxPower, s.Unit(dt));
    } else {
      MulOrder(s.maxPower, left / s.Unit(dt), s.Unit(dt));
    }
    NonNegativeQuotient(left, s.Unit(dt));
  }

  lemma NonNegativeQuotient(a: real, b: real)
    requires a >= 0.0 && b > 0.0
    ensures a / b >= 0.0
  {}

  /** The latest schedule as a sequence. */
  function Latest(s: Session, dt: real, horizon: nat): (power: seq<real>)
    requires s.arrival <= s.departure && s.Unit(dt) >= LEAST_UNIT
    ensures |power| == horizon
  {
    seq(horizon, t requires 0 <= t < horizon => LatestPower(s, dt, t))
  }

  /** At every boundary the latest schedule has delivered exactly what the backward fill had left. */
  lemma {:induction false} LatestDelivers(s: Session, dt: real, horizon: nat, b: nat)
    requires s.Valid(horizon) && s.Unit(dt) >= LEAST_UNIT && b <= horizon
    ensures Delivered(Latest(s, dt, horizon), s.Unit(dt), b) == Left(s, dt, b)
    ensures Follows(s, Latest(s, dt, horizon))
  {
    hide Mul;
    forall t | 0 <= t < horizon ensures 0.0 <= LatestPower(s, dt, t) <= s.maxPower {
      if s.arrival <= t < s.departure { LeftStep(s, dt, t); }
    }
    if b == 0 {
      assert s.Future(0) == s.departure - s.arrival;
    } else {
      LatestDelivers(s, dt, horizon, b - 1);
      if s.arrival <= b - 1 < s.departure {
        LeftStep(s, dt, b - 1);
      } else {
        assert s.Future(b) == s.Future(b - 1);
        MulZero(s.Unit(dt));
      }
    }
  }

  /** For a session that can be served, the latest schedule meets the deadline and runs along the
      lower bound at every boundary: nothing feasible is ever behind it. */
  lemma LatestIsLowerBound(s: Session, dt: real, horizon: nat, b: nat)
    requires s.Valid(horizon) && s.Unit(dt) >= LEAST_UNIT && b <= horizon && s.remaining <= s.Deliverable(dt)
    ensures Delivered(Latest(s, dt, horizon), s.Unit(dt), b) == s.Lower(dt, b)
    ensures Meets(s, dt, Latest(s, dt, horizon))
  {
    hide Mul;
    LatestDelivers(s, dt, horizon, b);
    LatestDelivers(s, dt, horizon, horizon);
    MulSuccessor(0, s.Slot(dt));
    assert s.Future(horizon) == 0;
  }

  // ---------------------------------------------------------------------------------------
  // The fleet
  // ---------------------------------------------------------------------------------------

  ghost predicate Fleet(sessions: seq<Session>, horizon: nat) {
    forall i :: 0 <= i < |sessions| ==> sessions[i].Valid(horizon)
  }

  function LowerSum(sessions: seq<Session>, dt: real, b: nat, k: nat): real
    requires k <= |sessions|
  {
    if k == 0 then 0.0 else LowerSum(sessions, dt, b, k - 1) + sessions[k - 1].Lower(dt, b)
  }

  function UpperSum(sessions: seq<Session>, dt: real, b: nat, k: nat): real
    requires k <= |sessions|
  {
    if k == 0 then 0.0 else UpperSum(sessions, dt, b, k - 1) + sessions[k - 1].Upper(dt, b)
  }

  function PowerSum(sessions: seq<Session>, t: nat, k: nat): real
    requires k <= |sessions|
  {
    if k == 0 then 0.0
    else PowerSum(sessions, t, k - 1) +
         (if sessions[k - 1].arrival <= t < sessions[k - 1].departure then sessions[k - 1].maxPower else 0.0)
  }

  function LatestSum(sessions: seq<Session>, dt: real, t: nat, k: nat): real
    requires k <= |sessions|
    requires forall i :: 0 <= i < |sessions| ==>
             sessions[i].arrival <= sessions[i].departure && sessions[i].Unit(dt) >= LEAST_UNIT
  {
    if k == 0 then 0.0 else LatestSum(sessions, dt, t, k - 1) + LatestPower(sessions[k - 1], dt, t)
  }

  /** One schedule per session, each meeting its deadline. */
  ghost predicate FleetMeets(sessions: seq<Session>, dt: real, horizon: nat, powers: seq<seq<real>>) {
    |powers| == |sessions| &&
    forall i :: 0 <= i < |sessions| ==> |powers[i]| == horizon && Meets(sessions[i], dt, powers[i])
  }

  function FleetDelivered(sessions: seq<Session>, dt: real, powers: seq<seq<real>>, b: nat, k: nat): real
    requires k <= |sessions| == |powers| && forall i :: 0 <= i < |powers| ==> b <= |powers[i]|
  {
    if k == 0 then 0.0
    else FleetDelivered(sessions, dt, powers, b, k - 1) + Delivered(powers[k - 1], sessions[k - 1].Unit(dt), b)
  }

  /** Soundness of the aggregate envelope. */
  lemma {:induction false} FleetSound(sessions: seq<Session>, dt: real, horizon: nat, powers: seq<seq<real>>, b: nat,
                                      k: nat)
    requires Fleet(sessions, horizon) && dt > 0.0 && FleetMeets(sessions, dt, horizon, powers)
    requires b <= horizon && k <= |sessions|
    ensures LowerSum(sessions, dt, b, k) <= FleetDelivered(sessions, dt, powers, b, k) <= UpperSum(sessions, dt, b, k)
  {
    if k > 0 {
      FleetSound(sessions, dt, horizon, powers, b, k - 1);
      EnvelopeSound(sessions[k - 1], dt, powers[k - 1], b);
    }
  }

  lemma {:induction false} FleetDeliveredPrefix(sessions: seq<Session>, dt: real, p: seq<seq<real>>, q: seq<seq<real>>,
                                                b: nat, k: nat, m: nat)
    requires k <= m <= |sessions| && |p| == m && |q| == |sessions| && p == q[..m]
    requires forall i :: 0 <= i < |q| ==> b <= |q[i]|
    ensures FleetDelivered(sessions[..m], dt, p, b, k) == FleetDelivered(sessions, dt, q, b, k)
  {
    if k > 0 { FleetDeliveredPrefix(sessions, dt, p, q, b, k - 1, m); }
  }

  lemma {:induction false} BoundsPrefix(sessions: seq<Session>, dt: real, b: nat, m: nat, k: nat)
    requires k <= m <= |sessions|
    ensures LowerSum(sessions[..m], dt, b, k) == LowerSum(sessions, dt, b, k)
    ensures UpperSum(sessions[..m], dt, b, k) == UpperSum(sessions, dt, b, k)
  {
    if k > 0 { BoundsPrefix(sessions, dt, b, m, k - 1); }
  }

  lemma {:induction false} BoundsOrdered(sessions: seq<Session>, dt: real, horizon: nat, b: nat, k: nat)
    requires Fleet(sessions, horizon) && dt > 0.0 && b <= horizon && k <= |sessions|
    requires forall i :: 0 <= i < |sessions| ==> sessions[i].remaining <= sessions[i].Deliverable(dt)
    ensures LowerSum(sessions, dt, b, k) <= UpperSum(sessions, dt, b, k)
  {
    if k > 0 {
      BoundsOrdered(sessions, dt, horizon, b, k - 1);
      SessionOrdered(sessions[k - 1], dt, horizon, b);
    }
  }

  lemma SessionOrdered(s: Session, dt: real, horizon: nat, b: nat)
    requires s.Valid(horizon) && dt > 0.0 && b <= horizon && s.remaining <= s.Deliverable(dt)
    ensures s.Lower(dt, b) <= s.Upper(dt, b)
  {
    ServableIff(s, dt, horizon);
    var power: seq<real> :| |power| == horizon && Meets(s, dt, power);
    EnvelopeSound(s, dt, power, b);
  }

  /** Completeness of the aggregate envelope: every total between the aggregate bounds at a boundary is
      reached there by some choice of schedules that all meet their deadlines. */
  lemma {:induction false} FleetAttained(sessions: seq<Session>, dt: real, horizon: nat, b: nat, energy: real)
    returns (powers: seq<seq<real>>)
    requires Fleet(sessions, horizon) && dt > 0.0 && b <= horizon
    requires forall i :: 0 <= i < |sessions| ==> sessions[i].remaining <= sessions[i].Deliverable(dt)
    requires LowerSum(sessions, dt, b, |sessions|) <= energy <= UpperSum(sessions, dt, b, |sessions|)
    ensures FleetMeets(sessions, dt, horizon, powers)
    ensures FleetDelivered(sessions, dt, powers, b, |sessions|) == energy
  {
    var n := |sessions|;
    if n == 0 {
      powers := [];
    } else {
      hide Delivered, Meets, LowerSum, UpperSum, Mul, Session.Lower, Session.Upper, Session.Deliverable;
      var init, last := sessions[..n - 1], sessions[n - 1];
      var share := ShareOfLast(sessions, dt, horizon, b, energy);
      var rest := FleetAttained(init, dt, horizon, b, energy - share);
      var power := EnvelopeAttained(last, dt, horizon, b, share);
      powers := rest + [power];
      FleetDeliveredPrefix(sessions, dt, rest, powers, b, n - 1, n - 1);
    }
  }

  /** An energy the last session can take so that the others can take the rest. */
  lemma ShareOfLast(sessions: seq<Session>, dt: real, horizon: nat, b: nat, energy: real) returns (share: real)
    requires |sessions| > 0 && Fleet(sessions, horizon) && dt > 0.0 && b <= horizon
    requires forall i :: 0 <= i < |sessions| ==> sessions[i].remaining <= sessions[i].Deliverable(dt)
    requires LowerSum(sessions, dt, b, |sessions|) <= energy <= UpperSum(sessions, dt, b, |sessions|)
    ensures var n := |sessions|;
            var init, last := sessions[..n - 1], sessions[n - 1];
            && last.Lower(dt, b) <= share <= last.Upper(dt, b)
            && LowerSum(init, dt, b, n - 1) <= energy - share <= UpperSum(init, dt, b, n - 1)
  {
    hide LowerSum, UpperSum, Mul, Session.Lower, Session.Upper, Session.Deliverable;
    var n := |sessions|;
    var init, last := sessions[..n - 1], sessions[n - 1];
    SumsStep(sessions, dt, b);
    BoundsPrefix(sessions, dt, b, n - 1, n - 1);
    BoundsOrdered(init, dt, horizon, b, n - 1);
    SessionOrdered(last, dt, horizon, b);
    share := Max(last.Lower(dt, b), energy - UpperSum(init, dt, b, n - 1));
  }

  lemma SumsStep(sessions: seq<Session>, dt: real, b: nat)
    requires |sessions| > 0
    ensures var n := |sessions|;
            && LowerSum(sessions, dt, b, n) == LowerSum(sessions, dt, b, n - 1) + sessions[n - 1].Lower(dt, b)
            && UpperSum(sessions, dt, b, n) == UpperSum(sessions, dt, b, n - 1) + sessions[n - 1].Upper(dt, b)
  {}

  // ---------------------------------------------------------------------------------------
  // The loops of the source
  // ---------------------------------------------------------------------------------------

  /** One session's part of the report. */
  datatype Detail = Detail(sessionId: string, feasible: bool, lower: seq<real>, upper: seq<real>, latest: seq<real>)

  datatype Violation = Violation(sessionId: string, shortfallKwh: real)

  datatype Envelope = Envelope(feasible: bool, lower: seq<real>, upper: seq<real>, maximumCharge: seq<real>,
                               baseline: seq<real>, violations: seq<Violation>, details: seq<Detail>)

  function DetailOf(s: Session, dt: real, horizon: nat): Detail
    requires s.arrival <= s.departure && s.Unit(dt) >= LEAST_UNIT
  {
    Detail(s.id, s.ReportedFeasible(dt), seq(horizon + 1, b requires 0 <= b => s.Lower(dt, b)),
           seq(horizon + 1, b requires 0 <= b => s.Upper(dt, b)), Latest(s, dt, horizon))
  }

  /** The sessions among the first k that are reported infeasible, in order. */
  function Violations(sessions: seq<Session>, dt: real, k: nat): seq<Violation>
    requires k <= |sessions| && forall i :: 0 <= i < |sessions| ==> sessions[i].arrival <= sessions[i].departure
  {
    if k == 0 then []
    else
      var s := sessions[k - 1];
      Violations(sessions, dt, k - 1) +
      (if s.ReportedFeasible(dt) then [] else [Violation(s.id, s.remaining - s.Deliverable(dt))])
  }

  /** A violation is listed for an infeasible session only, and its shortfall exceeds the slack. */
  lemma {:induction false} ViolationsAreReal(sessions: seq<Session>, dt: real, k: nat)
    requires k <= |sessions| && forall i :: 0 <= i < |sessions| ==> sessions[i].arrival <= sessions[i].departure
    ensures Violations(sessions, dt, k) == [] <==> forall i :: 0 <= i < k ==> sessions[i].ReportedFeasible(dt)
    ensures forall v :: v in Violations(sessions, dt, k) ==> v.shortfallKwh > FEASIBILITY_SLACK
  {
    if k > 0 { ViolationsAreReal(sessions, dt, k - 1); }
  }

  /** Adds one session's bounds to the aggregate envelope. */
  method AddBounds(sessions: seq<Session>, k: nat, dt: real, lower: array<real>, upper: array<real>)
    requires k < |sessions| && lower.Length == upper.Length && lower != upper
    requires forall b :: 0 <= b < lower.Length ==>
             lower[b] == LowerSum(sessions, dt, b, k) && upper[b] == UpperSum(sessions, dt, b, k)
    modifies lower, upper
    ensures forall b :: 0 <= b < lower.Length ==>
            lower[b] == LowerSum(sessions, dt, b, k + 1) && upper[b] == UpperSum(sessions, dt, b, k + 1)
  {
    hide Mul;
    var s := sessions[k];
    for b := 0 to lower.Length
      invariant forall c :: 0 <= c < lower.Length ==> lower[c] == LowerSum(sessions, dt, c, if c < b then k + 1 else k)
      invariant forall c :: 0 <= c < lower.Length ==> upper[c] == UpperSum(sessions, dt, c, if c < b then k + 1 else k)
    {
      lower[b] := lower[b] + s.Lower(dt, b);
      upper[b] := upper[b] + s.Upper(dt, b);
    }
  }

  /** Adds one session's connected power and its latest schedule to the fleet's. */
  method AddPower(sessions: seq<Session>, k: nat, dt: real, horizon: nat, maximumCharge: array<real>,
                  baseline: array<real>)
    requires k < |sessions| && Fleet(sessions, horizon)
    requires forall i :: 0 <= i < |sessions| ==> sessions[i].Unit(dt) >= LEAST_UNIT
    requires maximumCharge.Length == baseline.Length == horizon && maximumCharge != baseline
    requires forall t :: 0 <= t < horizon ==>
             maximumCharge[t] == PowerSum(sessions, t, k) && baseline[t] == LatestSum(sessions, dt, t, k)
    modifies maximumCharge, baseline
    ensures forall t :: 0 <= t < horizon ==>
            maximumCharge[t] == PowerSum(sessions, t, k + 1) && baseline[t] == LatestSum(sessions, dt, t, k + 1)
  {
    hide Mul;
    var s := sessions[k];
    for t := s.arrival to s.departure
      invariant forall c :: 0 <= c < horizon ==>
                  maximumCharge[c] == if c < s.arrival || c >= t then PowerSum(sessions, c, k)
                      else PowerSum(sessions, c, k + 1)
      modifies maximumCharge
    {
      maximumCharge[t] := maximumCharge[t] + s.maxPower;
    }
    var latest := LatestSchedule(s, dt, horizon);
    for t := 0 to horizon
      invariant forall c :: 0 <= c < horizon ==> baseline[c] == LatestSum(sessions, dt, c, if c < t then k + 1 else k)
      modifies baseline
    {
      baseline[t] := baseline[t] + latest[t];
    }
  }

  /** The report holds the sums of the session bounds, and feasibility is everyone's. */
  ghost predicate Describes(e: Envelope, sessions: seq<Session>, dt: real, horizon: nat)
    requires Fleet(sessions, horizon)
  {
    && (e.feasible <==> forall i :: 0 <= i < |sessions| ==> sessions[i].ReportedFeasible(dt))
    && (forall i :: 0 <= i < |sessions| ==> sessions[i].Unit(dt) >= LEAST_UNIT)
    && e.violations == Violations(sessions, dt, |sessions|)
    && |e.details| == |sessions|
    && (forall i :: 0 <= i < |sessions| ==> e.details[i] == DetailOf(sessions[i], dt, horizon))
    && Sums(sessions, dt, horizon, |sessions|, e.lower, e.upper, e.maximumCharge, e.baseline)
  }

  lemma EmptySums(sessions: seq<Session>, dt: real, horizon: nat, lower: seq<real>, upper: seq<real>,
                  maximumCharge: seq<real>, baseline: seq<real>)
    requires Fleet(sessions, horizon) && forall i :: 0 <= i < |sessions| ==> sessions[i].Unit(dt) >= LEAST_UNIT
    requires |lower| == |upper| == horizon + 1 && |maximumCharge| == |baseline| == horizon
    requires forall b :: 0 <= b <= horizon ==> lower[b] == upper[b] == 0.0
    requires forall t :: 0 <= t < horizon ==> maximumCharge[t] == baseline[t] == 0.0
    ensures Sums(sessions, dt, horizon, 0, lower, upper, maximumCharge, baseline)
    ensures Violations(sessions, dt, 0) == []
  {}

  /** The feasibility of one session, noted with its shortfall if it fails. */
  method NoteViolation(sessions: seq<Session>, k: nat, dt: real, feasible: bool, violations: seq<Violation>)
    returns (stillFeasible: bool, noted: seq<Violation>)
    requires k < |sessions| && forall i :: 0 <= i < |sessions| ==> sessions[i].arrival <= sessions[i].departure
    requires violations == Violations(sessions, dt, k)
    ensures stillFeasible == (feasible && sessions[k].ReportedFeasible(dt))
    ensures noted == Violations(sessions, dt, k + 1)
  {
    var s := sessions[k];
    noted := violations;
    stillFeasible := feasible && s.ReportedFeasible(dt);
    if !s.ReportedFeasible(dt) {
      noted := noted + [Violation(s.id, s.remaining - s.Deliverable(dt))];
    }
  }

  /** The four accumulators hold the sums over the first k sessions. */
  ghost predicate Sums(sessions: seq<Session>, dt: real, horizon: nat, k: nat, lower: seq<real>, upper: seq<real>,
                       maximumCharge: seq<real>, baseline: seq<real>)
    requires k <= |sessions| && Fleet(sessions, horizon)
    requires forall i :: 0 <= i < |sessions| ==> sessions[i].Unit(dt) >= LEAST_UNIT
  {
    && |lower| == |upper| == horizon + 1 && |maximumCharge| == |baseline| == horizon
    && (forall b :: 0 <= b <= horizon ==>
          lower[b] == LowerSum(sessions, dt, b, k) && upper[b] == UpperSum(sessions, dt, b, k))
    && (forall t :: 0 <= t < horizon ==>
          maximumCharge[t] == PowerSum(sessions, t, k) && baseline[t] == LatestSum(sessions, dt, t, k))
  }

  /** One session's share of all four accumulators. */
  method AddSession(sessions: seq<Session>, k: nat, dt: real, horizon: nat, lower: array<real>, upper: array<real>,
                    maximumCharge: array<real>, baseline: array<real>)
    requires k < |sessions| && Fleet(sessions, horizon)
    requires forall i :: 0 <= i < |sessions| ==> sessions[i].Unit(dt) >= LEAST_UNIT
    requires lower != upper && maximumCharge != baseline && {lower, upper} !! {maximumCharge, baseline}
    requires Sums(sessions, dt, horizon, k, lower[..], upper[..], maximumCharge[..], baseline[..])
    modifies lower, upper, maximumCharge, baseline
    ensures Sums(sessions, dt, horizon, k + 1, lower[..], upper[..], maximumCharge[..], baseline[..])
  {
    hide Mul, LowerSum, UpperSum, PowerSum, LatestSum;
    AddBounds(sessions, k, dt, lower, upper);
    AddPower(sessions, k, dt, horizon, maximumCharge, baseline);
  }

  method Accumulate(sessions: seq<Session>, dt: real, horizon: nat) returns (e: Envelope)
    requires Fleet(sessions, horizon) && dt >= 5.0 / 60.0
    ensures Describes(e, sessions, dt, horizon)
  {
    hide Mul, DetailOf, Violations, Session.ReportedFeasible, Session.Unit, Sums;
    forall i | 0 <= i < |sessions| ensures sessions[i].Unit(dt) >= LEAST_UNIT { UnitIsLarge(sessions[i], dt); }
    var lower := new real[horizon + 1](b => 0.0);
    var upper := new real[horizon + 1](b => 0.0);
    var maximumCharge := new real[horizon](t => 0.0);
    var baseline := new real[horizon](t => 0.0);
    EmptySums(sessions, dt, horizon, lower[..], upper[..], maximumCharge[..], baseline[..]);
    var feasible := true;
    var violations: seq<Violation> := [];
    var details: seq<Detail> := [];
    for k := 0 to |sessions|
      invariant violations == Violations(sessions, dt, k)
      invariant |details| == k && forall i :: 0 <= i < k ==> details[i] == DetailOf(sessions[i], dt, horizon)
      invariant feasible <==> forall i :: 0 <= i < k ==> sessions[i].ReportedFeasible(dt)
      invariant Sums(sessions, dt, horizon, k, lower[..], upper[..], maximumCharge[..], baseline[..])
    {
      feasible, violations := NoteViolation(sessions, k, dt, feasible, violations);
      details := details + [DetailOf(sessions[k], dt, horizon)];
      AddSession(sessions, k, dt, horizon, lower, upper, maximumCharge, baseline);
    }
    e := Envelope(feasible, lower[..], upper[..], maximumCharge[..], baseline[..], violations, details);
  }

  lemma UnitIsLarge(s: Session, dt: real)
    requires s.efficiency >= 0.8 && dt >= 5.0 / 60.0
    ensures s.Unit(dt) >= LEAST_UNIT
  {
    hide Mul;
    MulOrder(0.8, s.efficiency, dt);
    MulOrder(5.0 / 60.0, dt, 0.8);
    MulIs(0.8, 5.0 / 60.0);
  }

  // ---------------------------------------------------------------------------------------
  // Main results about the report
  // ---------------------------------------------------------------------------------------

  /** The fleet baseline never exceeds the power of the connected sessions, so both reserves the report
      derives from the two are non-negative. */
  lemma {:induction false} BaselineWithinPower(sessions: seq<Session>, dt: real, horizon: nat, t: nat, k: nat)
    requires Fleet(sessions, horizon) && t < horizon && k <= |sessions|
    requires forall i :: 0 <= i < |sessions| ==> sessions[i].Unit(dt) >= LEAST_UNIT
    ensures 0.0 <= LatestSum(sessions, dt, t, k) <= PowerSum(sessions, t, k)
  {
    if k > 0 {
      BaselineWithinPower(sessions, dt, horizon, t, k - 1);
      var s := sessions[k - 1];
      if s.arrival <= t < s.departure { LeftStep(s, dt, t); }
    }
  }
}
