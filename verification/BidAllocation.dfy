/** From a capacity forecast to a bid block, its spread over stations (optimize_bid_blocks in
    vpp_trading.py), and what arrives of it in the delivery schedules of the order placed for it. */
module BidAllocation {
  import opened RealMath
  import opened Rounding
  import opened TextOrder
  import opened Wrappers
  import opened OrderLedger
  import opened TradingDb
  import TradeFills

  const MIN_QUANTITY: real := 50.0

  /** One station's conservative capacity in the forecast, in dictionary order. */
  datatype Reading = Reading(stationId: string, adjustableP10Kw: real)

  datatype Cap = Cap(stationId: string, kw: real)

  datatype Block = Block(quantityKw: real, allocation: seq<Allocation>)

  function Kw(x: real): real { Rounded(x, THOUSANDTHS) }

  function AfterReserve(kw: real, margin: real): real { Mul(kw, 1.0 - margin) }

  function Quantity(portfolioKw: real, margin: real, maxOrderKw: real): real {
    Min(maxOrderKw, Max(0.0, AfterReserve(portfolioKw, margin)))
  }

  /** Stations that are known and have something left after the reserve. */
  function Eligible(readings: seq<Reading>, known: set<string>, margin: real): (caps: seq<Cap>)
    ensures forall c :: c in caps ==> c.kw > 0.0 && c.stationId in known
  {
    if readings == [] then []
    else
      var last := readings[|readings| - 1];
      var cap := AfterReserve(last.adjustableP10Kw, margin);
      var others := Eligible(readings[..|readings| - 1], known, margin);
      if cap > 0.0 && last.stationId in known then others + [Cap(last.stationId, cap)] else others
  }

  function Capacity(caps: seq<Cap>): real { if caps == [] then 0.0 else caps[0].kw + Capacity(caps[1..]) }

  // ---------------------------------------------------------------------------------------
  // The forecast behind a bid
  // ---------------------------------------------------------------------------------------

  /** Station rows rounded to three decimals, and the portfolio row: their sum, rounded again. */
  datatype Forecast = Forecast(readings: seq<Reading>, portfolioKw: real)

  function RoundedReading(r: Reading): Reading { Reading(r.stationId, Kw(r.adjustableP10Kw)) }

  function Readings(capacities: seq<Reading>): (r: seq<Reading>)
    ensures |r| == |capacities| && forall i :: 0 <= i < |r| ==> r[i] == RoundedReading(capacities[i])
  {
    seq(|capacities|, i requires 0 <= i < |capacities| => RoundedReading(capacities[i]))
  }

  /** Sum over the first k stations. */
  function TotalKw(readings: seq<Reading>, k: nat): real
    requires k <= |readings|
  {
    if k == 0 then 0.0 else TotalKw(readings, k - 1) + readings[k - 1].adjustableP10Kw
  }

  function ForecastOf(capacities: seq<Reading>): Forecast {
    var readings := Readings(capacities);
    Forecast(readings, Kw(TotalKw(readings, |readings|)))
  }

  /** What the forecast guarantees of its stations: each is one of the tenant's, appears once, and has a
      capacity that is not negative. */
  ghost predicate Stations(capacities: seq<Reading>, known: set<string>) {
    && (forall i :: 0 <= i < |capacities| ==> capacities[i].adjustableP10Kw >= 0.0 && capacities[i].stationId in known)
    && DistinctReadings(capacities)
  }

  method BuildForecast(capacities: seq<Reading>) returns (f: Forecast)
    ensures f == ForecastOf(capacities)
  {
    hide Rounded;
    var readings: seq<Reading> := [];
    var total := 0.0;
    for i := 0 to |capacities|
      invariant readings == Readings(capacities)[..i]
      invariant total == TotalKw(Readings(capacities), i)
    {
      readings := readings + [Reading(capacities[i].stationId, Kw(capacities[i].adjustableP10Kw))];
      total := total + readings[i].adjustableP10Kw;
    }
    assert readings == Readings(capacities);
    f := Forecast(readings, Kw(total));
  }

  lemma {:induction false} TotalIsExact(capacities: seq<Reading>, k: nat)
    requires k <= |capacities|
    ensures Exact(TotalKw(Readings(capacities), k), THOUSANDTHS)
  {
    hide Rounded;
    if k == 0 {
      Multiple(0, THOUSANDTHS);
      assert 0 as real / THOUSANDTHS == 0.0;
    } else {
      TotalIsExact(capacities, k - 1);
      RoundedIsExact(capacities[k - 1].adjustableP10Kw, THOUSANDTHS);
      ExactSum(TotalKw(Readings(capacities), k - 1), Readings(capacities)[k - 1].adjustableP10Kw, THOUSANDTHS);
    }
  }

  lemma RoundedReadingSign(r: Reading)
    requires r.adjustableP10Kw >= 0.0
    ensures RoundedReading(r).adjustableP10Kw >= 0.0
  {
    hide Rounded;
    RoundedMonotone(0.0, r.adjustableP10Kw, THOUSANDTHS);
    Multiple(0, THOUSANDTHS);
    assert 0 as real / THOUSANDTHS == 0.0;
  }

  lemma {:induction false} CapacitySnoc(caps: seq<Cap>, c: Cap)
    ensures Capacity(caps + [c]) == Capacity(caps) + c.kw
  {
    if caps == [] {
      assert [] + [c] == [c] && [c][1..] == [];
    } else {
      CapacitySnoc(caps[1..], c);
      assert (caps + [c])[1..] == caps[1..] + [c];
    }
  }

  /** The eligible stations carry the whole portfolio after the reserve. */
  lemma {:induction false} EligibleCapacity(readings: seq<Reading>, known: set<string>, margin: real, k: nat)
    requires k <= |readings| && margin <= 1.0
    requires forall i :: 0 <= i < |readings| ==> readings[i].adjustableP10Kw >= 0.0 && readings[i].stationId in known
    ensures Capacity(Eligible(readings[..k], known, margin)) == AfterReserve(TotalKw(readings, k), margin)
  {
    hide Mul;
    if k == 0 {
      MulZero(1.0 - margin);
    } else {
      EligibleCapacity(readings, known, margin, k - 1);
      assert readings[..k][..k - 1] == readings[..k - 1];
      var kw := readings[k - 1].adjustableP10Kw;
      MulNonNegative(kw, 1.0 - margin);
      MulSum(1.0 - margin, TotalKw(readings, k - 1), kw);
      CapacitySnoc(Eligible(readings[..k - 1], known, margin),
                   Cap(readings[k - 1].stationId, AfterReserve(kw, margin)));
    }
  }

  /** A bid never exceeds what its stations can carry, whatever the margin. */
  lemma QuantityIsDeliverable(capacities: seq<Reading>, known: set<string>, margin: real, maxOrderKw: real)
    requires Stations(capacities, known)
    ensures var f := ForecastOf(capacities);
            && f.portfolioKw == TotalKw(f.readings, |f.readings|)
            && Quantity(f.portfolioKw, margin, maxOrderKw) <= Capacity(Eligible(f.readings, known, margin))
  {
    hide Mul, Rounded, Capacity;
    var f := ForecastOf(capacities);
    var n := |capacities|;
    TotalIsExact(capacities, n);
    forall i | 0 <= i < n ensures f.readings[i].adjustableP10Kw >= 0.0 && f.readings[i].stationId in known {
      RoundedReadingSign(capacities[i]);
    }
    CapacityPositive(Eligible(f.readings, known, margin));
    assert f.readings[..n] == f.readings;
    if margin <= 1.0 {
      EligibleCapacity(f.readings, known, margin, n);
    } else {
      TotalNonNegative(f.readings, n);
      MulNonNegative(f.portfolioKw, margin - 1.0);
      MulNegated(f.portfolioKw, 1.0 - margin);
    }
  }

  lemma {:induction false} TotalNonNegative(readings: seq<Reading>, k: nat)
    requires k <= |readings| && forall i :: 0 <= i < |readings| ==> readings[i].adjustableP10Kw >= 0.0
    ensures TotalKw(readings, k) >= 0.0
  {
    if k > 0 { TotalNonNegative(readings, k - 1); }
  }

  // ---------------------------------------------------------------------------------------
  // Sorting by station id
  // ---------------------------------------------------------------------------------------

  function Insert(c: Cap, caps: seq<Cap>): (r: seq<Cap>)
    ensures multiset(r) == multiset(caps) + multiset{c}
  {
    if caps == [] || TextLess(c.stationId, caps[0].stationId) then [c] + caps
    else
      assert caps == [caps[0]] + caps[1..];
      [caps[0]] + Insert(c, caps[1..])
  }

  /** sorted(station_caps). */
  function ById(caps: seq<Cap>): (r: seq<Cap>)
    ensures multiset(r) == multiset(caps) && |r| == |caps|
  {
    if caps == [] then []
    else
      assert caps == [caps[0]] + caps[1..];
      var r := Insert(caps[0], ById(caps[1..]));
      assert |multiset(r)| == |r| && |multiset(caps)| == |caps|;
      r
  }

  ghost predicate Sorted(caps: seq<Cap>) {
    forall i :: 0 < i < |caps| ==> !TextLess(caps[i].stationId, caps[i - 1].stationId)
  }

  lemma {:induction false} InsertSorted(c: Cap, caps: seq<Cap>)
    requires Sorted(caps)
    ensures Sorted(Insert(c, caps))
  {
    if caps != [] {
      TextLessTotal(c.stationId, caps[0].stationId);
      if !TextLess(c.stationId, caps[0].stationId) {
        forall i | 0 < i < |caps[1..]| ensures !TextLess(caps[1..][i].stationId, caps[1..][i - 1].stationId) {
          assert !TextLess(caps[i + 1].stationId, caps[i].stationId);
        }
        InsertSorted(c, caps[1..]);
      }
    }
  }

  lemma {:induction false} ByIdSorted(caps: seq<Cap>)
    ensures Sorted(ById(caps))
  {
    if caps != [] {
      ByIdSorted(caps[1..]);
      InsertSorted(caps[0], ById(caps[1..]));
    }
  }

  lemma {:induction false} InsertCapacity(c: Cap, caps: seq<Cap>)
    ensures Capacity(Insert(c, caps)) == c.kw + Capacity(caps)
  {
    if caps == [] || TextLess(c.stationId, caps[0].stationId) {
      assert ([c] + caps)[1..] == caps;
    } else {
      InsertCapacity(c, caps[1..]);
      assert ([caps[0]] + Insert(c, caps[1..]))[1..] == Insert(c, caps[1..]);
    }
  }

  lemma {:induction false} ByIdCapacity(caps: seq<Cap>)
    ensures Capacity(ById(caps)) == Capacity(caps)
  {
    if caps != [] {
      ByIdCapacity(caps[1..]);
      InsertCapacity(caps[0], ById(caps[1..]));
    }
  }

  // ---------------------------------------------------------------------------------------
  // Proportional targets
  // ---------------------------------------------------------------------------------------

  /** Part of every cap that is used. */
  function Usage(quantity: real, capacity: real): real
    requires capacity > 0.0
  {
    if quantity >= capacity then 1.0 else quantity / capacity
  }

  /** What a station is asked to deliver, before rounding. */
  function Target(quantity: real, capacity: real, cap: real): real
    requires capacity > 0.0
  {
    Mul(cap, Usage(quantity, capacity))
  }

  /** The loop's own formula for every station but the last. */
  lemma ShareIsTarget(quantity: real, capacity: real, cap: real)
    requires quantity > 0.0 && capacity > 0.0 && cap > 0.0
    ensures Max(0.0, Min(cap, Min(cap, Mul(quantity, cap) / capacity))) == Target(quantity, capacity, cap)
    ensures 0.0 <= Target(quantity, capacity, cap) <= cap
  {
    hide Mul;
    MulOne(cap);
    MulCommutes(quantity, cap);
    QuotientMoves(cap, quantity, capacity);
    if quantity >= capacity {
      MulOrder(capacity, quantity, cap);
      QuotientOrder(Mul(cap, capacity), Mul(cap, quantity), capacity);
      QuotientOfProduct(cap, capacity);
    } else {
      MulOrder(quantity, capacity, cap);
      QuotientOrder(Mul(cap, quantity), Mul(cap, capacity), capacity);
      QuotientOfProduct(cap, capacity);
      MulNonNegative(cap, quantity);
      QuotientOrder(0.0, Mul(cap, quantity), capacity);
    }
  }

  /** All targets together: the quantity, or the whole capacity when that is less. */
  lemma UsageOfAll(quantity: real, capacity: real)
    requires quantity > 0.0 && capacity > 0.0
    ensures Mul(capacity, Usage(quantity, capacity)) == Min(quantity, capacity)
  {
    hide Mul;
    MulOne(capacity);
    QuotientMoves(capacity, quantity, capacity);
    MulCommutes(capacity, quantity);
    QuotientOfProduct(quantity, capacity);
  }

  lemma {:induction false} CapacityPositive(caps: seq<Cap>)
    requires forall c :: c in caps ==> c.kw > 0.0
    ensures Capacity(caps) >= 0.0 && (caps != [] ==> Capacity(caps) > 0.0)
  {
    if caps != [] { CapacityPositive(caps[1..]); }
  }

  /** What is left for the last station is exactly its target, once the remainder is clamped to its cap. */
  lemma LastTakesTarget(quantity: real, capacity: real, cap: real, remaining: real)
    requires quantity > 0.0 && capacity >= cap > 0.0
    requires remaining == quantity - Mul(capacity - cap, Usage(quantity, capacity))
    ensures Max(0.0, Min(cap, remaining)) == Target(quantity, capacity, cap)
  {
    hide Mul, Usage;
    var u := Usage(quantity, capacity);
    UsageOfAll(quantity, capacity);
    MulSum(u, capacity - cap, cap);
    ShareIsTarget(quantity, capacity, cap);
    assert remaining == quantity - Min(quantity, capacity) + Mul(cap, u);
    if quantity > capacity {
      assert u == 1.0 by { FullUsage(quantity, capacity); }
      MulOne(cap);
    }
  }

  lemma FullUsage(quantity: real, capacity: real)
    requires quantity >= capacity > 0.0
    ensures Usage(quantity, capacity) == 1.0
  {}

  // ---------------------------------------------------------------------------------------
  // The loops
  // ---------------------------------------------------------------------------------------

  method StationCaps(readings: seq<Reading>, known: set<string>, margin: real) returns (caps: seq<Cap>)
    ensures caps == Eligible(readings, known, margin)
  {
    caps := [];
    for i := 0 to |readings|
      invariant caps == Eligible(readings[..i], known, margin)
    {
      assert readings[..i + 1][..i] == readings[..i];
      var cap := AfterReserve(readings[i].adjustableP10Kw, margin);
      if cap > 0.0 && readings[i].stationId in known {
        caps := caps + [Cap(readings[i].stationId, cap)];
      }
    }
    assert readings[..|readings|] == readings;
  }

  /** Every station gets its cap times the same usage, whatever the order of the stations. */
  ghost predicate IsAllocation(quantity: real, capacity: real, caps: seq<Cap>, allocation: seq<Allocation>) {
    |allocation| == |caps| && forall i :: 0 <= i < |caps| ==> AllocatedAt(quantity, capacity, caps, allocation, i)
  }

  ghost predicate AllocatedAt(quantity: real, capacity: real, caps: seq<Cap>, allocation: seq<Allocation>, i: nat)
    requires i < |caps| == |allocation|
  {
    && capacity > 0.0
    && allocation[i].stationId == caps[i].stationId
    && allocation[i].targetKw == Kw(Target(quantity, capacity, caps[i].kw))
  }

  /** Baselines are the stations' latest grid power. */
  ghost predicate Baselines(allocation: seq<Allocation>, gridKw: string -> real) {
    forall i :: 0 <= i < |allocation| ==> allocation[i].baselineKw == Kw(gridKw(allocation[i].stationId))
  }

  /** What is left of the bid before station i. */
  ghost predicate LeftBefore(quantity: real, capacity: real, ordered: seq<Cap>, i: nat, remaining: real)
    requires i <= |ordered| && capacity > 0.0
  {
    remaining == quantity - Mul(capacity - Capacity(ordered[i..]), Usage(quantity, capacity))
  }

  lemma NothingTaken(quantity: real, capacity: real, ordered: seq<Cap>)
    requires ordered != [] && (forall c :: c in ordered ==> c.kw > 0.0) && capacity == Capacity(ordered)
    ensures capacity > 0.0 && LeftBefore(quantity, capacity, ordered, 0, quantity)
  {
    hide Mul, Usage;
    CapacityPositive(ordered);
    assert ordered[0..] == ordered;
    MulZero(Usage(quantity, capacity));
  }

  /** One station's share: proportional, and whatever is left for the last. */
  method StationShare(quantity: real, capacity: real, ordered: seq<Cap>, i: nat, remaining: real)
    returns (target: real)
    requires quantity > 0.0 && i < |ordered| && (forall c :: c in ordered ==> c.kw > 0.0)
    requires capacity == Capacity(ordered) && capacity > 0.0
    requires LeftBefore(quantity, capacity, ordered, i, remaining)
    ensures target == Target(quantity, capacity, ordered[i].kw)
    ensures LeftBefore(quantity, capacity, ordered, i + 1, remaining - target)
  {
    hide Mul, Usage;
    var cap := ordered[i].kw;
    assert ordered[i..][1..] == ordered[i + 1..];
    CapacityPositive(ordered[i + 1..]);
    CapacityLeft(ordered, i);
    target := if i == |ordered| - 1 then remaining else Min(cap, Mul(quantity, cap) / capacity);
    target := Max(0.0, Min(cap, target));
    if i == |ordered| - 1 { LastTakesTarget(quantity, capacity, cap, remaining); }
    ShareIsTarget(quantity, capacity, cap);
    MulSum(Usage(quantity, capacity), capacity - Capacity(ordered[i..]), cap);
  }

  /** The allocation loop. */
  method Allocate(quantity: real, capacity: real, ordered: seq<Cap>, gridKw: string -> real)
    returns (allocation: seq<Allocation>)
    requires quantity > 0.0 && (forall c :: c in ordered ==> c.kw > 0.0)
    requires ordered != [] ==> capacity == Capacity(ordered)
    ensures IsAllocation(quantity, capacity, ordered, allocation)
    ensures Baselines(allocation, gridKw)
  {
    hide Mul, Kw, Target, Capacity, LeftBefore;
    allocation := [];
    var remaining := quantity;
    if ordered != [] { NothingTaken(quantity, capacity, ordered); }
    for i := 0 to |ordered|
      invariant |allocation| == i
      invariant ordered != [] ==> LeftBefore(quantity, capacity, ordered, i, remaining)
      invariant forall j :: 0 <= j < i ==>
          && capacity > 0.0
          && allocation[j].stationId == ordered[j].stationId
          && allocation[j].targetKw == Kw(Target(quantity, capacity, ordered[j].kw))
      invariant Baselines(allocation, gridKw)
    {
      var target := StationShare(quantity, capacity, ordered, i, remaining);
      remaining := remaining - target;
      allocation := allocation + [Allocation(ordered[i].stationId, Kw(target), Kw(gridKw(ordered[i].stationId)))];
    }
    assert forall i :: 0 <= i < |ordered| ==> AllocatedAt(quantity, capacity, ordered, allocation, i);
  }

  lemma {:induction false} CapacityLeft(caps: seq<Cap>, i: nat)
    requires i <= |caps| && forall c :: c in caps ==> c.kw > 0.0
    ensures Capacity(caps[i..]) <= Capacity(caps)
    decreases i
  {
    if i == 0 {
      assert caps[0..] == caps;
    } else {
      CapacityLeft(caps, i - 1);
      assert caps[i - 1..][1..] == caps[i..];
    }
  }

  /** One row of the forecast: a block of at least the minimal quantity, or none. */
  method PlanBlock(f: Forecast, margin: real, maxOrderKw: real, known: set<string>, gridKw: string -> real)
    returns (block: Option<Block>)
    ensures var quantity := Quantity(f.portfolioKw, margin, maxOrderKw);
            var caps := Eligible(f.readings, known, margin);
            if quantity < MIN_QUANTITY then block == None
            else
              && block.Some? && block.value.quantityKw == Kw(quantity)
              && IsAllocation(quantity, Capacity(caps), ById(caps), block.value.allocation)
              && Baselines(block.value.allocation, gridKw)
  {
    hide Rounded, Mul, Capacity, ById;
    var available := Max(0.0, AfterReserve(f.portfolioKw, margin));
    var quantity := Min(maxOrderKw, available);
    if quantity < MIN_QUANTITY {
      return None;
    }
    var caps := StationCaps(f.readings, known, margin);
    var total := Capacity(caps);
    var capacity := if total == 0.0 then 1.0 else total;
    var ordered := ById(caps);
    ByIdCapacity(caps);
    CapacityPositive(caps);
    assert forall c :: c in ordered ==> c in multiset(ordered);
    var allocation := Allocate(quantity, capacity, ordered, gridKw);
    block := Some(Block(Kw(quantity), allocation));
  }

  // ---------------------------------------------------------------------------------------
  // Distinct stations
  // ---------------------------------------------------------------------------------------

  ghost predicate DistinctReadings(readings: seq<Reading>) {
    forall i, j :: 0 <= i < j < |readings| ==> readings[i].stationId != readings[j].stationId
  }

  ghost predicate Distinct(caps: seq<Cap>) {
    forall i, j :: 0 <= i < j < |caps| ==> caps[i].stationId != caps[j].stationId
  }

  lemma {:induction false} EligibleDistinct(readings: seq<Reading>, known: set<string>, margin: real)
    requires DistinctReadings(readings)
    ensures Distinct(Eligible(readings, known, margin))
    ensures forall c :: c in Eligible(readings, known, margin) ==>
            exists i :: 0 <= i < |readings| && readings[i].stationId == c.stationId
  {
    hide Mul, AfterReserve;
    if readings != [] {
      EligibleDistinct(readings[..|readings| - 1], known, margin);
      var others := Eligible(readings[..|readings| - 1], known, margin);
      forall c | c in Eligible(readings, known, margin)
        ensures exists i :: 0 <= i < |readings| && readings[i].stationId == c.stationId
      {
        if c in others {
          var i :| 0 <= i < |readings| - 1 && readings[..|readings| - 1][i].stationId == c.stationId;
          assert readings[i].stationId == c.stationId;
        } else {
          assert readings[|readings| - 1].stationId == c.stationId;
        }
      }
      forall i | 0 <= i < |others| ensures others[i].stationId != readings[|readings| - 1].stationId {
        assert others[i] in others;
      }
    }
  }

  ghost predicate Unnamed(id: string, caps: seq<Cap>) { forall c :: c in caps ==> c.stationId != id }

  lemma DistinctCons(c: Cap, caps: seq<Cap>)
    ensures Distinct([c] + caps) <==> Unnamed(c.stationId, caps) && Distinct(caps)
  {
    var all := [c] + caps;
    forall i, j | 0 <= i < j < |caps| && Distinct(all) ensures caps[i].stationId != caps[j].stationId {
      assert all[i + 1].stationId != all[j + 1].stationId;
    }
    forall x | x in caps && Distinct(all) ensures x.stationId != c.stationId {
      var k :| 0 <= k < |caps| && caps[k] == x;
      assert all[0].stationId != all[k + 1].stationId;
    }
    forall i, j | 0 <= i < j < |all| && Unnamed(c.stationId, caps) && Distinct(caps)
      ensures all[i].stationId != all[j].stationId
    {
      assert all[j] == caps[j - 1] && caps[j - 1] in caps;
    }
  }

  lemma {:induction false} InsertDistinct(c: Cap, caps: seq<Cap>)
    requires Unnamed(c.stationId, caps) && Distinct(caps)
    ensures Distinct(Insert(c, caps))
  {
    hide Distinct;
    if caps == [] || TextLess(c.stationId, caps[0].stationId) {
      DistinctCons(c, caps);
    } else {
      assert caps == [caps[0]] + caps[1..];
      DistinctCons(caps[0], caps[1..]);
      InsertDistinct(c, caps[1..]);
      var rest := Insert(c, caps[1..]);
      assert forall x :: x in rest ==> x in multiset(rest);
      DistinctCons(caps[0], rest);
    }
  }

  lemma {:induction false} ByIdDistinct(caps: seq<Cap>)
    requires Distinct(caps)
    ensures Distinct(ById(caps))
  {
    if caps != [] {
      hide Distinct;
      assert caps == [caps[0]] + caps[1..];
      DistinctCons(caps[0], caps[1..]);
      ByIdDistinct(caps[1..]);
      var sorted := ById(caps[1..]);
      assert forall x :: x in sorted ==> x in multiset(sorted);
      InsertDistinct(caps[0], sorted);
    } else {
      assert ById(caps) == [];
    }
  }

  // ---------------------------------------------------------------------------------------
  // Conservation
  // ---------------------------------------------------------------------------------------

  /** The first k targets follow the part of the capacity they stand for, up to rounding. */
  lemma {:induction false} TargetsFollowCapacity(quantity: real, caps: seq<Cap>, allocation: seq<Allocation>, k: nat)
    requires quantity > 0.0 && Distinct(caps) && k <= |caps|
    requires IsAllocation(quantity, Capacity(caps), caps, allocation)
    requires Capacity(caps) > 0.0
    ensures Abs(TradeFills.TargetSum(allocation, k) -
                Mul(Capacity(caps) - Capacity(caps[k..]), Usage(quantity, Capacity(caps)))) <= 0.0005 * k as real
  {
    hide Mul, Usage, Rounded;
    var u := Usage(quantity, Capacity(caps));
    if k == 0 {
      assert caps[0..] == caps;
      MulZero(u);
    } else {
      TargetsFollowCapacity(quantity, caps, allocation, k - 1);
      assert caps[k - 1..][1..] == caps[k..];
      assert AllocatedAt(quantity, Capacity(caps), caps, allocation, k - 1);
      forall i | 0 <= i < k - 1 ensures allocation[i].stationId != allocation[k - 1].stationId {
        assert AllocatedAt(quantity, Capacity(caps), caps, allocation, i);
      }
      MulSum(u, Capacity(caps) - Capacity(caps[k - 1..]), caps[k - 1].kw);
      RoundedNear(Target(quantity, Capacity(caps), caps[k - 1].kw), THOUSANDTHS);
    }
  }

  /** Any allocation's targets add up to the smaller of quantity and capacity, half a watt per station aside. */
  lemma AllocationNear(quantity: real, readings: seq<Reading>, known: set<string>, margin: real,
                       allocation: seq<Allocation>)
    requires quantity > 0.0 && DistinctReadings(readings)
    requires var caps := Eligible(readings, known, margin);
             IsAllocation(quantity, Capacity(caps), ById(caps), allocation)
    ensures Abs(TradeFills.TargetSum(allocation, |allocation|) -
                Min(quantity, Capacity(Eligible(readings, known, margin))))
            <= 0.0005 * |allocation| as real
  {
    hide Mul, Usage, ById, Eligible;
    var caps := Eligible(readings, known, margin);
    var ordered := ById(caps);
    ByIdCapacity(caps);
    CapacityPositive(caps);
    EligibleDistinct(readings, known, margin);
    ByIdDistinct(caps);
    hide Distinct, DistinctReadings;
    if caps != [] {
      TargetsFollowCapacity(quantity, ordered, allocation, |ordered|);
      UsageOfAll(quantity, Capacity(caps));
    }
  }

  /** The targets before rounding. */
  function TargetTotal(quantity: real, capacity: real, caps: seq<Cap>): real
    requires capacity > 0.0
  {
    if caps == [] then 0.0 else Target(quantity, capacity, caps[0].kw) + TargetTotal(quantity, capacity, caps[1..])
  }

  lemma {:induction false} TargetTotalIs(quantity: real, capacity: real, caps: seq<Cap>)
    requires capacity > 0.0
    ensures TargetTotal(quantity, capacity, caps) == Mul(Capacity(caps), Usage(quantity, capacity))
  {
    hide Mul, Usage;
    if caps == [] {
      MulZero(Usage(quantity, capacity));
    } else {
      TargetTotalIs(quantity, capacity, caps[1..]);
      MulSum(Usage(quantity, capacity), caps[0].kw, Capacity(caps[1..]));
    }
  }

  /** The block is the one planned from the forecast of these station capacities. */
  ghost predicate Planned(capacities: seq<Reading>, known: set<string>, margin: real, maxOrderKw: real, block: Block) {
    var quantity, caps := BidKw(capacities, margin, maxOrderKw), BidCaps(capacities, known, margin);
    && quantity >= MIN_QUANTITY && block.quantityKw == Kw(quantity)
    && IsAllocation(quantity, Capacity(caps), caps, block.allocation)
  }

  function BidKw(capacities: seq<Reading>, margin: real, maxOrderKw: real): real {
    Quantity(ForecastOf(capacities).portfolioKw, margin, maxOrderKw)
  }

  function BidCaps(capacities: seq<Reading>, known: set<string>, margin: real): seq<Cap> {
    ById(Eligible(ForecastOf(capacities).readings, known, margin))
  }

  lemma CapsCarryBid(capacities: seq<Reading>, known: set<string>, margin: real, maxOrderKw: real)
    requires Stations(capacities, known)
    ensures BidKw(capacities, margin, maxOrderKw) <= Capacity(BidCaps(capacities, known, margin))
    ensures forall i :: 0 <= i < |BidCaps(capacities, known, margin)| ==> BidCaps(capacities, known, margin)[i].kw > 0.0
  {
    hide Quantity, Capacity;
    QuantityIsDeliverable(capacities, known, margin, maxOrderKw);
    var caps := Eligible(ForecastOf(capacities).readings, known, margin);
    ByIdCapacity(caps);
    var ordered := ById(caps);
    forall i | 0 <= i < |ordered| ensures ordered[i].kw > 0.0 {
      assert ordered[i] in multiset(ordered);
      assert ordered[i] in caps;
    }
  }

  /** The targets add up to the bid, exactly before rounding and within half a watt per station after it. */
  lemma AllocationAddsUp(capacities: seq<Reading>, known: set<string>, margin: real, maxOrderKw: real, block: Block)
    requires Stations(capacities, known) && Planned(capacities, known, margin, maxOrderKw, block)
    ensures var quantity, caps := BidKw(capacities, margin, maxOrderKw), BidCaps(capacities, known, margin);
            Capacity(caps) > 0.0 && TargetTotal(quantity, Capacity(caps), caps) == quantity
    ensures Abs(TradeFills.TargetSum(block.allocation, |block.allocation|) - BidKw(capacities, margin, maxOrderKw))
            <= 0.0005 * |block.allocation| as real
  {
    hide Quantity, Capacity, Mul, Usage, ById, Eligible, TargetTotal, TradeFills.TargetSum;
    var quantity, caps := BidKw(capacities, margin, maxOrderKw), BidCaps(capacities, known, margin);
    var f := ForecastOf(capacities);
    CapsCarryBid(capacities, known, margin, maxOrderKw);
    TargetTotalIs(quantity, Capacity(caps), caps);
    UsageOfAll(quantity, Capacity(caps));
    ByIdCapacity(Eligible(f.readings, known, margin));
    AllocationNear(quantity, f.readings, known, margin, block.allocation);
  }

  /** No station is asked for more than its cap, half a watt of rounding aside, nor for less than nothing. */
  lemma TargetsWithinCaps(capacities: seq<Reading>, known: set<string>, margin: real, maxOrderKw: real, block: Block,
                          i: nat)
    requires Stations(capacities, known) && Planned(capacities, known, margin, maxOrderKw, block)
    requires i < |block.allocation|
    ensures var caps := BidCaps(capacities, known, margin);
            i < |caps| && 0.0 <= block.allocation[i].targetKw <= Kw(caps[i].kw) <= caps[i].kw + 0.0005
  {
    hide Quantity, Capacity, Mul, Usage, Rounded;
    var quantity, caps := BidKw(capacities, margin, maxOrderKw), BidCaps(capacities, known, margin);
    CapsCarryBid(capacities, known, margin, maxOrderKw);
    assert AllocatedAt(quantity, Capacity(caps), caps, block.allocation, i);
    ShareIsTarget(quantity, Capacity(caps), caps[i].kw);
    RoundedMonotone(Target(quantity, Capacity(caps), caps[i].kw), caps[i].kw, THOUSANDTHS);
    RoundedMonotone(0.0, Target(quantity, Capacity(caps), caps[i].kw), THOUSANDTHS);
    Multiple(0, THOUSANDTHS);
    assert 0 as real / THOUSANDTHS == 0.0;
    RoundedNear(caps[i].kw, THOUSANDTHS);
  }

  /** From bid to fill to dispatch: whatever fills an order placed for a planned block has received, its
      delivery schedules add up to the filled quantity, within half a watt per station and half a watt for
      the rounded order quantity, and so do the dispatched commands, within half a watt more for each. */
  lemma DispatchTracksFill(db: Db, id: string, capacities: seq<Reading>, known: set<string>, margin: real,
                           maxOrderKw: real, block: Block)
    requires id in db.orders && TradeFills.OrderBalanced(db, id)
    requires db.orders[id].quantityKw == block.quantityKw && db.orders[id].allocation == block.allocation
    requires Stations(capacities, known) && Planned(capacities, known, margin, maxOrderKw, block)
    ensures var o := db.orders[id];
            Abs(TradeFills.OrderScheduled(db.schedules, id, |db.schedules|) - o.filledKw)
            <= 0.0005 * (|o.allocation| + 1) as real
    ensures var o := db.orders[id];
            var commands := TradeFills.AtMost(|o.allocation|, TradeFills.Fills(db.trades, id, |db.trades|));
            Abs(TradeFills.OrderDispatched(db.schedules, id, |db.schedules|) - o.filledKw)
            <= 0.0005 * (|o.allocation| + 1 + commands) as real
  {
    hide Mul, Quantity, Rounded, BidCaps, TradeFills.OrderScheduled, TradeFills.TargetSum, TradeFills.OrderDispatched,
      TradeFills.AtMost;
    var o := db.orders[id];
    var scheduled := TradeFills.OrderScheduled(db.schedules, id, |db.schedules|);
    var targets := TradeFills.TargetSum(o.allocation, |o.allocation|);
    AllocationAddsUp(capacities, known, margin, maxOrderKw, block);
    TradeFills.DispatchNearSchedules(db, id);
    RoundedNear(BidKw(capacities, margin, maxOrderKw), THOUSANDTHS);
    Proportion(scheduled, o.quantityKw, targets, o.filledKw);
    ScaledGap(o.quantityKw, targets, o.filledKw / o.quantityKw);
  }

  const THREE_STATIONS: seq<Reading> := [Reading("a", 40.001), Reading("b", 40.001), Reading("c", 40.001)]

  /** What the forecast and the eligible stations of THREE_STATIONS look like at half reserve. */
  lemma ThreeCaps(known: set<string>)
    requires known == {"a", "b", "c"}
    ensures BidKw(THREE_STATIONS, 0.5, 100.0) == 60.0015
    ensures Eligible(ForecastOf(THREE_STATIONS).readings, known, 0.5) ==
            [Cap("a", 20.0005), Cap("b", 20.0005), Cap("c", 20.0005)]
  {
    assert Mul(40.001, THOUSANDTHS) == 40001.0;
    assert Kw(40.001) == 40.001;
    var r := Readings(THREE_STATIONS);
    assert r[0] == THREE_STATIONS[0] && r[1] == THREE_STATIONS[1] && r[2] == THREE_STATIONS[2];
    assert TotalKw(r, 1) == 40.001 && TotalKw(r, 2) == 80.002 && TotalKw(r, 3) == 120.003;
    assert Mul(120.003, THOUSANDTHS) == 120003.0;
    assert Mul(120.003, 0.5) == 60.0015;
    assert Mul(40.001, 0.5) == 20.0005;
    assert r[..2][..1] == r[..1] && r[..1][..0] == [] && r[..3] == r && r[..3][..2] == r[..2];
    assert Eligible(r[..1], known, 0.5) == [Cap("a", 20.0005)];
    assert Eligible(r[..2], known, 0.5) == [Cap("a", 20.0005), Cap("b", 20.0005)];
  }

  /** The extra half watt is really lost: three stations of 40.001 kW at half reserve are each asked for
      20.000 kW, while the order they serve is for 60.002 kW. */
  lemma RoundingIsAttained(block: Block)
    requires Planned(THREE_STATIONS, {"a", "b", "c"}, 0.5, 100.0, block)
    ensures |block.allocation| == 3
    ensures block.quantityKw - TradeFills.TargetSum(block.allocation, 3) == 0.0005 * (|block.allocation| + 1) as real
  {
    hide Kw, Quantity, Usage, Eligible, ById, ForecastOf;
    var known := {"a", "b", "c"};
    var readings := ForecastOf(THREE_STATIONS).readings;
    ThreeCaps(known);
    var caps := BidCaps(THREE_STATIONS, known, 0.5);
    SameCaps(readings, known, caps);
    var t := block.allocation;
    forall i | 0 <= i < 3 ensures t[i].targetKw == 20.0 && t[i].stationId == caps[i].stationId {
      assert AllocatedAt(60.0015, Capacity(caps), caps, t, i);
      TwentyKw();
    }
    assert Kw(60.0015) == 60.002 by { SixtyKw(); }
    assert TradeFills.TargetSum(t, 1) == 20.0;
    assert TradeFills.TargetSum(t, 2) == 40.0;
  }

  lemma SameCaps(readings: seq<Reading>, known: set<string>, caps: seq<Cap>)
    requires Eligible(readings, known, 0.5) == [Cap("a", 20.0005), Cap("b", 20.0005), Cap("c", 20.0005)]
    requires caps == ById(Eligible(readings, known, 0.5))
    ensures |caps| == 3 && Capacity(caps) == 60.0015
    ensures forall i :: 0 <= i < 3 ==> caps[i].kw == 20.0005
    ensures forall i, j :: 0 <= i < j < 3 ==> caps[i].stationId != caps[j].stationId
  {
    hide ById;
    var eligible := Eligible(readings, known, 0.5);
    hide Eligible;
    ByIdDistinct(eligible);
    ByIdCapacity(eligible);
    assert eligible[1..] == [Cap("b", 20.0005), Cap("c", 20.0005)] && eligible[1..][1..] == [Cap("c", 20.0005)];
    assert Capacity(eligible[1..][1..]) == 20.0005;
    forall i | 0 <= i < 3 ensures caps[i].kw == 20.0005 {
      assert caps[i] in multiset(caps);
      assert caps[i] in eligible;
    }
  }

  lemma TwentyKw()
    ensures Kw(Target(60.0015, 60.0015, 20.0005)) == 20.0
  {
    MulOne(20.0005);
    assert Mul(20.0005, THOUSANDTHS) == 20000.5;
  }

  lemma SixtyKw()
    ensures Kw(60.0015) == 60.002
  {
    assert Mul(60.0015, THOUSANDTHS) == 60001.5;
  }

  /** The automation's path from capacities to a bid: forecast, then block. */
  method PlanBid(capacities: seq<Reading>, margin: real, maxOrderKw: real, known: set<string>, gridKw: string -> real)
    returns (block: Option<Block>)
    requires Stations(capacities, known)
    ensures block == None <==> BidKw(capacities, margin, maxOrderKw) < 50.0
    ensures block.Some? ==>
              && Planned(capacities, known, margin, maxOrderKw, block.value)
              && Abs(TradeFills.TargetSum(block.value.allocation, |block.value.allocation|) -
                     BidKw(capacities, margin, maxOrderKw)) <= 0.0005 * |block.value.allocation| as real
  {
    hide Quantity, Capacity, ById, Eligible, IsAllocation;
    var f := BuildForecast(capacities);
    block := PlanBlock(f, margin, maxOrderKw, known, gridKw);
    if block.Some? {
      ByIdCapacity(Eligible(f.readings, known, margin));
      AllocationAddsUp(capacities, known, margin, maxOrderKw, block.value);
    }
  }

  lemma Proportion(s: real, q: real, t: real, f: real)
    requires q > 0.0 && 0.0 <= f <= q && Mul(s, q) == Mul(t, f)
    ensures s == Mul(t, f / q) && 0.0 <= f / q <= 1.0 && Mul(q, f / q) == f
  {
    hide Mul;
    QuotientOfProduct(s, q);
    QuotientMoves(t, f, q);
    QuotientOrder(0.0, f, q);
    QuotientOrder(f, q, q);
    QuotientOfProduct(1.0, q);
    MulOne(q);
    MulQuotient(f, q);
    MulCommutes(f / q, q);
  }

  /** A factor between 0 and 1 does not widen a gap. */
  lemma ScaledGap(a: real, b: real, r: real)
    requires 0.0 <= r <= 1.0
    ensures Abs(Mul(a, r) - Mul(b, r)) <= Abs(a - b)
  {
    hide Mul;
    MulSum(r, a - b, b);
    MulOne(a - b);
    if a >= b { MulOrder(r, 1.0, a - b); MulNonNegative(a - b, r); }
    else { MulOrder(r, 1.0, b - a); MulNonNegative(b - a, r); MulSum(r, b - a, a); MulOne(b - a); }
  }
}
