/** Greedy sharing of charging power under a site limit and per-phase limits
    (allocate_charging_power in energy_platform.py). */
module ChargingPower {
  import opened RealMath
  import opened TextOrder

  const LEAST_HOURS: real := 1.0 / 60.0

  const LEAST_DENOMINATOR: real := 0.000000001

  datatype Session = Session(id: string, phase: string, targetKwh: real, deliveredKwh: real, hoursLeft: real,
                             priority: real, maximumKw: real, minimumKw: real, efficiency: real, discharging: bool,
                             v2gOptIn: bool, vehicleV2g: bool, chargerV2g: bool)
  {
    function Hours(): real { Max(hoursLeft, LEAST_HOURS) }

    function Need(): real { Max(0.0, targetKwh - deliveredKwh) }

    function Score(): real { Mul(priority, 1000.0) + Need() / Hours() }

    function RequiredRate(): real { Need() / Max(Mul(Hours(), efficiency), LEAST_DENOMINATOR) }

    function Requested(): real { Min(maximumKw, Max(minimumKw, RequiredRate())) }

    /** What the session can ever be granted. */
    function Request(): real { Max(0.0, Requested()) }

    predicate Vetoed() { discharging && !(v2gOptIn && vehicleV2g && chargerV2g) }
  }

  datatype Site = Site(limitKw: real, phaseLimits: map<string, real>)
  {
    /** A negative phase limit admits nothing. */
    function Limit(phase: string): real
      requires phase in phaseLimits
    {
      Max(0.0, phaseLimits[phase])
    }
  }

  // ---------------------------------------------------------------------------------------
  // Processing order
  // ---------------------------------------------------------------------------------------

  /** a may be processed before b: higher score first, then the larger id. */
  predicate Before(a: Session, b: Session) {
    a.Score() > b.Score() || (a.Score() == b.Score() && !TextLess(a.id, b.id))
  }

  lemma BeforeTransitive(a: Session, b: Session, c: Session)
    requires Before(a, b) && Before(b, c)
    ensures Before(a, c)
  {
    if a.Score() == b.Score() == c.Score() { TextLessTransitive(a.id, b.id, c.id); }
  }

  lemma BeforeTotal(a: Session, b: Session)
    ensures Before(a, b) || Before(b, a)
  {
    TextLessTotal(a.id, b.id);
  }

  ghost predicate Ordered(s: seq<Session>) {
    forall i, j :: 0 <= i < j < |s| ==> Before(s[i], s[j])
  }

  function Insert(s: seq<Session>, x: Session): (r: seq<Session>)
    ensures multiset(r) == multiset(s) + multiset{x}
  {
    if s == [] || Before(x, s[0]) then [x] + s
    else
      assert s == [s[0]] + s[1..];
      [s[0]] + Insert(s[1..], x)
  }

  /** sorted(scored, reverse=True). */
  function Arranged(s: seq<Session>): (r: seq<Session>)
    ensures multiset(r) == multiset(s)
  {
    if s == [] then []
    else
      assert s == s[..|s| - 1] + [s[|s| - 1]];
      Insert(Arranged(s[..|s| - 1]), s[|s| - 1])
  }

  lemma {:induction false} InsertOrdered(s: seq<Session>, x: Session)
    requires Ordered(s)
    ensures Ordered(Insert(s, x))
  {
    if s == [] {
    } else if Before(x, s[0]) {
      var r := [x] + s;
      forall i, j | 0 <= i < j < |r| ensures Before(r[i], r[j]) {
        if i == 0 && j > 1 { BeforeTransitive(x, s[0], s[j - 1]); }
      }
    } else {
      BeforeTotal(x, s[0]);
      assert Ordered(s[1..]);
      InsertOrdered(s[1..], x);
      var t := Insert(s[1..], x);
      forall j | 0 <= j < |t| ensures Before(s[0], t[j]) {
        assert t[j] in multiset(t);
        assert t[j] == x || t[j] in s[1..];
        if t[j] != x {
          var k :| 0 <= k < |s[1..]| && s[1..][k] == t[j];
          assert Before(s[0], s[k + 1]);
        }
      }
    }
  }

  /** The sort delivers a permutation in processing order. */
  lemma {:induction false} ArrangedOrdered(s: seq<Session>)
    ensures Ordered(Arranged(s)) && multiset(Arranged(s)) == multiset(s)
  {
    if s != [] {
      ArrangedOrdered(s[..|s| - 1]);
      InsertOrdered(Arranged(s[..|s| - 1]), s[|s| - 1]);
    }
  }

  // ---------------------------------------------------------------------------------------
  // The greedy grant
  // ---------------------------------------------------------------------------------------

  /** Power granted so far (before the discharge veto) and the headroom left. */
  datatype Progress = Progress(power: seq<real>, site: real, phases: map<string, real>)

  function GrantNext(p: Progress, s: Session): Progress {
    var headroom := if s.phase in p.phases then p.phases[s.phase] else p.site;
    var power := Max(0.0, Min(Min(s.Requested(), p.site), headroom));
    Progress(p.power + [power], p.site - power,
             if s.phase in p.phases then p.phases[s.phase := p.phases[s.phase] - power] else p.phases)
  }

  function Granted(site: Site, order: seq<Session>, k: nat): (p: Progress)
    requires k <= |order|
    ensures |p.power| == k && p.phases.Keys == site.phaseLimits.Keys
  {
    if k == 0 then Progress([], site.limitKw, site.phaseLimits)
    else GrantNext(Granted(site, order, k - 1), order[k - 1])
  }

  // ---------------------------------------------------------------------------------------
  // Assignments, the reference
  // ---------------------------------------------------------------------------------------

  /** Power assigned on one phase to the first k sessions. */
  function OnPhase(order: seq<Session>, a: seq<real>, phase: string, k: nat): real
    requires k <= |order| && k <= |a|
  {
    if k == 0 then 0.0 else OnPhase(order, a, phase, k - 1) + (if order[k - 1].phase == phase then a[k - 1] else 0.0)
  }

  /** Power assigned to the first k sessions on phases without a limit. */
  function OffLimits(site: Site, order: seq<Session>, a: seq<real>, k: nat): real
    requires k <= |order| && k <= |a|
  {
    if k == 0 then 0.0
    else OffLimits(site, order, a, k - 1) + (if order[k - 1].phase in site.phaseLimits then 0.0 else a[k - 1])
  }

  /** Nobody above their request, every limited phase and the site within its limit. */
  ghost predicate Feasible(site: Site, order: seq<Session>, a: seq<real>) {
    && |a| == |order|
    && (forall i :: 0 <= i < |a| ==> 0.0 <= a[i] <= order[i].Request())
    && Total(a, |a|) <= site.limitKw
    && (forall phase :: phase in site.phaseLimits ==> OnPhase(order, a, phase, |a|) <= site.Limit(phase))
  }

  function Requests(order: seq<Session>): (r: seq<real>)
    ensures |r| == |order|
  {
    seq(|order|, i requires 0 <= i < |order| => order[i].Request())
  }

  /** Sum over the first m phases of min(limit, requests on the phase by the first k sessions). */
  function PhaseCap(site: Site, order: seq<Session>, phases: seq<string>, m: nat, k: nat): real
    requires m <= |phases| && k <= |order| && forall i :: 0 <= i < |phases| ==> phases[i] in site.phaseLimits
  {
    if m == 0 then 0.0
    else PhaseCap(site, order, phases, m - 1, k) +
         Min(site.Limit(phases[m - 1]), OnPhase(order, Requests(order), phases[m - 1], k))
  }

  /** The limited phases, each once. */
  ghost predicate ListsPhases(site: Site, phases: seq<string>) {
    && (forall i :: 0 <= i < |phases| ==> phases[i] in site.phaseLimits)
    && (forall p :: p in site.phaseLimits ==> p in phases)
    && (forall i, j :: 0 <= i < j < |phases| ==> phases[i] != phases[j])
  }

  /** What the first k sessions could use if there were no site limit. */
  function Cap(site: Site, order: seq<Session>, phases: seq<string>, k: nat): real
    requires k <= |order| && forall i :: 0 <= i < |phases| ==> phases[i] in site.phaseLimits
  {
    PhaseCap(site, order, phases, |phases|, k) + OffLimits(site, order, Requests(order), k)
  }

  // ---------------------------------------------------------------------------------------
  // The grant as an assignment
  // ---------------------------------------------------------------------------------------

  lemma {:induction false} OnPhasePrefix(order: seq<Session>, a: seq<real>, b: seq<real>, phase: string, k: nat)
    requires k <= |order| && k <= |a| && k <= |b| && forall i :: 0 <= i < k ==> a[i] == b[i]
    ensures OnPhase(order, a, phase, k) == OnPhase(order, b, phase, k)
  {
    if k > 0 { OnPhasePrefix(order, a, b, phase, k - 1); }
  }

  /** What is left of the site equals its limit minus what was granted, and nothing is overdrawn. */
  lemma {:induction false} GrantAccounts(site: Site, order: seq<Session>, k: nat)
    requires site.limitKw >= 0.0 && k <= |order|
    ensures var g := Granted(site, order, k);
            && g.site == site.limitKw - Total(g.power, k) && g.site >= 0.0
            && (forall i :: 0 <= i < k ==> 0.0 <= g.power[i] <= order[i].Request())
  {
    hide Session.Requested, Granted, GrantNext;
    if k == 0 {
      assert Granted(site, order, 0) == Progress([], site.limitKw, site.phaseLimits) by { GrantedSteps(site, order); }
    } else {
      GrantAccounts(site, order, k - 1);
      GrantAppends(site, order, k);
      NextGrant(site, order, k - 1);
      var g, h := Granted(site, order, k - 1), Granted(site, order, k);
      assert forall i :: 0 <= i < k - 1 ==> h.power[i] == h.power[..k - 1][i];
    }
  }

  /** The same for one limited phase. */
  lemma {:induction false} PhaseAccounts(site: Site, order: seq<Session>, p: string, k: nat)
    requires p in site.phaseLimits && k <= |order|
    ensures var g := Granted(site, order, k);
            && g.phases[p] == site.phaseLimits[p] - OnPhase(order, g.power, p, k)
            && 0.0 <= OnPhase(order, g.power, p, k) <= site.Limit(p)
  {
    hide Session.Requested;
    if k > 0 {
      PhaseAccounts(site, order, p, k - 1);
      var g, h := Granted(site, order, k - 1), Granted(site, order, k);
      OnPhasePrefix(order, g.power, h.power, p, k - 1);
    }
  }

  lemma GrantIsFeasible(site: Site, order: seq<Session>)
    requires site.limitKw >= 0.0
    ensures Feasible(site, order, Granted(site, order, |order|).power)
  {
    GrantAccounts(site, order, |order|);
    forall p | p in site.phaseLimits
      ensures OnPhase(order, Granted(site, order, |order|).power, p, |order|) <= site.Limit(p) {
      PhaseAccounts(site, order, p, |order|);
    }
  }

  // ---------------------------------------------------------------------------------------
  // The grant's total
  // ---------------------------------------------------------------------------------------

  /** The k-th session's request raises the cap of its own phase only. */
  lemma {:induction false} PhaseCapStep(site: Site, order: seq<Session>, phases: seq<string>, m: nat, k: nat)
    requires m <= |phases| && 0 < k <= |order| && forall i :: 0 <= i < |phases| ==> phases[i] in site.phaseLimits
    requires forall i, j :: 0 <= i < j < |phases| ==> phases[i] != phases[j]
    ensures var s, r := order[k - 1], Requests(order);
            PhaseCap(site, order, phases, m, k) == PhaseCap(site, order, phases, m, k - 1) +
              (if s.phase in phases[..m] && s.phase in site.phaseLimits
               then Min(site.Limit(s.phase), OnPhase(order, r, s.phase, k - 1) + s.Request())
                    - Min(site.Limit(s.phase), OnPhase(order, r, s.phase, k - 1))
               else 0.0)
  {
    hide Session.Request;
    if m > 0 {
      PhaseCapStep(site, order, phases, m - 1, k);
      assert phases[..m] == phases[..m - 1] + [phases[m - 1]];
      assert phases[m - 1] !in phases[..m - 1];
    }
  }

  /** Extra use the k-th session could make beyond the earlier ones if the site had no limit. */
  function Increment(site: Site, order: seq<Session>, k: nat): real
    requires 0 < k <= |order|
  {
    var s, used := order[k - 1], OnPhase(order, Requests(order), order[k - 1].phase, k - 1);
    if s.phase in site.phaseLimits then Min(site.Limit(s.phase), used + s.Request()) - Min(site.Limit(s.phase), used)
    else s.Request()
  }

  lemma CapStep(site: Site, order: seq<Session>, phases: seq<string>, k: nat)
    requires ListsPhases(site, phases) && 0 < k <= |order|
    ensures Cap(site, order, phases, k) == Cap(site, order, phases, k - 1) + Increment(site, order, k)
  {
    PhaseCapStep(site, order, phases, |phases|, k);
    assert phases[..|phases|] == phases;
  }

  lemma {:induction false} RequestsNonNegative(order: seq<Session>, phase: string, k: nat)
    requires k <= |order|
    ensures OnPhase(order, Requests(order), phase, k) >= 0.0
  {
    if k > 0 { RequestsNonNegative(order, phase, k - 1); }
  }

  /** As long as the site has headroom every limited phase holds exactly min(limit, requests). */
  ghost predicate PhasesSaturated(site: Site, order: seq<Session>, k: nat)
    requires k <= |order|
  {
    forall p :: p in site.phaseLimits ==>
      OnPhase(order, Granted(site, order, k).power, p, k) == Min(site.Limit(p), OnPhase(order, Requests(order), p, k))
  }

  lemma SaturatedStep(site: Site, order: seq<Session>, k: nat)
    requires site.limitKw >= 0.0 && 0 < k <= |order| && PhasesSaturated(site, order, k - 1)
    requires Granted(site, order, k - 1).site > 0.0
    ensures var g := Granted(site, order, k - 1);
            Granted(site, order, k).power[k - 1] == Min(Increment(site, order, k), g.site)
    ensures Increment(site, order, k) >= 0.0
  {
    hide Session.Requested;
    var g := Granted(site, order, k - 1);
    var s := order[k - 1];
    RequestsNonNegative(order, s.phase, k - 1);
    if s.phase in site.phaseLimits { PhaseAccounts(site, order, s.phase, k - 1); }
  }

  lemma SaturatedStays(site: Site, order: seq<Session>, k: nat, p: string)
    requires site.limitKw >= 0.0 && 0 < k <= |order| && PhasesSaturated(site, order, k - 1) && p in site.phaseLimits
    requires Granted(site, order, k - 1).site > 0.0 && Granted(site, order, k).site > 0.0
    ensures OnPhase(order, Granted(site, order, k).power, p, k) ==
            Min(site.Limit(p), OnPhase(order, Requests(order), p, k))
  {
    hide Session.Requested;
    var g, h := Granted(site, order, k - 1), Granted(site, order, k);
    SaturatedStep(site, order, k);
    OnPhasePrefix(order, g.power, h.power, p, k - 1);
  }

  /** Power granted to the first k sessions is the site limit or what they could use, whichever is less. */
  lemma {:induction false} GrantTotal(site: Site, order: seq<Session>, phases: seq<string>, k: nat)
    requires site.limitKw >= 0.0 && ListsPhases(site, phases) && k <= |order|
    ensures Total(Granted(site, order, k).power, k) == Min(site.limitKw, Cap(site, order, phases, k))
    ensures Granted(site, order, k).site > 0.0 ==> PhasesSaturated(site, order, k)
  {
    hide PhasesSaturated, Cap, Increment, GrantNext, Granted, Total, Session.Request;
    if k == 0 {
      NothingGranted(site, order, phases);
    } else {
      GrantTotal(site, order, phases, k - 1);
      CapStep(site, order, phases, k);
      GrantAccounts(site, order, k - 1);
      GrantAccounts(site, order, k);
      var g, h := Granted(site, order, k - 1), Granted(site, order, k);
      GrantAppends(site, order, k);
      if g.site > 0.0 {
        SaturatedStep(site, order, k);
        if h.site > 0.0 { AllSaturated(site, order, k); }
      } else {
        IncrementNonNegative(site, order, k);
      }
    }
  }

  lemma NothingGranted(site: Site, order: seq<Session>, phases: seq<string>)
    requires site.limitKw >= 0.0 && ListsPhases(site, phases)
    ensures Total(Granted(site, order, 0).power, 0) == Min(site.limitKw, Cap(site, order, phases, 0))
    ensures PhasesSaturated(site, order, 0)
  {
    EmptyCap(site, order, phases, |phases|);
  }

  lemma AllSaturated(site: Site, order: seq<Session>, k: nat)
    requires site.limitKw >= 0.0 && 0 < k <= |order| && PhasesSaturated(site, order, k - 1)
    requires Granted(site, order, k - 1).site > 0.0 && Granted(site, order, k).site > 0.0
    ensures PhasesSaturated(site, order, k)
  {
    hide GrantNext;
    forall p | p in site.phaseLimits
      ensures OnPhase(order, Granted(site, order, k).power, p, k) ==
              Min(site.Limit(p), OnPhase(order, Requests(order), p, k))
    {
      SaturatedStays(site, order, k, p);
    }
  }

  lemma GrantAppends(site: Site, order: seq<Session>, k: nat)
    requires 0 < k <= |order|
    ensures var g, h := Granted(site, order, k - 1), Granted(site, order, k);
            && h.power[..k - 1] == g.power && h.site == g.site - h.power[k - 1]
            && Total(h.power, k) == Total(g.power, k - 1) + h.power[k - 1]
  {
    var g, h := Granted(site, order, k - 1), Granted(site, order, k);
    TotalEqual(g.power, h.power, k - 1);
  }

  lemma IncrementNonNegative(site: Site, order: seq<Session>, k: nat)
    requires 0 < k <= |order|
    ensures Increment(site, order, k) >= 0.0
  {}

  lemma {:induction false} EmptyCap(site: Site, order: seq<Session>, phases: seq<string>, m: nat)
    requires m <= |phases| && forall i :: 0 <= i < |phases| ==> phases[i] in site.phaseLimits
    ensures PhaseCap(site, order, phases, m, 0) == 0.0
  {
    if m > 0 { EmptyCap(site, order, phases, m - 1); }
  }

  // ---------------------------------------------------------------------------------------
  // No feasible assignment grants more
  // ---------------------------------------------------------------------------------------

  function PhaseSums(order: seq<Session>, a: seq<real>, phases: seq<string>, m: nat, k: nat): real
    requires m <= |phases| && k <= |order| && k <= |a|
  {
    if m == 0 then 0.0 else PhaseSums(order, a, phases, m - 1, k) + OnPhase(order, a, phases[m - 1], k)
  }

  lemma {:induction false} PhaseSumsStep(order: seq<Session>, a: seq<real>, phases: seq<string>, m: nat, k: nat)
    requires m <= |phases| && 0 < k <= |order| && k <= |a|
    requires forall i, j :: 0 <= i < j < |phases| ==> phases[i] != phases[j]
    ensures PhaseSums(order, a, phases, m, k) ==
            PhaseSums(order, a, phases, m, k - 1) + (if order[k - 1].phase in phases[..m] then a[k - 1] else 0.0)
  {
    if m > 0 {
      PhaseSumsStep(order, a, phases, m - 1, k);
      assert phases[..m] == phases[..m - 1] + [phases[m - 1]];
      assert phases[m - 1] !in phases[..m - 1];
    }
  }

  lemma {:induction false} NoPhaseSums(order: seq<Session>, a: seq<real>, phases: seq<string>, m: nat)
    requires m <= |phases|
    ensures PhaseSums(order, a, phases, m, 0) == 0.0
  {
    if m > 0 { NoPhaseSums(order, a, phases, m - 1); }
  }

  /** Grouping an assignment by phase. */
  lemma {:induction false} TotalByPhase(site: Site, order: seq<Session>, a: seq<real>, phases: seq<string>, k: nat)
    requires ListsPhases(site, phases) && k <= |order| && k <= |a|
    ensures Total(a, k) == PhaseSums(order, a, phases, |phases|, k) + OffLimits(site, order, a, k)
  {
    if k == 0 {
      NoPhaseSums(order, a, phases, |phases|);
    } else {
      TotalByPhase(site, order, a, phases, k - 1);
      PhaseSumsStep(order, a, phases, |phases|, k);
      assert phases[..|phases|] == phases;
    }
  }

  lemma {:induction false} AssignmentBelowRequests(site: Site, order: seq<Session>, a: seq<real>, phase: string, k: nat)
    requires k <= |order| == |a| && forall i :: 0 <= i < |a| ==> 0.0 <= a[i] <= order[i].Request()
    ensures OnPhase(order, a, phase, k) <= OnPhase(order, Requests(order), phase, k)
    ensures OffLimits(site, order, a, k) <= OffLimits(site, order, Requests(order), k)
  {
    hide Session.Request;
    if k > 0 { AssignmentBelowRequests(site, order, a, phase, k - 1); }
  }

  lemma {:induction false} PhaseSumsBelowCap(site: Site, order: seq<Session>, a: seq<real>, phases: seq<string>, m: nat)
    requires ListsPhases(site, phases) && Feasible(site, order, a) && m <= |phases|
    ensures PhaseSums(order, a, phases, m, |a|) <= PhaseCap(site, order, phases, m, |a|)
  {
    if m > 0 {
      PhaseSumsBelowCap(site, order, a, phases, m - 1);
      AssignmentBelowRequests(site, order, a, phases[m - 1], |a|);
    }
  }

  /** Main result: the grant is feasible and its total, min(site limit, phase-wise usable requests), is
      the most any feasible assignment gives out. */
  lemma GrantIsMaximal(site: Site, order: seq<Session>, phases: seq<string>, a: seq<real>)
    requires site.limitKw >= 0.0 && ListsPhases(site, phases) && Feasible(site, order, a)
    ensures var g := Granted(site, order, |order|).power;
            && Feasible(site, order, g)
            && Total(g, |g|) == Min(site.limitKw, Cap(site, order, phases, |order|))
            && Total(a, |a|) <= Total(g, |g|)
  {
    GrantIsFeasible(site, order);
    GrantTotal(site, order, phases, |order|);
    TotalByPhase(site, order, a, phases, |a|);
    PhaseSumsBelowCap(site, order, a, phases, |phases|);
    AssignmentBelowRequests(site, order, a, "", |a|);
  }

  // ---------------------------------------------------------------------------------------
  // Priority
  // ---------------------------------------------------------------------------------------

  lemma {:induction false} PrefixBelowTotal(order: seq<Session>, a: seq<real>, phase: string, i: nat, k: nat)
    requires i <= k <= |order| && k <= |a| && forall j :: 0 <= j < |a| ==> a[j] >= 0.0
    ensures Total(a, i) <= Total(a, k) && OnPhase(order, a, phase, i) <= OnPhase(order, a, phase, k)
    decreases k - i
  {
    if i < k { PrefixBelowTotal(order, a, phase, i, k - 1); }
  }

  /** The grant is lexicographically greatest in processing order: a feasible assignment that agrees with
      it on the sessions before i gives session i no more. */
  lemma GrantIsLexicographicallyGreatest(site: Site, order: seq<Session>, a: seq<real>, i: nat)
    requires site.limitKw >= 0.0 && Feasible(site, order, a) && i < |order|
    requires var g := Granted(site, order, |order|).power; forall j :: 0 <= j < i ==> a[j] == g[j]
    ensures a[i] <= Granted(site, order, |order|).power[i]
  {
    hide Granted, Session.Requested, Total, OnPhase, GrantNext;
    var s, g := order[i], Granted(site, order, i);
    GrantPrefix(site, order, i + 1, |order|);
    GrantPrefix(site, order, i, |order|);
    NextGrant(site, order, i);
    GrantAccounts(site, order, i);
    PrefixBelowTotal(order, a, s.phase, i + 1, |order|);
    assert forall j :: 0 <= j < i ==> g.power[j] == Granted(site, order, |order|).power[..i][j];
    TotalEqual(a, g.power, i);
    TotalNext(a, i);
    if s.phase in site.phaseLimits {
      PhaseAccounts(site, order, s.phase, i);
      OnPhasePrefix(order, a, g.power, s.phase, i);
      OnPhaseNext(order, a, i);
    }
    assert Granted(site, order, |order|).power[i] == Granted(site, order, |order|).power[..i + 1][i];
  }

  lemma GrantedSteps(site: Site, order: seq<Session>)
    ensures Granted(site, order, 0) == Progress([], site.limitKw, site.phaseLimits)
    ensures forall k :: 0 <= k < |order| ==> Granted(site, order, k + 1) == GrantNext(Granted(site, order, k), order[k])
  {}

  lemma NextGrant(site: Site, order: seq<Session>, i: nat)
    requires i < |order|
    ensures var g, s := Granted(site, order, i), order[i];
            Granted(site, order, i + 1).power[i] ==
            Max(0.0, Min(Min(s.Requested(), g.site), if s.phase in site.phaseLimits then g.phases[s.phase] else g.site))
  {}

  lemma TotalNext(a: seq<real>, i: nat)
    requires i < |a|
    ensures Total(a, i + 1) == Total(a, i) + a[i]
  {}

  lemma OnPhaseNext(order: seq<Session>, a: seq<real>, i: nat)
    requires i < |order| && i < |a|
    ensures OnPhase(order, a, order[i].phase, i + 1) == OnPhase(order, a, order[i].phase, i) + a[i]
  {}

  lemma {:induction false} GrantPrefix(site: Site, order: seq<Session>, i: nat, k: nat)
    requires i <= k <= |order|
    ensures Granted(site, order, k).power[..i] == Granted(site, order, i).power
    decreases k - i
  {
    if i < k {
      GrantPrefix(site, order, i, k - 1);
    }
  }

  // ---------------------------------------------------------------------------------------
  // The loop of the source, with the discharge veto
  // ---------------------------------------------------------------------------------------

  datatype Row = Row(id: string, allocatedKw: real, shortfallKw: real, atRisk: bool)

  const RISK_SLACK: real := 0.000000001

  /** The report row of a session that was granted `power` before the veto. */
  function RowOf(s: Session, power: real): Row {
    var final := if s.Vetoed() then 0.0 else power;
    var shortfall := if s.Vetoed() then Max(Max(0.0, s.minimumKw - power), s.minimumKw)
        else Max(0.0, s.minimumKw - power);
    Row(s.id, final, shortfall, shortfall > RISK_SLACK || final + RISK_SLACK < Min(s.RequiredRate(), s.maximumKw))
  }

  datatype Result = Ok(rows: seq<Row>, siteHeadroomKw: real) | Invalid

  // ---------------------------------------------------------------------------------------
  // What a row means for the vehicle
  // ---------------------------------------------------------------------------------------

  /** Time left to the deadline, a minute at least. */
  function StayHours(s: Session): real { if s.hoursLeft > 1.0 / 60.0 then s.hoursLeft else 1.0 / 60.0 }

  /** At this power the vehicle has its target energy at departure. */
  predicate Reaches(s: Session, powerKw: real) {
    s.deliveredKwh + Mul(powerKw, Mul(StayHours(s), s.efficiency)) >= s.targetKwh
  }

  /** Its battery takes up energy at a rate the source does not replace by its floor. */
  predicate TakesEnergy(s: Session) { Mul(StayHours(s), s.efficiency) >= 0.000000001 }

  lemma RateReaches(s: Session, powerKw: real)
    requires TakesEnergy(s) && powerKw >= 0.0
    ensures powerKw >= s.RequiredRate() <==> Reaches(s, powerKw)
  {
    hide Mul;
    var hours := Mul(StayHours(s), s.efficiency);
    assert s.RequiredRate() == s.Need() / hours;
    MulQuotient(s.Need(), hours);
    MulNonNegative(powerKw, hours);
    if powerKw >= s.Need() / hours {
      MulOrder(s.Need() / hours, powerKw, hours);
    } else {
      MulPositive(s.Need() / hours - powerKw, hours);
      MulSum(hours, s.Need() / hours, -powerKw);
      MulNegated(powerKw, hours);
    }
  }

  /** A grant goes as far as the charger and the headroom allow until the vehicle has its target and its
      minimum, and not further. */
  lemma GrantServes(p: Progress, s: Session)
    requires TakesEnergy(s)
    ensures var next := GrantNext(p, s);
            var given := next.power[|p.power|];
            var phaseLeft := if s.phase in p.phases then next.phases[s.phase] else next.site;
            && |next.power| == |p.power| + 1
            && 0.0 <= given <= Max(0.0, s.maximumKw)
            && (next.site > 0.0 && phaseLeft > 0.0 ==>
                given >= s.maximumKw || (Reaches(s, given) && given >= s.minimumKw))
            && (forall less :: 0.0 <= less < given && s.minimumKw <= less ==> !Reaches(s, less))
  {
    hide Mul, Session.RequiredRate, TakesEnergy, Reaches;
    var given := GrantNext(p, s).power[|p.power|];
    RateReaches(s, given);
    forall less | 0.0 <= less < given && s.minimumKw <= less ensures !Reaches(s, less) { RateReaches(s, less); }
  }

  /** A row that is not at risk is that of a vehicle with its minimum that will reach its target or charges
      at its maximum, up to the slack, and any such vehicle is not at risk; a vetoed one gets nothing. */
  ghost predicate RowMeans(s: Session, row: Row) {
    var vetoed := s.discharging && (!s.v2gOptIn || !s.vehicleV2g || !s.chargerV2g);
    && row.id == s.id && 0.0 <= row.allocatedKw <= Max(0.0, s.maximumKw)
    && row.shortfallKw >= 0.0 && row.allocatedKw + row.shortfallKw >= s.minimumKw
    && (vetoed ==> row.allocatedKw == 0.0)
    && (!vetoed ==> row.shortfallKw == 0.0 || row.allocatedKw + row.shortfallKw == s.minimumKw)
    && (TakesEnergy(s) ==>
        && (!row.atRisk ==>
            && row.shortfallKw <= 0.000000001
            && (Reaches(s, row.allocatedKw + 0.000000001) || row.allocatedKw + 0.000000001 >= s.maximumKw))
        && (row.shortfallKw == 0.0 && (Reaches(s, row.allocatedKw) || row.allocatedKw >= s.maximumKw) ==>
            !row.atRisk)
        && (!vetoed ==>
            forall less :: 0.0 <= less < row.allocatedKw && s.minimumKw <= less ==> !Reaches(s, less)))
  }

  lemma RowIsMeaningful(p: Progress, s: Session)
    ensures |GrantNext(p, s).power| == |p.power| + 1
    ensures RowMeans(s, RowOf(s, GrantNext(p, s).power[|p.power|]))
  {
    hide Mul, Session.RequiredRate, TakesEnergy, Reaches;
    var given := GrantNext(p, s).power[|p.power|];
    var row := RowOf(s, given);
    if TakesEnergy(s) {
      GrantServes(p, s);
      RateReaches(s, row.allocatedKw);
      RateReaches(s, row.allocatedKw + RISK_SLACK);
    }
  }

  lemma RowsMean(site: Site, order: seq<Session>)
    ensures var g := Granted(site, order, |order|).power;
            forall i :: 0 <= i < |order| ==> RowMeans(order[i], RowOf(order[i], g[i]))
  {
    hide RowMeans, RowOf, GrantNext;
    var g := Granted(site, order, |order|).power;
    forall i | 0 <= i < |order| ensures RowMeans(order[i], RowOf(order[i], g[i])) {
      RowIsMeaningful(Granted(site, order, i), order[i]);
      GrantPrefix(site, order, i + 1, |order|);
      assert g[i] == g[..i + 1][i];
    }
  }

  /** While the site and the phase have headroom at the end, nobody who was not vetoed was held back. */
  lemma HeadroomMeansServed(site: Site, order: seq<Session>, i: nat)
    requires i < |order| && TakesEnergy(order[i]) && site.limitKw >= 0.0
    requires var g := Granted(site, order, |order|);
             g.site > 0.0 && (order[i].phase in site.phaseLimits ==> g.phases[order[i].phase] > 0.0)
    ensures var given := Granted(site, order, |order|).power[i];
            given >= order[i].maximumKw || (Reaches(order[i], given) && given >= order[i].minimumKw)
  {
    hide Granted, GrantNext, Reaches, TakesEnergy, Total, OnPhase;
    var s, n := order[i], |order|;
    var g, h := Granted(site, order, i), Granted(site, order, i + 1);
    GrantedSteps(site, order);
    GrantServes(g, s);
    GrantPrefix(site, order, i + 1, n);
    var all := Granted(site, order, n).power;
    assert all[i] == all[..i + 1][i];
    GrantAccounts(site, order, i + 1);
    GrantAccounts(site, order, n);
    PrefixBelowTotal(order, all, s.phase, i + 1, n);
    assert forall j :: 0 <= j < i + 1 ==> all[j] == all[..i + 1][j];
    TotalEqual(h.power, all, i + 1);
    if s.phase in site.phaseLimits {
      PhaseAccounts(site, order, s.phase, i + 1);
      PhaseAccounts(site, order, s.phase, n);
      OnPhasePrefix(order, h.power, all, s.phase, i + 1);
    }
  }

  /** The processing order in the payload's own terms: a thousand for each point of priority, plus the power
      that would be needed throughout. */
  lemma ArrangedByUrgency(sessions: seq<Session>, i: nat, j: nat)
    requires i < j < |Arranged(sessions)|
    ensures var a, b := Arranged(sessions)[i], Arranged(sessions)[j];
            Mul(a.priority, 1000.0) + Urgency(a) > Mul(b.priority, 1000.0) + Urgency(b) ||
            (Mul(a.priority, 1000.0) + Urgency(a) == Mul(b.priority, 1000.0) + Urgency(b) && !TextLess(a.id, b.id))
  {
    var order := Arranged(sessions);
    ArrangedOrdered(sessions);
    ScoreIs(order[i]);
    ScoreIs(order[j]);
    hide Mul, Arranged, Urgency, Session.Score, TextLess;
    assert Before(order[i], order[j]);
  }

  lemma ScoreIs(s: Session)
    ensures s.Score() == Mul(s.priority, 1000.0) + Urgency(s)
  {
    hide Mul;
    assert s.Hours() == StayHours(s);
  }

  function Urgency(s: Session): real {
    if s.targetKwh > s.deliveredKwh then (s.targetKwh - s.deliveredKwh) / StayHours(s) else 0.0
  }

  method AllocateChargingPower(sessions: seq<Session>, site: Site) returns (r: Result)
    ensures r.Invalid? <==> site.limitKw < 0.0 || sessions == []
    ensures r.Ok? ==>
              var order := Arranged(sessions);
              var g := Granted(site, order, |order|);
              && |r.rows| == |order| && r.siteHeadroomKw == g.site
              && forall i :: 0 <= i < |order| ==>
                   r.rows[i] == RowOf(order[i], g.power[i]) && RowMeans(order[i], r.rows[i])
  {
    if site.limitKw < 0.0 || sessions == [] {
      return Invalid;
    }
    hide Arranged, GrantNext, RowOf, Granted, RowMeans;
    RowsMean(site, Arranged(sessions));
    var remainingSite, remainingPhase := site.limitKw, site.phaseLimits;
    var order := Arranged(sessions);
    GrantedSteps(site, order);
    var rows: seq<Row> := [];
    ghost var granted: seq<real> := [];
    for k := 0 to |order|
      invariant Progress(granted, remainingSite, remainingPhase) == Granted(site, order, k)
      invariant |rows| == |granted| == k
      invariant forall i :: 0 <= i < k ==> rows[i] == RowOf(order[i], granted[i])
    {
      GrantNextAppends(granted, remainingSite, remainingPhase, order[k]);
      granted := granted + GrantNext(Progress([], remainingSite, remainingPhase), order[k]).power;
      var row: Row;
      row, remainingSite, remainingPhase := AllocateNext(order[k], remainingSite, remainingPhase);
      rows := rows + [row];
    }
    return Ok(rows, remainingSite);
  }

  lemma GrantNextAppends(power: seq<real>, site: real, phases: map<string, real>, s: Session)
    ensures var next, alone := GrantNext(Progress(power, site, phases), s), GrantNext(Progress([], site, phases), s);
            |alone.power| == 1 && next == Progress(power + alone.power, alone.site, alone.phases)
  {}

  /** One pass of the loop: grant, draw down the headroom, then veto an unauthorised discharge. */
  method AllocateNext(s: Session, site: real, phases: map<string, real>)
    returns (row: Row, remainingSite: real, remainingPhase: map<string, real>)
    ensures var next := GrantNext(Progress([], site, phases), s);
            row == RowOf(s, next.power[0]) && remainingSite == next.site && remainingPhase == next.phases
  {
    hide Session.Requested, Session.RequiredRate;
    remainingSite, remainingPhase := site, phases;
    var phaseHeadroom := if s.phase in remainingPhase then remainingPhase[s.phase] else remainingSite;
    var given := Max(0.0, Min(Min(s.Requested(), remainingSite), phaseHeadroom));
    var shortfall := Max(0.0, s.minimumKw - given);
    remainingSite := remainingSite - given;
    if s.phase in remainingPhase {
      remainingPhase := remainingPhase[s.phase := remainingPhase[s.phase] - given];
    }
    if s.discharging && !(s.v2gOptIn && s.vehicleV2g && s.chargerV2g) {
      given := 0.0;
      shortfall := Max(shortfall, s.minimumKw);
    }
    row := Row(s.id, given, shortfall,
               shortfall > RISK_SLACK || given + RISK_SLACK < Min(s.RequiredRate(), s.maximumKw));
  }

  /** Power that is finally reported, the veto applied. */
  function Reported(order: seq<Session>, power: seq<real>): (a: seq<real>)
    requires |power| == |order|
    ensures |a| == |order|
  {
    seq(|order|, i requires 0 <= i < |order| => RowOf(order[i], power[i]).allocatedKw)
  }

  lemma {:induction false} VetoLowers(order: seq<Session>, power: seq<real>, phase: string, k: nat)
    requires k <= |order| == |power| && forall i :: 0 <= i < |power| ==> power[i] >= 0.0
    ensures Total(Reported(order, power), k) <= Total(power, k)
    ensures OnPhase(order, Reported(order, power), phase, k) <= OnPhase(order, power, phase, k)
  {
    if k > 0 { VetoLowers(order, power, phase, k - 1); }
  }

  /** The limits still hold after the veto. */
  lemma ReportedIsFeasible(site: Site, order: seq<Session>)
    requires site.limitKw >= 0.0
    ensures Feasible(site, order, Reported(order, Granted(site, order, |order|).power))
  {
    var g := Granted(site, order, |order|).power;
    GrantAccounts(site, order, |order|);
    VetoLowers(order, g, "", |order|);
    forall p | p in site.phaseLimits ensures OnPhase(order, Reported(order, g), p, |order|) <= site.Limit(p) {
      PhaseAccounts(site, order, p, |order|);
      VetoLowers(order, g, p, |order|);
    }
  }

  // ---------------------------------------------------------------------------------------
  // When the veto costs nothing
  // ---------------------------------------------------------------------------------------

  /** Granted power that the veto takes back from the first k sessions. */
  function VetoedPower(order: seq<Session>, power: seq<real>, k: nat): real
    requires k <= |order| && k <= |power|
  {
    if k == 0 then 0.0 else VetoedPower(order, power, k - 1) + (if order[k - 1].Vetoed() then power[k - 1] else 0.0)
  }

  lemma {:induction false} VetoTakes(order: seq<Session>, power: seq<real>, k: nat)
    requires k <= |order| == |power|
    ensures Total(Reported(order, power), k) == Total(power, k) - VetoedPower(order, power, k)
  {
    if k > 0 { VetoTakes(order, power, k - 1); }
  }

  lemma {:induction false} VetoedPowerSign(order: seq<Session>, power: seq<real>, k: nat)
    requires k <= |order| == |power| && forall i :: 0 <= i < |power| ==> power[i] >= 0.0
    ensures VetoedPower(order, power, k) >= 0.0
  {
    if k > 0 { VetoedPowerSign(order, power, k - 1); }
  }

  /** Vetoed sessions get nothing. */
  ghost predicate Withheld(order: seq<Session>, a: seq<real>) {
    |a| == |order| && forall i :: 0 <= i < |a| && order[i].Vetoed() ==> a[i] == 0.0
  }

  /** The same sessions with the vetoed ones asking for nothing. */
  function Unvetoed(order: seq<Session>): (r: seq<Session>)
    ensures |r| == |order|
  {
    seq(|order|, i requires 0 <= i < |order| => if order[i].Vetoed() then order[i].(maximumKw := 0.0) else order[i])
  }

  lemma {:induction false} UnvetoedPhases(order: seq<Session>, a: seq<real>, phase: string, k: nat)
    requires k <= |order| && k <= |a|
    ensures OnPhase(Unvetoed(order), a, phase, k) == OnPhase(order, a, phase, k)
  {
    if k > 0 { UnvetoedPhases(order, a, phase, k - 1); }
  }

  lemma UnvetoedFeasible(site: Site, order: seq<Session>, a: seq<real>)
    ensures Feasible(site, Unvetoed(order), a) <==> Feasible(site, order, a) && Withheld(order, a)
  {
    hide Session.RequiredRate;
    if |a| == |order| {
      forall i | 0 <= i < |a|
        ensures Unvetoed(order)[i].Request() == if order[i].Vetoed() then 0.0 else order[i].Request()
        ensures order[i].Request() >= 0.0
      {}
      forall phase ensures OnPhase(Unvetoed(order), a, phase, |a|) == OnPhase(order, a, phase, |a|) {
        UnvetoedPhases(order, a, phase, |a|);
      }
    }
  }

  /** If no vetoed session asks for power, the report is the grant itself. */
  lemma NoVetoNoLoss(site: Site, order: seq<Session>)
    requires site.limitKw >= 0.0
    requires forall i :: 0 <= i < |order| && order[i].Vetoed() ==> order[i].Request() == 0.0
    ensures var g := Granted(site, order, |order|).power;
            Reported(order, g) == g && VetoedPower(order, g, |order|) == 0.0
  {
    hide Session.Request;
    var g := Granted(site, order, |order|).power;
    GrantAccounts(site, order, |order|);
    VetoTakes(order, g, |order|);
    assert Reported(order, g) == g;
  }

  /** Among assignments that give vetoed sessions nothing, the report is maximal exactly when what the veto
      takes back is no more than what vetoed sessions add to the power the site could use. */
  lemma ReportIsMaximalIff(site: Site, order: seq<Session>, phases: seq<string>)
    requires site.limitKw >= 0.0 && ListsPhases(site, phases)
    ensures var g := Granted(site, order, |order|).power;
            (forall a :: Feasible(site, order, a) && Withheld(order, a) ==>
             Total(a, |a|) <= Total(Reported(order, g), |g|))
            <==>
            Min(site.limitKw, Cap(site, order, phases, |order|)) - VetoedPower(order, g, |order|) ==
            Min(site.limitKw, Cap(site, Unvetoed(order), phases, |order|))
  {
    hide Feasible, Granted, Cap, Unvetoed, VetoedPower, Total;
    var n := |order|;
    var g := Granted(site, order, n).power;
    var best := Granted(site, Unvetoed(order), n).power;
    GrantIsFeasible(site, order);
    GrantIsMaximal(site, order, phases, g);
    VetoTakes(order, g, n);
    ReportedIsFeasible(site, order);
    ReportWithheld(order, g);
    UnvetoedFeasible(site, order, Reported(order, g));
    GrantIsMaximal(site, Unvetoed(order), phases, Reported(order, g));
    UnvetoedFeasible(site, order, best);
    assert |best| == n;
    forall a | Feasible(site, order, a) && Withheld(order, a) ensures Total(a, |a|) <= Total(best, n) {
      UnvetoedFeasible(site, order, a);
      GrantIsMaximal(site, Unvetoed(order), phases, a);
    }
  }

  lemma ReportWithheld(order: seq<Session>, power: seq<real>)
    requires |power| == |order|
    ensures Withheld(order, Reported(order, power))
  {}

  /** Among all assignments, vetoed sessions included, it is maximal exactly when the veto takes nothing. */
  lemma ReportIsMaximalOfAllIff(site: Site, order: seq<Session>, phases: seq<string>)
    requires site.limitKw >= 0.0 && ListsPhases(site, phases)
    ensures var g := Granted(site, order, |order|).power;
            (forall a :: Feasible(site, order, a) ==> Total(a, |a|) <= Total(Reported(order, g), |g|)) <==>
            VetoedPower(order, g, |order|) == 0.0
  {
    hide Feasible, Granted, Cap, Total;
    var g := Granted(site, order, |order|).power;
    GrantIsFeasible(site, order);
    GrantAccounts(site, order, |order|);
    VetoedPowerSign(order, g, |order|);
    VetoTakes(order, g, |order|);
    forall a | Feasible(site, order, a) ensures Total(a, |a|) <= Total(g, |g|) {
      GrantIsMaximal(site, order, phases, a);
    }
  }

  /** But the veto does not hand its power on: here a vetoed discharge session has used up the site and
      the charging session behind it gets nothing, although ten kilowatts are feasible. */
  lemma VetoWastesPower()
    ensures var blocked := Session("a", "A", 10.0, 0.0, 1.0, 2.0, 10.0, 10.0, 1.0, true, false, false, false);
            var waiting := Session("b", "A", 10.0, 0.0, 1.0, 1.0, 10.0, 10.0, 1.0, false, false, false, false);
            var site, order := Site(10.0, map[]), [blocked, waiting];
            && Reported(order, Granted(site, order, 2).power) == [0.0, 0.0]
            && Feasible(site, order, [0.0, 10.0])
  {
    var blocked := Session("a", "A", 10.0, 0.0, 1.0, 2.0, 10.0, 10.0, 1.0, true, false, false, false);
    var waiting := Session("b", "A", 10.0, 0.0, 1.0, 1.0, 10.0, 10.0, 1.0, false, false, false, false);
    var site, order := Site(10.0, map[]), [blocked, waiting];
    assert blocked.Requested() == 10.0 && waiting.Requested() == 10.0;
    assert Granted(site, order, 0) == Progress([], 10.0, map[]);
    assert Granted(site, order, 1) == Progress([10.0], 0.0, map[]);
    assert Granted(site, order, 2).power == [10.0, 0.0];
    assert Total([0.0, 10.0], 1) == 0.0 && Total([0.0, 10.0], 2) == 10.0;
  }
}
