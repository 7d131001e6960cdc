/** Line-outage screening (grid_ems.py) and the radial path walk it relies on (advanced_ems.py). */
module LineOutage {
  import opened RealMath
  import opened Wrappers

  /** A line without a phase entry serves every phase, one whose entry is null serves none. */
  datatype LinePhase = AllPhases | NoPhase | On(phase: string)

  datatype Line = Line(id: string, fromBus: string, toBus: string, phase: LinePhase, rating: Rating)

  datatype Rating = Rating(limitKw: real, resistanceOhm: real, reactanceOhm: real)

  predicate Serves(l: Line, phase: string) { l.phase == AllPhases || l.phase == On(phase) }

  datatype Proposal = Proposal(stationId: string, bus: string, phase: string, proposedKw: real, powerFactor: real)

  // ---------------------------------------------------------------------------------------
  // Paths of lines
  // ---------------------------------------------------------------------------------------

  /** A chain of lines leading from bus a down to bus b, first line first. */
  ghost predicate Downward(lines: seq<Line>, a: string, b: string, p: seq<Line>)
    decreases |p|
  {
    if p == [] then a == b
    else
      var last := p[|p| - 1];
      last in lines && last.toBus == b && Downward(lines, a, last.fromBus, p[..|p| - 1])
  }

  ghost predicate Feeds(lines: seq<Line>, a: string, b: string) {
    exists p :: Downward(lines, a, b, p)
  }

  /** A chain of lines leading from a bus up to the root, the bus's own feeder first. */
  ghost predicate Upward(lines: seq<Line>, root: string, bus: string, p: seq<Line>)
    decreases |p|
  {
    if p == [] then bus == root
    else p[0] in lines && p[0].toBus == bus && Upward(lines, root, p[0].fromBus, p[1..])
  }

  /** No two lines feed the same bus and none feeds the root. */
  ghost predicate Radial(lines: seq<Line>, root: string) {
    && (forall k, l :: k in lines && l in lines && k.toBus == l.toBus ==> k == l)
    && (forall l :: l in lines ==> l.toBus != root)
  }

  ghost predicate Unrepeated(lines: seq<Line>) {
    forall i, j :: 0 <= i < j < |lines| ==> lines[i] != lines[j]
  }

  // ---------------------------------------------------------------------------------------
  // The fixpoint of islanded buses
  // ---------------------------------------------------------------------------------------

  ghost predicate ClosedDown(lines: seq<Line>, s: set<string>) {
    forall l :: l in lines && l.fromBus in s ==> l.toBus in s
  }

  lemma {:induction false} ClosedHoldsFed(lines: seq<Line>, s: set<string>, a: string, b: string, p: seq<Line>)
    requires ClosedDown(lines, s) && a in s && Downward(lines, a, b, p)
    ensures b in s
    decreases |p|
  {
    if p != [] { ClosedHoldsFed(lines, s, a, p[|p| - 1].fromBus, p[..|p| - 1]); }
  }

  lemma FeedsSnoc(lines: seq<Line>, a: string, l: Line)
    requires l in lines && Feeds(lines, a, l.fromBus)
    ensures Feeds(lines, a, l.toBus)
  {
    var p :| Downward(lines, a, l.fromBus, p);
    assert (p + [l])[..|p|] == p;
    assert Downward(lines, a, l.toBus, p + [l]);
  }

  /** The islanded set is exactly what the lost line's far bus feeds, itself included. */
  method Islanded(lines: seq<Line>, start: string) returns (disconnected: set<string>)
    ensures forall b :: b in disconnected <==> Feeds(lines, start, b)
  {
    disconnected := {start};
    assert Downward(lines, start, start, []);
    ghost var universe := {start} + set l | l in lines :: l.toBus;
    var changed := true;
    while changed
      invariant start in disconnected && disconnected <= universe
      invariant forall b :: b in disconnected ==> Feeds(lines, start, b)
      invariant !changed ==> ClosedDown(lines, disconnected)
      decreases universe - disconnected, if changed then 1 else 0
    {
      changed := false;
      ghost var before := disconnected;
      for i := 0 to |lines|
        invariant before <= disconnected <= universe
        invariant forall b :: b in disconnected ==> Feeds(lines, start, b)
        invariant changed ==> before < disconnected
        invariant !changed ==> forall j :: 0 <= j < i && lines[j].fromBus in disconnected ==>
                  lines[j].toBus in disconnected
      {
        var line := lines[i];
        if line.fromBus in disconnected && line.toBus !in disconnected {
          FeedsSnoc(lines, start, line);
          assert line in lines;
          disconnected := disconnected + {line.toBus};
          changed := true;
        }
      }
    }
    forall b | Feeds(lines, start, b) ensures b in disconnected {
      var p :| Downward(lines, start, b, p);
      ClosedHoldsFed(lines, disconnected, start, b, p);
    }
  }

  // ---------------------------------------------------------------------------------------
  // Islanded means: the root path used the lost line
  // ---------------------------------------------------------------------------------------

  lemma {:induction false} DownwardCons(lines: seq<Line>, l: Line, b: string, p: seq<Line>)
    requires l in lines && Downward(lines, l.toBus, b, p)
    ensures Downward(lines, l.fromBus, b, [l] + p)
    decreases |p|
  {
    if p == [] {
      assert [l] + p == [l];
      assert [l][..0] == [];
    } else {
      DownwardCons(lines, l, p[|p| - 1].fromBus, p[..|p| - 1]);
      assert ([l] + p)[..|p|] == [l] + p[..|p| - 1];
    }
  }

  lemma {:induction false} UpwardLineFeeds(lines: seq<Line>, root: string, bus: string, up: seq<Line>, lost: Line)
    requires Upward(lines, root, bus, up) && lost in up
    ensures Feeds(lines, lost.toBus, bus)
    decreases |up|
  {
    if up[0] == lost {
      assert Downward(lines, bus, bus, []);
    } else {
      assert lost in up[1..];
      UpwardLineFeeds(lines, root, up[0].fromBus, up[1..], lost);
      FeedsSnoc(lines, lost.toBus, up[0]);
    }
  }

  ghost predicate Rooted(lines: seq<Line>, root: string, bus: string) {
    exists up :: Upward(lines, root, bus, up)
  }

  /** A bus with a root path is islanded exactly when the path uses the lost line. */
  ghost predicate IslandingIsExact(lines: seq<Line>, root: string, lost: Line, disconnected: set<string>) {
    forall bus, up :: Upward(lines, root, bus, up) ==> (bus in disconnected <==> lost in up)
  }

  /** The root is not islanded, and no line other than the lost one leads from a rooted bus that is not
      islanded to one that is. */
  ghost predicate IslandIsSealed(lines: seq<Line>, root: string, lost: Line, disconnected: set<string>) {
    && root !in disconnected
    && forall l :: l in lines && l != lost && l.toBus in disconnected && Rooted(lines, root, l.fromBus) ==>
                     l.fromBus in disconnected
  }

  lemma {:induction false} SealedUsesLine(lines: seq<Line>, root: string, bus: string, up: seq<Line>, lost: Line,
                                          disconnected: set<string>)
    requires IslandIsSealed(lines, root, lost, disconnected)
    requires Upward(lines, root, bus, up) && bus in disconnected
    ensures lost in up
    decreases |up|
  {
    assert up != [];
    if up[0] != lost {
      assert Rooted(lines, root, up[0].fromBus);
      SealedUsesLine(lines, root, up[0].fromBus, up[1..], lost, disconnected);
    }
  }

  /** Main result: for the lines of one phase, or of any other part of the network, the islanded set is
      exact if and only if it is sealed in those lines. Nothing else is asked of the network. */
  lemma IslandingIsExactIff(all: seq<Line>, lines: seq<Line>, root: string, lost: Line, disconnected: set<string>)
    requires forall b :: b in disconnected <==> Feeds(all, lost.toBus, b)
    requires forall l :: l in lines ==> l in all
    ensures IslandingIsExact(lines, root, lost, disconnected) <==> IslandIsSealed(lines, root, lost, disconnected)
  {
    if IslandIsSealed(lines, root, lost, disconnected) {
      forall bus, up | Upward(lines, root, bus, up) ensures bus in disconnected <==> lost in up {
        if bus in disconnected {
          SealedUsesLine(lines, root, bus, up, lost, disconnected);
        } else if lost in up {
          UpwardInMore(lines, all, root, bus, up);
          UpwardLineFeeds(all, root, bus, up, lost);
        }
      }
    }
    if IslandingIsExact(lines, root, lost, disconnected) {
      ExactIsSealed(lines, root, lost, disconnected);
    }
  }

  lemma ExactIsSealed(lines: seq<Line>, root: string, lost: Line, disconnected: set<string>)
    requires IslandingIsExact(lines, root, lost, disconnected)
    ensures IslandIsSealed(lines, root, lost, disconnected)
  {
    assert Upward(lines, root, root, []);
    forall l | l in lines && l != lost && l.toBus in disconnected && Rooted(lines, root, l.fromBus)
      ensures l.fromBus in disconnected
    {
      var up :| Upward(lines, root, l.fromBus, up);
      assert ([l] + up)[1..] == up;
      assert Upward(lines, root, l.toBus, [l] + up);
      assert lost in [l] + up;
    }
  }

  /** On a radial network every island is sealed, for each phase too. */
  lemma RadialIsSealed(all: seq<Line>, lines: seq<Line>, root: string, lost: Line, disconnected: set<string>)
    requires Radial(all, root) && lost in all && forall l :: l in lines ==> l in all
    requires forall b :: b in disconnected <==> Feeds(all, lost.toBus, b)
    ensures IslandIsSealed(lines, root, lost, disconnected)
  {
    forall l | l in lines && l != lost && l.toBus in disconnected ensures l.fromBus in disconnected {
      var p: seq<Line> :| Downward(all, lost.toBus, l.toBus, p);
      assert l in all;
      assert p != [] && p[|p| - 1] in all && p[|p| - 1].toBus == l.toBus;
      assert p[|p| - 1] == l && Downward(all, lost.toBus, l.fromBus, p[..|p| - 1]);
    }
  }

  /** Exactness on a radial network: a bus is islanded exactly when its root path uses the lost line. */
  lemma IslandedIffPathUsesLine(lines: seq<Line>, root: string, bus: string, up: seq<Line>, lost: Line)
    requires Radial(lines, root) && lost in lines && Upward(lines, root, bus, up)
    ensures Feeds(lines, lost.toBus, bus) <==> lost in up
  {
    var ends := {lost.toBus} + set l | l in lines :: l.toBus;
    var disconnected := set b | b in ends && Feeds(lines, lost.toBus, b);
    forall b | Feeds(lines, lost.toBus, b) ensures b in disconnected {
      var p :| Downward(lines, lost.toBus, b, p);
      assert b in ends;
    }
    RadialIsSealed(lines, lines, root, lost, disconnected);
    IslandingIsExactIff(lines, lines, root, lost, disconnected);
  }

  // ---------------------------------------------------------------------------------------
  // What is left after the outage
  // ---------------------------------------------------------------------------------------

  /** Lines neither of whose ends is islanded. */
  function Remaining(lines: seq<Line>, disconnected: set<string>): (r: seq<Line>)
    ensures forall l :: l in r <==> l in lines && l.fromBus !in disconnected && l.toBus !in disconnected
  {
    if lines == [] then []
    else
      var l := lines[0];
      var rest := Remaining(lines[1..], disconnected);
      assert lines == [l] + lines[1..];
      if l.fromBus !in disconnected && l.toBus !in disconnected then [l] + rest else rest
  }

  /** A surviving bus keeps its whole root path: no line of it is removed. This holds for the lines of
      one phase inside a network with any other lines. */
  lemma {:induction false} SurvivorKeepsPath(all: seq<Line>, lines: seq<Line>, root: string, bus: string, up: seq<Line>,
                                             disconnected: set<string>)
    requires ClosedDown(all, disconnected) && forall l :: l in lines ==> l in all
    requires Upward(lines, root, bus, up) && bus !in disconnected
    ensures Upward(Remaining(lines, disconnected), root, bus, up)
    decreases |up|
  {
    if up != [] {
      assert up[0].fromBus !in disconnected;
      SurvivorKeepsPath(all, lines, root, up[0].fromBus, up[1..], disconnected);
    }
  }

  function Demand(proposals: seq<Proposal>): real {
    if proposals == [] then 0.0 else proposals[0].proposedKw + Demand(proposals[1..])
  }

  /** What the first k proposals ask for at these buses. */
  function Shed(proposals: seq<Proposal>, buses: set<string>, k: nat): real
    requires k <= |proposals|
  {
    if k == 0 then 0.0
    else Shed(proposals, buses, k - 1) + (if proposals[k - 1].bus in buses then proposals[k - 1].proposedKw else 0.0)
  }

  lemma {:induction false} ShedTail(proposals: seq<Proposal>, buses: set<string>, k: nat)
    requires 0 < k <= |proposals|
    ensures Shed(proposals, buses, k) ==
            (if proposals[0].bus in buses then proposals[0].proposedKw else 0.0) + Shed(proposals[1..], buses, k - 1)
  {
    if k > 1 { ShedTail(proposals, buses, k - 1); }
  }

  /** The demand of the proposals at these buses. */
  lemma {:induction false} WithinIsShed(proposals: seq<Proposal>, buses: set<string>)
    ensures Demand(Within(proposals, buses)) == Shed(proposals, buses, |proposals|)
  {
    if proposals != [] {
      WithinIsShed(proposals[1..], buses);
      ShedTail(proposals, buses, |proposals|);
      var p, rest := proposals[0], proposals[1..];
      assert ([p] + Within(rest, buses))[1..] == Within(rest, buses);
      assert [] + Within(rest, buses) == Within(rest, buses);
    }
  }

  function Within(proposals: seq<Proposal>, buses: set<string>): seq<Proposal> {
    if proposals == [] then []
    else (if proposals[0].bus in buses then [proposals[0]] else []) + Within(proposals[1..], buses)
  }

  function Outside(proposals: seq<Proposal>, buses: set<string>): seq<Proposal> {
    if proposals == [] then []
    else (if proposals[0].bus in buses then [] else [proposals[0]]) + Outside(proposals[1..], buses)
  }

  /** Unserved and evaluated demand add up to the proposed demand. */
  lemma {:induction false} DemandSplits(proposals: seq<Proposal>, buses: set<string>)
    ensures Demand(Within(proposals, buses)) + Demand(Outside(proposals, buses)) == Demand(proposals)
  {
    if proposals != [] {
      DemandSplits(proposals[1..], buses);
      var p, rest := proposals[0], proposals[1..];
      assert ([p] + Within(rest, buses))[1..] == Within(rest, buses);
      assert ([p] + Outside(rest, buses))[1..] == Outside(rest, buses);
      assert [] + Within(rest, buses) == Within(rest, buses);
      assert [] + Outside(rest, buses) == Outside(rest, buses);
    }
  }

  // ---------------------------------------------------------------------------------------
  // The path walk
  // ---------------------------------------------------------------------------------------

  function PhaseLines(lines: seq<Line>, phase: string): (r: seq<Line>)
    ensures forall l :: l in r <==> l in lines && Serves(l, phase)
  {
    if lines == [] then []
    else
      var rest := PhaseLines(lines[1..], phase);
      assert lines == [lines[0]] + lines[1..];
      if Serves(lines[0], phase) then [lines[0]] + rest else rest
  }

  /** The feeder of every bus that has one. */
  ghost predicate IsFeederMap(lines: seq<Line>, parent: map<string, Line>) {
    && (forall b :: b in parent ==> parent[b] in lines && parent[b].toBus == b)
    && (forall l :: l in lines ==> l.toBus in parent && parent[l.toBus] == l)
  }

  /** The duplicate-parent check and the feeder map: refused exactly when two lines end at one bus, be
      they the same line twice, or one ends at the root. */
  method BuildFeeders(lines: seq<Line>, root: string) returns (parent: Option<map<string, Line>>)
    ensures parent.Some? <==> Radial(lines, root) && Unrepeated(lines)
    ensures parent.Some? ==> IsFeederMap(lines, parent.value)
  {
    var feeders: map<string, Line> := map[];
    for i := 0 to |lines|
      invariant forall b :: b in feeders ==> feeders[b] in lines[..i] && feeders[b].toBus == b
      invariant forall l :: l in lines[..i] ==> l.toBus in feeders && feeders[l.toBus] == l && l.toBus != root
      invariant Unrepeated(lines[..i])
    {
      var line := lines[i];
      assert lines[..i + 1] == lines[..i] + [line];
      if line.toBus in feeders || line.toBus == root {
        if line.toBus in feeders {
          ghost var j :| 0 <= j < i && lines[j] == feeders[line.toBus];
          assert lines[j] in lines && lines[i] in lines && lines[j].toBus == lines[i].toBus;
        } else {
          assert line in lines;
        }
        return None;
      }
      feeders := feeders[line.toBus := line];
    }
    assert lines[..|lines|] == lines;
    return Some(feeders);
  }

  /** Bus reached after following k lines of an upward chain. */
  function BusAt(bus: string, p: seq<Line>, k: nat): string
    requires k <= |p|
  {
    if k == 0 then bus else p[k - 1].fromBus
  }

  lemma {:induction false} UpwardSuffix(lines: seq<Line>, root: string, bus: string, p: seq<Line>, k: nat)
    requires Upward(lines, root, bus, p) && k <= |p|
    ensures Upward(lines, root, BusAt(bus, p, k), p[k..])
    ensures k < |p| ==> p[k] in lines && p[k].toBus == BusAt(bus, p, k)
  {
    if k == 0 {
      assert p[0..] == p;
    } else {
      UpwardSuffix(lines, root, bus, p, k - 1);
      assert p[k - 1..][1..] == p[k..];
    }
  }

  /** In a radial network a bus has at most one root path. */
  lemma {:induction false} UpwardUnique(lines: seq<Line>, root: string, bus: string, p: seq<Line>, q: seq<Line>)
    requires Radial(lines, root) && Upward(lines, root, bus, p) && Upward(lines, root, bus, q)
    ensures p == q
    decreases |p|
  {
    if p != [] && q != [] {
      assert p[0] == q[0];
      UpwardUnique(lines, root, p[0].fromBus, p[1..], q[1..]);
      assert p == [p[0]] + p[1..] && q == [q[0]] + q[1..];
    }
  }

  /** So a root path never visits a bus twice. */
  lemma UpwardSimple(lines: seq<Line>, root: string, bus: string, p: seq<Line>, i: nat, j: nat)
    requires Radial(lines, root) && Upward(lines, root, bus, p) && i < j <= |p|
    ensures BusAt(bus, p, i) != BusAt(bus, p, j)
  {
    UpwardSuffix(lines, root, bus, p, i);
    UpwardSuffix(lines, root, bus, p, j);
    assert |p[i..]| != |p[j..]|;
    if BusAt(bus, p, i) == BusAt(bus, p, j) {
      UpwardUnique(lines, root, BusAt(bus, p, i), p[i..], p[j..]);
      assert false;
    }
  }

  /** Progress of the walk: every root path starts with the lines walked so far, every root path of the
      current bus completes them, and every visited bus lies behind. */
  ghost predicate Walked(lines: seq<Line>, root: string, start: string, walked: seq<Line>, bus: string,
                         visited: set<string>) {
    && bus == BusAt(start, walked, |walked|)
    && (forall v :: v in visited ==> exists i :: 0 <= i < |walked| && BusAt(start, walked, i) == v)
    && (forall p :: Upward(lines, root, start, p) ==> walked <= p)
    && (forall q :: Upward(lines, root, bus, q) ==> Upward(lines, root, start, walked + q))
  }

  /** The walk from a bus to the root succeeds exactly when the bus has a root path, and returns it. */
  method WalkToRoot(lines: seq<Line>, parent: map<string, Line>, root: string, start: string)
    returns (path: Option<seq<Line>>)
    requires IsFeederMap(lines, parent) && Radial(lines, root)
    ensures path.Some? ==> Upward(lines, root, start, path.value)
    ensures path.None? ==> forall p :: !Upward(lines, root, start, p)
  {
    hide Walked, Upward, IsFeederMap, Radial;
    var bus := start;
    var walked: seq<Line> := [];
    var visited: set<string> := {};
    WalkStarts(lines, root, start);
    while bus != root
      invariant Walked(lines, root, start, walked, bus, visited) && visited <= parent.Keys
      decreases parent.Keys - visited
    {
      if bus in visited || bus !in parent {
        WalkStuck(lines, parent, root, start, walked, bus, visited);
        return None;
      }
      WalkExtends(lines, parent, root, start, walked, bus, visited);
      visited := visited + {bus};
      walked := walked + [parent[bus]];
      bus := parent[bus].fromBus;
    }
    WalkEnds(lines, root, start, walked, visited);
    return Some(walked);
  }

  lemma WalkStarts(lines: seq<Line>, root: string, start: string)
    ensures Walked(lines, root, start, [], start, {})
  {
    assert forall q: seq<Line> :: [] + q == q;
  }

  lemma WalkEnds(lines: seq<Line>, root: string, start: string, walked: seq<Line>, visited: set<string>)
    requires Walked(lines, root, start, walked, root, visited)
    ensures Upward(lines, root, start, walked)
  {
    assert Upward(lines, root, root, []);
    assert walked + [] == walked;
  }

  lemma WalkStuck(lines: seq<Line>, parent: map<string, Line>, root: string, start: string, walked: seq<Line>,
                  bus: string, visited: set<string>)
    requires IsFeederMap(lines, parent) && Radial(lines, root) && Walked(lines, root, start, walked, bus, visited)
    requires bus != root && (bus in visited || bus !in parent)
    ensures forall p :: !Upward(lines, root, start, p)
  {
    forall p ensures !Upward(lines, root, start, p) {
      if Upward(lines, root, start, p) {
        var n := |walked|;
        assert BusAt(start, p, n) == bus;
        UpwardSuffix(lines, root, start, p, n);
        if bus in visited {
          var i :| 0 <= i < n && BusAt(start, walked, i) == bus;
          assert BusAt(start, p, i) == BusAt(start, walked, i);
          UpwardSimple(lines, root, start, p, i, n);
        }
        assert false;
      }
    }
  }

  lemma BusAtPrefix(start: string, walked: seq<Line>, line: Line, i: nat)
    requires i <= |walked|
    ensures BusAt(start, walked + [line], i) == BusAt(start, walked, i)
  {}

  lemma WalkExtends(lines: seq<Line>, parent: map<string, Line>, root: string, start: string, walked: seq<Line>,
                    bus: string, visited: set<string>)
    requires IsFeederMap(lines, parent) && bus in parent && bus != root
    requires Walked(lines, root, start, walked, bus, visited)
    ensures Walked(lines, root, start, walked + [parent[bus]], parent[bus].fromBus, visited + {bus})
  {
    var line, n := parent[bus], |walked|;
    forall v | v in visited + {bus} ensures exists i :: 0 <= i < n + 1 && BusAt(start, walked + [line], i) == v {
      var i: nat :| i <= n && BusAt(start, walked, i) == v;
      BusAtPrefix(start, walked, line, i);
      assert BusAt(start, walked + [line], i) == v;
    }
    forall p | Upward(lines, root, start, p) ensures walked + [line] <= p {
      UpwardSuffix(lines, root, start, p, n);
      assert BusAt(start, p, n) == bus;
      assert p[n..] != [] && p[n] == line;
    }
    forall q | Upward(lines, root, line.fromBus, q) ensures Upward(lines, root, start, walked + [line] + q) {
      assert ([line] + q)[1..] == q;
      assert Upward(lines, root, bus, [line] + q);
      assert walked + ([line] + q) == walked + [line] + q;
    }
  }

  // ---------------------------------------------------------------------------------------
  // The outage as a whole
  // ---------------------------------------------------------------------------------------

  datatype Outage = Outage(disconnected: set<string>, lines: seq<Line>, evaluated: seq<Proposal>, unservedKw: real)

  /** Exactly one line carries the id. */
  ghost predicate OneLine(lines: seq<Line>, lineId: string) {
    exists i :: 0 <= i < |lines| && lines[i].id == lineId &&
                forall j :: 0 <= j < |lines| && lines[j].id == lineId ==> j == i
  }

  /** The index of the one line with this id. */
  method FindLine(lines: seq<Line>, lineId: string) returns (found: Option<nat>)
    ensures found.Some? <==> OneLine(lines, lineId)
    ensures found.Some? ==> found.value < |lines| && lines[found.value].id == lineId
  {
    var matches: seq<nat> := [];
    for i := 0 to |lines|
      invariant forall j :: j in matches <==> 0 <= j < i && lines[j].id == lineId
      invariant forall a :: 0 <= a < |matches| ==> matches[a] < i
      invariant forall a, b :: 0 <= a < b < |matches| ==> matches[a] < matches[b]
    {
      if lines[i].id == lineId {
        matches := matches + [i];
      }
    }
    if |matches| != 1 {
      if |matches| >= 2 { assert matches[0] in matches && matches[1] in matches && matches[0] != matches[1]; }
      return None;
    }
    var only := matches[0];
    assert only in matches;
    forall j | 0 <= j < |lines| && lines[j].id == lineId ensures j == only { assert j in matches; }
    return Some(only);
  }

  /** The line-outage branch: None when the line id is unknown or ambiguous. */
  method AssessOutage(lines: seq<Line>, proposals: seq<Proposal>, lineId: string)
    returns (r: Option<Outage>, ghost lost: Line)
    ensures r.Some? <==> OneLine(lines, lineId)
    ensures r.Some? ==>
              && lost in lines && lost.id == lineId
              && (forall b :: b in r.value.disconnected <==> Feeds(lines, lost.toBus, b))
              && r.value.lines == Remaining(lines, r.value.disconnected)
              && r.value.evaluated == Outside(proposals, r.value.disconnected)
              && r.value.unservedKw == Shed(proposals, r.value.disconnected, |proposals|)
              && r.value.unservedKw + Demand(r.value.evaluated) == Demand(proposals)
  {
    hide OneLine, Feeds, Remaining, Outside, Within, Shed, Demand;
    var found := FindLine(lines, lineId);
    if found.None? {
      lost := Line("", "", "", AllPhases, Rating(0.0, 0.0, 0.0));
      return None, lost;
    }
    var only := found.value;
    lost := lines[only];
    var disconnected := Islanded(lines, lines[only].toBus);
    var affected := Within(proposals, disconnected);
    DemandSplits(proposals, disconnected);
    WithinIsShed(proposals, disconnected);
    r := Some(Outage(disconnected, Remaining(lines, disconnected), Outside(proposals, disconnected), Demand(affected)));
  }

  /** For every bus with a root path in its phase, the outage islands it, or it keeps exactly that path in
      the lines that remain; and the phase loses exactly the buses whose path used the lost line if and
      only if the island is sealed in that phase, as it is when the phases together are radial. */
  lemma OutageSplitsNetwork(all: seq<Line>, phase: string, root: string, bus: string, up: seq<Line>, lost: Line,
                            disconnected: set<string>)
    requires lost in all && forall b :: b in disconnected <==> Feeds(all, lost.toBus, b)
    requires Upward(PhaseLines(all, phase), root, bus, up)
    ensures bus !in disconnected ==>
            Upward(PhaseLines(Remaining(all, disconnected), phase), root, bus, up) && lost !in up
    ensures IslandingIsExact(PhaseLines(all, phase), root, lost, disconnected) <==>
            IslandIsSealed(PhaseLines(all, phase), root, lost, disconnected)
    ensures Radial(all, root) ==> (bus in disconnected <==> lost in up)
  {
    var lines := PhaseLines(all, phase);
    forall l | l in all && l.fromBus in disconnected ensures l.toBus in disconnected { FeedsSnoc(all, lost.toBus, l); }
    if bus !in disconnected {
      SurvivorKeepsPath(all, lines, root, bus, up, disconnected);
      FiltersCommute(all, phase, disconnected);
      UpwardInMore(lines, all, root, bus, up);
      if lost in up { UpwardLineFeeds(all, root, bus, up, lost); }
    }
    IslandingIsExactIff(all, lines, root, lost, disconnected);
    if Radial(all, root) { RadialIsSealed(all, lines, root, lost, disconnected); }
  }

  lemma {:induction false} UpwardInMore(lines: seq<Line>, all: seq<Line>, root: string, bus: string, up: seq<Line>)
    requires Upward(lines, root, bus, up) && forall l :: l in lines ==> l in all
    ensures Upward(all, root, bus, up)
    decreases |up|
  {
    if up != [] { UpwardInMore(lines, all, root, up[0].fromBus, up[1..]); }
  }

  /** Removing islanded lines and picking the lines of a phase can be done in either order. */
  lemma {:induction false} FiltersCommute(lines: seq<Line>, phase: string, disconnected: set<string>)
    ensures PhaseLines(Remaining(lines, disconnected), phase) == Remaining(PhaseLines(lines, phase), disconnected)
  {
    if lines != [] {
      FiltersCommute(lines[1..], phase, disconnected);
      var l := lines[0];
      var kept := Remaining(lines[1..], disconnected);
      assert ([l] + kept)[1..] == kept;
      var served := PhaseLines(lines[1..], phase);
      assert ([l] + served)[1..] == served;
    }
  }

  lemma {:induction false} RemainingUnrepeated(lines: seq<Line>, disconnected: set<string>)
    requires Unrepeated(lines)
    ensures Unrepeated(Remaining(lines, disconnected))
  {
    if lines != [] {
      RemainingUnrepeated(lines[1..], disconnected);
      var rest := Remaining(lines[1..], disconnected);
      forall i | 0 <= i < |rest| ensures rest[i] != lines[0] {
        assert rest[i] in rest;
        var j :| 0 <= j < |lines| - 1 && lines[1..][j] == rest[i];
      }
    }
  }

  // ---------------------------------------------------------------------------------------
  // The projection's path stage, before and after the outage
  // ---------------------------------------------------------------------------------------

  const PHASES: set<string> := {"A", "B", "C"}

  predicate ProposalOk(p: Proposal) {
    && p.proposedKw >= 0.0 && p.phase in PHASES && p.stationId != "" && p.bus != ""
    && 0.8 <= p.powerFactor <= 1.0
  }

  predicate LineOk(l: Line) {
    && (l.phase.On? ==> l.phase.phase in PHASES) && l.fromBus != l.toBus
    && l.rating.limitKw > 0.0 && l.rating.resistanceOhm >= 0.0 && l.rating.reactanceOhm >= 0.0
  }

  /** A proposal is refused for feeding in, for a phase other than A, B and C, for a missing station or bus,
      and for a power factor outside 0.8 to 1. */
  lemma ProposalRefused(p: Proposal)
    ensures !ProposalOk(p) <==>
            || p.proposedKw < 0.0 || (p.phase != "A" && p.phase != "B" && p.phase != "C")
            || p.stationId == "" || p.bus == "" || p.powerFactor < 0.8 || p.powerFactor > 1.0
  {}

  /** A line is refused for an unknown phase, for leading back to its start, for having no limit, and for a
      negative impedance; not for serving all phases or none. */
  lemma LineRefused(l: Line)
    ensures !LineOk(l) <==>
            || (l.phase.On? && l.phase != On("A") && l.phase != On("B") && l.phase != On("C"))
            || l.fromBus == l.toBus || l.rating.limitKw <= 0.0
            || l.rating.resistanceOhm < 0.0 || l.rating.reactanceOhm < 0.0
  {}

  /** One proposal can be given its path. */
  ghost predicate Routable(root: string, lines: seq<Line>, p: Proposal) {
    && ProposalOk(p)
    && Radial(PhaseLines(lines, p.phase), root) && Unrepeated(PhaseLines(lines, p.phase))
    && exists up :: Upward(PhaseLines(lines, p.phase), root, p.bus, up)
  }

  /** What the projection asks of its input before it sets up its linear program. */
  ghost predicate Projectable(root: string, lines: seq<Line>, proposals: seq<Proposal>) {
    && root != "" && lines != [] && proposals != []
    && (forall l :: l in lines ==> LineOk(l))
    && forall p :: p in proposals ==> Routable(root, lines, p)
  }

  /** The path of every proposal, own feeder first; None for any of the errors. */
  method ProjectPaths(root: string, lines: seq<Line>, proposals: seq<Proposal>) returns (paths: Option<seq<seq<Line>>>)
    ensures paths.Some? <==> Projectable(root, lines, proposals)
    ensures paths.Some? ==>
              && |paths.value| == |proposals|
              && forall i :: 0 <= i < |proposals| ==>
                   Upward(PhaseLines(lines, proposals[i].phase), root, proposals[i].bus, paths.value[i])
  {
    hide Radial, Unrepeated, Upward, PhaseLines, IsFeederMap;
    if root == "" || lines == [] || proposals == [] || exists i :: 0 <= i < |lines| && !LineOk(lines[i]) {
      return None;
    }
    var found: seq<seq<Line>> := [];
    for i := 0 to |proposals|
      invariant |found| == i
      invariant forall p :: p in proposals[..i] ==> Routable(root, lines, p)
      invariant forall j :: 0 <= j < i ==>
          Upward(PhaseLines(lines, proposals[j].phase), root, proposals[j].bus, found[j])
    {
      var p := proposals[i];
      assert p in proposals && proposals[..i + 1] == proposals[..i] + [p];
      if !ProposalOk(p) {
        return None;
      }
      var phaseLines := PhaseLines(lines, p.phase);
      var parent := BuildFeeders(phaseLines, root);
      if parent.None? {
        return None;
      }
      var path := WalkToRoot(phaseLines, parent.value, root, p.bus);
      if path.None? {
        return None;
      }
      found := found + [path.value];
    }
    assert proposals[..|proposals|] == proposals;
    return Some(found);
  }

  lemma {:induction false} OutsideKeeps(proposals: seq<Proposal>, buses: set<string>, p: Proposal)
    ensures p in Outside(proposals, buses) <==> p in proposals && p.bus !in buses
  {
    if proposals != [] {
      OutsideKeeps(proposals[1..], buses, p);
      assert proposals == [proposals[0]] + proposals[1..];
    }
  }

  lemma SurvivorRoutable(all: seq<Line>, root: string, p: Proposal, lost: Line, disconnected: set<string>)
    requires lost in all && forall b :: b in disconnected <==> Feeds(all, lost.toBus, b)
    requires Routable(root, all, p) && p.bus !in disconnected
    ensures Routable(root, Remaining(all, disconnected), p)
  {
    var lines := PhaseLines(all, p.phase);
    var up :| Upward(lines, root, p.bus, up);
    OutageSplitsNetwork(all, p.phase, root, p.bus, up, lost, disconnected);
    FiltersCommute(all, p.phase, disconnected);
    RemainingUnrepeated(lines, disconnected);
  }

  /** The later path walk succeeds: if the network could be projected before the outage, the proposals
      that are not islanded can be projected after it, each along the very path it had, unless no line
      remains at all. */
  lemma OutageKeepsProjection(all: seq<Line>, root: string, proposals: seq<Proposal>, lost: Line,
                              disconnected: set<string>)
    requires lost in all && forall b :: b in disconnected <==> Feeds(all, lost.toBus, b)
    requires Projectable(root, all, proposals) && Outside(proposals, disconnected) != []
    ensures Projectable(root, Remaining(all, disconnected), Outside(proposals, disconnected)) <==>
            Remaining(all, disconnected) != []
    ensures forall p, up ::
              p in Outside(proposals, disconnected) && Upward(PhaseLines(all, p.phase), root, p.bus, up) ==>
                Upward(PhaseLines(Remaining(all, disconnected), p.phase), root, p.bus, up)
  {
    var after, evaluated := Remaining(all, disconnected), Outside(proposals, disconnected);
    forall p | p in evaluated ensures Routable(root, after, p) {
      OutsideKeeps(proposals, disconnected, p);
      SurvivorRoutable(all, root, p, lost, disconnected);
    }
    forall p, up | p in evaluated && Upward(PhaseLines(all, p.phase), root, p.bus, up)
      ensures Upward(PhaseLines(after, p.phase), root, p.bus, up)
    {
      OutsideKeeps(proposals, disconnected, p);
      OutageSplitsNetwork(all, p.phase, root, p.bus, up, lost, disconnected);
    }
  }

  datatype Assessment =
    | UnknownLine
    | ProjectionFailed(outage: Outage)
    | Assessed(outage: Outage, paths: seq<seq<Line>>)

  /** The outage branch followed by the projection's path stage, which is skipped when nothing is left to
      evaluate. On a network that could be projected it fails exactly when proposals survive but no line
      does; otherwise every surviving proposal gets exactly its old path. */
  method AssessContingency(root: string, lines: seq<Line>, proposals: seq<Proposal>, lineId: string)
    returns (r: Assessment)
    ensures r.UnknownLine? <==> !OneLine(lines, lineId)
    ensures Projectable(root, lines, proposals) && !r.UnknownLine? ==>
              (r.ProjectionFailed? <==> r.outage.evaluated != [] && r.outage.lines == [])
    ensures Projectable(root, lines, proposals) && r.Assessed? ==>
              && |r.paths| == |r.outage.evaluated|
              && forall i :: 0 <= i < |r.paths| ==>
                   var p := r.outage.evaluated[i];
                   Upward(PhaseLines(lines, p.phase), root, p.bus, r.paths[i])
  {
    hide Projectable, Upward, Remaining, Outside, PhaseLines, Feeds;
    var outage, lost := AssessOutage(lines, proposals, lineId);
    if outage.None? {
      return UnknownLine;
    }
    var o := outage.value;
    if o.evaluated == [] {
      return Assessed(o, []);
    }
    if Projectable(root, lines, proposals) { OutageKeepsProjection(lines, root, proposals, lost, o.disconnected); }
    var paths := ProjectPaths(root, o.lines, o.evaluated);
    if paths.None? {
      return ProjectionFailed(o);
    }
    forall i | 0 <= i < |o.evaluated| && Projectable(root, lines, proposals)
      ensures var p := o.evaluated[i]; Upward(PhaseLines(lines, p.phase), root, p.bus, paths.value[i])
    {
      var p := o.evaluated[i];
      assert p in o.evaluated;
      SamePath(lines, o.lines, root, p, paths.value[i], proposals, lost, o.disconnected);
    }
    r := Assessed(o, paths.value);
  }

  lemma SamePath(all: seq<Line>, after: seq<Line>, root: string, p: Proposal, up: seq<Line>, proposals: seq<Proposal>,
                 lost: Line, disconnected: set<string>)
    requires Projectable(root, all, proposals) && p in Outside(proposals, disconnected)
    requires after == Remaining(all, disconnected) && Upward(PhaseLines(after, p.phase), root, p.bus, up)
    ensures Upward(PhaseLines(all, p.phase), root, p.bus, up)
  {
    UpwardInMore(PhaseLines(after, p.phase), PhaseLines(all, p.phase), root, p.bus, up);
  }

  /** A network with a single line, and a proposal at each end: losing the line leaves the proposal at the
      root to be evaluated on no lines, which the projection refuses. */
  lemma NoLineLeftFails()
    ensures var line := Line("1", "root", "b", AllPhases, Rating(9.0, 0.1, 0.1));
            var atRoot, atB := Proposal("s", "root", "A", 5.0, 1.0), Proposal("t", "b", "A", 7.0, 1.0);
            && Projectable("root", [line], [atRoot, atB])
            && (forall b :: b in {"b"} <==> Feeds([line], "b", b))
            && Remaining([line], {"b"}) == [] && Outside([atRoot, atB], {"b"}) == [atRoot]
            && !Projectable("root", Remaining([line], {"b"}), Outside([atRoot, atB], {"b"}))
  {
    var line := Line("1", "root", "b", AllPhases, Rating(9.0, 0.1, 0.1));
    var atRoot, atB := Proposal("s", "root", "A", 5.0, 1.0), Proposal("t", "b", "A", 7.0, 1.0);
    assert [line][1..] == [];
    assert PhaseLines([], "A") == [];
    var lines := PhaseLines([line], "A");
    assert lines == [line];
    assert Upward(lines, "root", "root", []);
    assert Upward(lines, "root", "b", [line]);
    assert Downward([line], "b", "b", []);
    forall b | Feeds([line], "b", b) ensures b == "b" {
      var p :| Downward([line], "b", b, p);
      ClosedHoldsFed([line], {"b"}, "b", b, p);
    }
    assert [atRoot, atB][1..] == [atB] && [atB][1..] == [];
    assert Outside([atB], {"b"}) == [] + Outside([], {"b"}) == [];
    assert Outside([atRoot, atB], {"b"}) == [atRoot] + Outside([atB], {"b"});
  }

  /** One line per phase to the same bus: losing the line of phase A sheds phase B too, although its path
      does not use the lost line. */
  lemma LostPhaseShedsOthers()
    ensures var r := Rating(9.0, 0.1, 0.1);
            var a, b := Line("a", "root", "x", On("A"), r), Line("b", "root", "x", On("B"), r);
            && Radial(PhaseLines([a, b], "B"), "root") && Upward(PhaseLines([a, b], "B"), "root", "x", [b])
            && a !in [b] && Feeds([a, b], a.toBus, "x")
            && !IslandIsSealed(PhaseLines([a, b], "B"), "root", a, {"x"})
            && Outside([Proposal("s", "x", "B", 3.0, 1.0)], {"x"}) == []
  {
    var r := Rating(9.0, 0.1, 0.1);
    var a, b := Line("a", "root", "x", On("A"), r), Line("b", "root", "x", On("B"), r);
    assert [a, b][1..] == [b] && [b][1..] == [];
    assert PhaseLines([], "B") == [];
    assert PhaseLines([b], "B") == [b];
    assert PhaseLines([a, b], "B") == [b];
    assert Upward([b], "root", "root", []);
    assert Downward([a, b], "x", "x", []);
    assert Rooted([b], "root", "root");
  }
}
