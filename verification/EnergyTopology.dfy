/** The structural part of validate_energy_topology in energy_platform.py: keys, the single root, and
    the containment relationships. An error-free report is shown to mean a rooted tree. */
module EnergyTopology {
  import opened TopologyGraph
  import opened Wrappers

  /** An asset whose key is absent or null has None; it counts among the keys as the empty text. */
  datatype Asset = Asset(assetKey: Option<string>, assetType: string)
  {
    function Key(): string { if assetKey.Some? then assetKey.value else "" }

    /** As the root it goes by the text of its entry, which for an absent one is "None". */
    function RootKey(): string { if assetKey.Some? then assetKey.value else "None" }
  }

  datatype Relationship = Relationship(source: string, target: string, kind: string)

  datatype Issue =
    | AssetsRequired
    | KeyRequired
    | DuplicateKey
    | SingleRootRequired
    | UnknownAsset(source: string, target: string)
    | SelfRelationship(source: string)
    | MultipleParents
    | ContainmentCycle
    | Orphaned(keys: set<string>)

  predicate IsRootType(assetType: string) { assetType in {"portfolio", "park", "site"} }

  // ---------------------------------------------------------------------------------------
  // What the report is computed from
  // ---------------------------------------------------------------------------------------

  function KeysOf(assets: seq<Asset>): (keys: set<string>) { set i | 0 <= i < |assets| :: assets[i].Key() }

  ghost predicate DistinctKeys(assets: seq<Asset>) {
    forall i, j :: 0 <= i < j < |assets| ==> assets[i].Key() != assets[j].Key()
  }

  /** Root-type assets among the first k, in order. */
  function Roots(assets: seq<Asset>, k: nat): (r: seq<Asset>)
    requires k <= |assets|
  {
    if k == 0 then []
    else Roots(assets, k - 1) + (if IsRootType(assets[k - 1].assetType) then [assets[k - 1]] else [])
  }

  predicate Known(r: Relationship, keys: set<string>) { r.source in keys && r.target in keys }

  predicate Contains(r: Relationship, keys: set<string>) { Known(r, keys) && r.kind == "contains" }

  /** Containment adjacency built from the first k relationships. */
  function Containment(rels: seq<Relationship>, keys: set<string>, k: nat): Graph
    requires k <= |rels|
  {
    if k == 0 then map[]
    else
      var g := Containment(rels, keys, k - 1);
      var r := rels[k - 1];
      if Contains(r, keys) then g[r.source := Successors(g, r.source) + [r.target]] else g
  }

  /** Containment relationships into t among the first k. */
  function ParentCount(rels: seq<Relationship>, keys: set<string>, t: string, k: nat): nat
    requires k <= |rels|
  {
    if k == 0 then 0
    else ParentCount(rels, keys, t, k - 1) + (if Contains(rels[k - 1], keys) && rels[k - 1].target == t then 1 else 0)
  }

  function ContainsCount(rels: seq<Relationship>, keys: set<string>, k: nat): nat
    requires k <= |rels|
  {
    if k == 0 then 0 else ContainsCount(rels, keys, k - 1) + (if Contains(rels[k - 1], keys) then 1 else 0)
  }

  /** The containment graph of a whole model. */
  function Tree(assets: seq<Asset>, rels: seq<Relationship>): Graph {
    Containment(rels, KeysOf(assets), |rels|)
  }

  /** Keys, root and endpoints are in order: the checks that do not look at the shape. */
  ghost predicate WellKeyed(assets: seq<Asset>, rels: seq<Relationship>) {
    && assets != [] && "" !in KeysOf(assets) && DistinctKeys(assets)
    && |Roots(assets, |assets|)| == 1
    && forall i :: 0 <= i < |rels| ==> Known(rels[i], KeysOf(assets)) && rels[i].source != rels[i].target
  }

  /** What the shape checks test. */
  ghost predicate ShapeChecked(assets: seq<Asset>, rels: seq<Relationship>)
    requires |Roots(assets, |assets|)| == 1
  {
    var keys, root, g := KeysOf(assets), Roots(assets, |assets|)[0].Key(), Tree(assets, rels);
    && NoSharedTarget(rels, keys, |rels|)
    && !Cyclic(g)
    && (forall n :: n in keys && n != root ==> Reaches(g, root, n))
  }

  // ---------------------------------------------------------------------------------------
  // The specification: a rooted tree
  // ---------------------------------------------------------------------------------------

  /** Exactly one path of containment edges leads from the root to this key. */
  ghost predicate UniquePath(g: Graph, root: string, n: string) {
    && (exists p :: PathFromTo(g, p, root, n))
    && (forall p, q :: PathFromTo(g, p, root, n) && PathFromTo(g, q, root, n) ==> p == q)
  }

  /** Every asset hangs on a unique path from the root, with one containment relationship per asset
      other than the root. */
  ghost predicate RootedTree(assets: seq<Asset>, rels: seq<Relationship>)
    requires |Roots(assets, |assets|)| == 1
  {
    var root := Roots(assets, |assets|)[0].Key();
    && (forall n :: n in KeysOf(assets) ==> UniquePath(Tree(assets, rels), root, n))
    && ContainsCount(rels, KeysOf(assets), |rels|) == |assets| - 1
  }

  // ---------------------------------------------------------------------------------------
  // The validation of the source
  // ---------------------------------------------------------------------------------------

  /** The complaints about assets that are due. */
  ghost predicate AssetIssue(assets: seq<Asset>, e: Issue) {
    match e
    case AssetsRequired => assets == []
    case KeyRequired => "" in KeysOf(assets)
    case DuplicateKey => !DistinctKeys(assets)
    case SingleRootRequired => |Roots(assets, |assets|)| != 1
    case _ => false
  }

  /** The complaints about single relationships that are due after the first k. */
  ghost predicate RelationshipIssue(rels: seq<Relationship>, keys: set<string>, k: nat, e: Issue)
    requires k <= |rels|
  {
    exists i :: 0 <= i < k && IssueAt(rels[i], keys, e)
  }

  ghost predicate IssueAt(r: Relationship, keys: set<string>, e: Issue) {
    if !Known(r, keys) then e == UnknownAsset(r.source, r.target)
    else r.source == r.target && e == SelfRelationship(r.source)
  }

  /** Assets that do not hang on the root: all of them when there is no single root or its key is empty; a
      root without a key is looked for under the name None. */
  ghost function Orphans(assets: seq<Asset>, rels: seq<Relationship>): set<string> {
    var roots := Roots(assets, |assets|);
    if |roots| != 1 || roots[0].RootKey() == "" then KeysOf(assets)
    else set n | n in KeysOf(assets) && n != roots[0].RootKey() && !Reaches(Tree(assets, rels), roots[0].RootKey(), n)
  }

  /** Every complaint that is due, and no other. */
  ghost predicate Due(assets: seq<Asset>, rels: seq<Relationship>, e: Issue) {
    || AssetIssue(assets, e)
    || RelationshipIssue(rels, KeysOf(assets), |rels|, e)
    || (e == MultipleParents && !NoSharedTarget(rels, KeysOf(assets), |rels|))
    || (e == ContainmentCycle && Cyclic(Tree(assets, rels)))
    || (e == Orphaned(Orphans(assets, rels)) && Orphans(assets, rels) != {})
  }

  method CheckAssets(assets: seq<Asset>) returns (errors: seq<Issue>, keys: set<string>, roots: seq<Asset>)
    ensures keys == KeysOf(assets) && roots == Roots(assets, |assets|)
    ensures forall e :: e in errors <==> AssetIssue(assets, e)
    ensures errors == [] <==> assets != [] && "" !in keys && DistinctKeys(assets) && |roots| == 1
  {
    hide KeysOf, DistinctKeys;
    errors, keys, roots := [], {}, [];
    var distinct := true;
    NoKeys();
    for i := 0 to |assets|
      invariant keys == KeysOf(assets[..i])
      invariant distinct <==> DistinctKeys(assets[..i])
      invariant roots == Roots(assets, i)
    {
      assert assets[..i + 1] == assets[..i] + [assets[i]];
      KeysSnoc(assets[..i], assets[i]);
      if assets[i].Key() in keys {
        distinct := false;
      }
      keys := keys + {assets[i].Key()};
      if IsRootType(assets[i].assetType) {
        roots := roots + [assets[i]];
      }
    }
    assert assets[..|assets|] == assets;
    if assets == [] { errors := errors + [AssetsRequired]; }
    if "" in keys { errors := errors + [KeyRequired]; }
    if !distinct { errors := errors + [DuplicateKey]; }
    if |roots| != 1 { errors := errors + [SingleRootRequired]; }
  }

  lemma NoKeys()
    ensures KeysOf([]) == {} && DistinctKeys([])
  {}

  lemma KeysSnoc(assets: seq<Asset>, a: Asset)
    ensures KeysOf(assets + [a]) == KeysOf(assets) + {a.Key()}
    ensures DistinctKeys(assets + [a]) <==> DistinctKeys(assets) && a.Key() !in KeysOf(assets)
  {
    var b := assets + [a];
    assert b[|assets|] == a;
    assert forall i :: 0 <= i < |assets| ==> b[i] == assets[i];
    forall k | k in KeysOf(assets) + {a.Key()} ensures k in KeysOf(b) {
      if k != a.Key() {
        var i :| 0 <= i < |assets| && assets[i].Key() == k;
        assert b[i].Key() == k;
      }
    }
    if a.Key() in KeysOf(assets) {
      var i :| 0 <= i < |assets| && assets[i].Key() == a.Key();
      assert b[i].Key() == b[|assets|].Key();
    }
    if DistinctKeys(b) {
      forall i, j | 0 <= i < j < |assets| ensures assets[i].Key() != assets[j].Key() {
        assert b[i].Key() != b[j].Key();
      }
    }
  }

  method CheckRelationships(rels: seq<Relationship>, keys: set<string>)
    returns (errors: seq<Issue>, containment: Graph, parents: map<string, nat>, order: seq<string>)
    ensures containment == Containment(rels, keys, |rels|)
    ensures forall t :: (if t in parents then parents[t] else 0) == ParentCount(rels, keys, t, |rels|)
    ensures forall n :: n in order <==> n in containment
    ensures forall e :: e in errors <==> RelationshipIssue(rels, keys, |rels|, e)
    ensures errors == [] <==>
            forall i :: 0 <= i < |rels| ==> Known(rels[i], keys) && rels[i].source != rels[i].target
  {
    errors, containment, parents, order := [], map[], map[], [];
    for k := 0 to |rels|
      invariant containment == Containment(rels, keys, k)
      invariant forall t :: (if t in parents then parents[t] else 0) == ParentCount(rels, keys, t, k)
      invariant forall n :: n in order <==> n in containment
      invariant forall e :: e in errors <==> RelationshipIssue(rels, keys, k, e)
      invariant errors == [] <==>
                forall i :: 0 <= i < k ==> Known(rels[i], keys) && rels[i].source != rels[i].target
    {
      var r := rels[k];
      if r.source !in keys || r.target !in keys {
        errors := errors + [UnknownAsset(r.source, r.target)];
        continue;
      }
      if r.source == r.target {
        errors := errors + [SelfRelationship(r.source)];
      }
      if r.kind == "contains" {
        if r.source !in containment {
          order := order + [r.source];
        }
        containment := containment[r.source := Successors(containment, r.source) + [r.target]];
        parents := parents[r.target := (if r.target in parents then parents[r.target] else 0) + 1];
      }
    }
  }

  /** The report is empty exactly when the assets are well keyed and the shape checks pass. */
  method Validate(assets: seq<Asset>, rels: seq<Relationship>) returns (errors: seq<Issue>)
    ensures forall e :: e in errors <==> Due(assets, rels, e)
    ensures errors == [] <==> WellKeyed(assets, rels) && ShapeChecked(assets, rels)
  {
    hide Cyclic, Reaches, DistinctKeys, Containment, ParentCount, Roots, KeysOf, AssetIssue, RelationshipIssue;
    var assetErrors, keys, roots := CheckAssets(assets);
    var relErrors, containment, parents, order := CheckRelationships(rels, keys);
    errors := assetErrors + relErrors;
    if exists t :: t in parents && parents[t] > 1 {
      errors := errors + [MultipleParents];
    }
    var cyclic := HasCycle(containment, order);
    if cyclic {
      errors := errors + [ContainmentCycle];
    }
    var rootKey := if |roots| == 1 then roots[0].RootKey() else "";
    var reachable := {};
    if rootKey != "" {
      reachable := ReachableFrom(containment, rootKey);
    }
    var orphaned := keys - reachable - (if rootKey != "" then {rootKey} else {});
    if orphaned != {} {
      errors := errors + [Orphaned(orphaned)];
    }
    assert orphaned == Orphans(assets, rels);
    ghost var single := NoSharedTarget(rels, keys, |rels|);
    assert single <==> !exists t :: t in parents && parents[t] > 1 by {
      if !exists t :: t in parents && parents[t] > 1 {
        forall t ensures ParentCount(rels, keys, t, |rels|) <= 1 {
          assert (if t in parents then parents[t] else 0) == ParentCount(rels, keys, t, |rels|);
        }
      } else {
        var t :| t in parents && parents[t] > 1;
        assert ParentCount(rels, keys, t, |rels|) > 1;
      }
    }
    if |roots| == 1 {
      RootIsKey(assets);
      if rootKey != "" {
        if orphaned == {} {
          forall n | n in keys && n != rootKey ensures n in reachable { assert n !in orphaned; }
        } else {
          var n :| n in orphaned;
          assert n in keys && n != rootKey && !Reaches(containment, rootKey, n);
        }
      }
    }
  }

  lemma RootIsKey(assets: seq<Asset>)
    requires |Roots(assets, |assets|)| == 1
    ensures Roots(assets, |assets|)[0].Key() in KeysOf(assets)
  {
    RootsAreAssets(assets, |assets|, 0);
  }

  lemma {:induction false} RootsAreAssets(assets: seq<Asset>, k: nat, i: nat)
    requires k <= |assets| && i < |Roots(assets, k)|
    ensures Roots(assets, k)[i] in assets && Roots(assets, k)[i].Key() in KeysOf(assets)
  {
    if i < |Roots(assets, k - 1)| {
      RootsAreAssets(assets, k - 1, i);
    } else {
      assert Roots(assets, k)[i] == assets[k - 1];
    }
  }

  predicate MayBeRoot(a: Asset) { a.assetType == "portfolio" || a.assetType == "park" || a.assetType == "site" }

  /** The i-th of the first k assets, and no other of them, may be a root. */
  ghost predicate OnlyRootAt(assets: seq<Asset>, k: nat, i: int)
    requires k <= |assets|
  {
    0 <= i < k && MayBeRoot(assets[i]) && forall j :: 0 <= j < k && MayBeRoot(assets[j]) ==> j == i
  }

  /** There is a single root exactly when one asset, and no other, is a portfolio, a park or a site. */
  lemma SingleRootIff(assets: seq<Asset>)
    ensures |Roots(assets, |assets|)| == 1 <==> exists i :: OnlyRootAt(assets, |assets|, i)
  {
    if |Roots(assets, |assets|)| == 1 { var i := RootAt(assets, |assets|); }
    if i :| OnlyRootAt(assets, |assets|, i) { OnlyRoot(assets, i, |assets|); }
  }

  lemma {:induction false} NoRoots(assets: seq<Asset>, k: nat)
    requires k <= |assets|
    ensures Roots(assets, k) == [] <==> forall j :: 0 <= j < k ==> !MayBeRoot(assets[j])
  {
    if k > 0 {
      NoRoots(assets, k - 1);
      assert IsRootType(assets[k - 1].assetType) <==> MayBeRoot(assets[k - 1]);
    }
  }

  lemma {:induction false} RootAt(assets: seq<Asset>, k: nat) returns (i: int)
    requires k <= |assets| && |Roots(assets, k)| == 1
    ensures OnlyRootAt(assets, k, i)
  {
    assert IsRootType(assets[k - 1].assetType) <==> MayBeRoot(assets[k - 1]);
    if MayBeRoot(assets[k - 1]) {
      NoRoots(assets, k - 1);
      i := k - 1;
    } else {
      i := RootAt(assets, k - 1);
    }
  }

  lemma {:induction false} OnlyRoot(assets: seq<Asset>, i: nat, k: nat)
    requires i < k <= |assets| && MayBeRoot(assets[i])
    requires forall j :: 0 <= j < |assets| && MayBeRoot(assets[j]) ==> j == i
    ensures Roots(assets, k) == [assets[i]]
  {
    NoRoots(assets, k - 1);
    if i < k - 1 { OnlyRoot(assets, i, k - 1); }
  }

  // ---------------------------------------------------------------------------------------
  // Edges and relationships
  // ---------------------------------------------------------------------------------------

  ghost predicate ContainsAt(rels: seq<Relationship>, keys: set<string>, a: string, b: string, i: nat)
    requires i < |rels|
  {
    Contains(rels[i], keys) && rels[i].source == a && rels[i].target == b
  }

  lemma {:induction false} EdgeIsRelationship(rels: seq<Relationship>, keys: set<string>, k: nat, a: string, b: string)
    requires k <= |rels|
    ensures Edge(Containment(rels, keys, k), a, b) <==> exists i :: 0 <= i < k && ContainsAt(rels, keys, a, b, i)
  {
    if k > 0 {
      EdgeIsRelationship(rels, keys, k - 1, a, b);
      var g, h := Containment(rels, keys, k - 1), Containment(rels, keys, k);
      var r := rels[k - 1];
      assert Edge(h, a, b) <==> Edge(g, a, b) || ContainsAt(rels, keys, a, b, k - 1) by {
        if Contains(r, keys) && a == r.source {
          assert h[a] == Successors(g, a) + [r.target];
        }
      }
    }
  }

  lemma {:induction false} ParentCountPositive(rels: seq<Relationship>, keys: set<string>, t: string, k: nat, i: nat)
    requires i < k <= |rels| && Contains(rels[i], keys) && rels[i].target == t
    ensures ParentCount(rels, keys, t, k) >= 1
  {
    if i < k - 1 { ParentCountPositive(rels, keys, t, k - 1, i); }
  }

  lemma {:induction false} TwoParents(rels: seq<Relationship>, keys: set<string>, t: string, k: nat, i: nat, j: nat)
    requires i < j < k <= |rels|
    requires Contains(rels[i], keys) && rels[i].target == t && Contains(rels[j], keys) && rels[j].target == t
    ensures ParentCount(rels, keys, t, k) >= 2
  {
    if j < k - 1 {
      TwoParents(rels, keys, t, k - 1, i, j);
    } else {
      ParentCountPositive(rels, keys, t, k - 1, i);
    }
  }

  lemma SingleParent(rels: seq<Relationship>, keys: set<string>, a: string, b: string, t: string)
    requires ParentCount(rels, keys, t, |rels|) <= 1
    requires Edge(Containment(rels, keys, |rels|), a, t) && Edge(Containment(rels, keys, |rels|), b, t)
    ensures a == b
  {
    EdgeIsRelationship(rels, keys, |rels|, a, t);
    EdgeIsRelationship(rels, keys, |rels|, b, t);
    var i :| 0 <= i < |rels| && ContainsAt(rels, keys, a, t, i);
    var j :| 0 <= j < |rels| && ContainsAt(rels, keys, b, t, j);
    if i < j { TwoParents(rels, keys, t, |rels|, i, j); }
    if j < i { TwoParents(rels, keys, t, |rels|, j, i); }
  }

  lemma EdgeEndsAreKeys(rels: seq<Relationship>, keys: set<string>, a: string, b: string)
    requires Edge(Containment(rels, keys, |rels|), a, b)
    ensures a in keys && b in keys
  {
    EdgeIsRelationship(rels, keys, |rels|, a, b);
  }

  /** Targets of the first k containment relationships. */
  ghost function Targets(rels: seq<Relationship>, keys: set<string>, k: nat): set<string>
    requires k <= |rels|
  {
    if k == 0 then {}
    else Targets(rels, keys, k - 1) + (if Contains(rels[k - 1], keys) then {rels[k - 1].target} else {})
  }

  ghost predicate NoSharedTarget(rels: seq<Relationship>, keys: set<string>, k: nat)
    requires k <= |rels|
  {
    forall t :: ParentCount(rels, keys, t, k) <= 1
  }

  lemma NoSharedTargetStep(rels: seq<Relationship>, keys: set<string>, k: nat)
    requires 0 < k <= |rels|
    ensures var r := rels[k - 1];
            NoSharedTarget(rels, keys, k) <==>
            NoSharedTarget(rels, keys, k - 1) && (Contains(r, keys) ==> ParentCount(rels, keys, r.target, k - 1) == 0)
  {
    var r, j := rels[k - 1], k - 1;
    if NoSharedTarget(rels, keys, k) {
      forall t ensures ParentCount(rels, keys, t, j) <= 1 {
        assert ParentCount(rels, keys, t, k) <= 1;
      }
      assert ParentCount(rels, keys, r.target, k) <= 1;
    }
    if NoSharedTarget(rels, keys, j) && (Contains(r, keys) ==> ParentCount(rels, keys, r.target, j) == 0) {
      forall t ensures ParentCount(rels, keys, t, k) <= 1 {
        assert ParentCount(rels, keys, t, j) <= 1;
      }
    }
  }

  lemma {:induction false} TargetsHaveParents(rels: seq<Relationship>, keys: set<string>, k: nat, t: string)
    requires k <= |rels|
    ensures t in Targets(rels, keys, k) <==> ParentCount(rels, keys, t, k) >= 1
  {
    if k > 0 { TargetsHaveParents(rels, keys, k - 1, t); }
  }

  /** The relationships are at least as many as their targets, and as many exactly when no target repeats. */
  lemma {:induction false} CountTargets(rels: seq<Relationship>, keys: set<string>, k: nat)
    requires k <= |rels|
    ensures |Targets(rels, keys, k)| <= ContainsCount(rels, keys, k)
    ensures |Targets(rels, keys, k)| == ContainsCount(rels, keys, k) <==> NoSharedTarget(rels, keys, k)
  {
    hide NoSharedTarget, ParentCount, Targets, ContainsCount;
    if k == 0 {
      CountNone(rels, keys);
    } else {
      CountTargets(rels, keys, k - 1);
      NoSharedTargetStep(rels, keys, k);
      TargetsHaveParents(rels, keys, k - 1, rels[k - 1].target);
      CountStep(rels, keys, k);
    }
  }

  lemma CountNone(rels: seq<Relationship>, keys: set<string>)
    ensures |Targets(rels, keys, 0)| == ContainsCount(rels, keys, 0) && NoSharedTarget(rels, keys, 0)
  {}

  lemma CountStep(rels: seq<Relationship>, keys: set<string>, k: nat)
    requires 0 < k <= |rels|
    ensures var r := rels[k - 1];
            && ContainsCount(rels, keys, k) == ContainsCount(rels, keys, k - 1) + (if Contains(r, keys) then 1 else 0)
            && |Targets(rels, keys, k)| == |Targets(rels, keys, k - 1)| +
                 (if Contains(r, keys) && r.target !in Targets(rels, keys, k - 1) then 1 else 0)
  {
    var r, before := rels[k - 1], Targets(rels, keys, k - 1);
    if Contains(r, keys) && r.target !in before {
      assert Targets(rels, keys, k) == before + {r.target};
    } else {
      assert Targets(rels, keys, k) == before;
    }
  }

  lemma {:induction false} KeyCount(assets: seq<Asset>)
    requires DistinctKeys(assets)
    ensures |KeysOf(assets)| == |assets|
  {
    if assets != [] {
      var init, last := assets[..|assets| - 1], assets[|assets| - 1];
      assert assets == init + [last];
      KeysSnoc(init, last);
      KeyCount(init);
    } else {
      assert KeysOf(assets) == {};
    }
  }

  // ---------------------------------------------------------------------------------------
  // Checked shape implies tree
  // ---------------------------------------------------------------------------------------

  ghost predicate NoParent(g: Graph, n: string) { forall a :: !Edge(g, a, n) }

  ghost predicate SingleParents(g: Graph) {
    forall a, b, t :: Edge(g, a, t) && Edge(g, b, t) ==> a == b
  }

  /** With single parents and a parentless root, two paths from the root to one node are the same. */
  lemma {:induction false} PathsAgree(g: Graph, root: string, p: seq<string>, q: seq<string>)
    requires SingleParents(g) && NoParent(g, root)
    requires IsPath(g, p) && IsPath(g, q) && p[0] == root && q[0] == root && p[|p| - 1] == q[|q| - 1]
    ensures p == q
  {
    if |p| >= 2 { assert EdgeAt(g, p, |p| - 2); }
    if |q| >= 2 { assert EdgeAt(g, q, |q| - 2); }
    if |p| >= 2 && |q| >= 2 {
      PathSlice(g, p, 0, |p| - 1);
      PathSlice(g, q, 0, |q| - 1);
      PathsAgree(g, root, p[..|p| - 1], q[..|q| - 1]);
      assert p == p[..|p| - 1] + [p[|p| - 1]];
      assert q == q[..|q| - 1] + [q[|q| - 1]];
    }
  }

  lemma RootHasNoParent(assets: seq<Asset>, rels: seq<Relationship>)
    requires WellKeyed(assets, rels) && ShapeChecked(assets, rels)
    ensures NoParent(Tree(assets, rels), Roots(assets, |assets|)[0].Key())
  {
    var g, root := Tree(assets, rels), Roots(assets, |assets|)[0].Key();
    forall a ensures !Edge(g, a, root) {
      if Edge(g, a, root) {
        EdgeEndsAreKeys(rels, KeysOf(assets), a, root);
        if a == root {
          ReachesEdge(g, root, root);
        } else {
          ReachesSnoc(g, root, a, root);
        }
        assert false;
      }
    }
  }

  lemma CheckedShapeIsTree(assets: seq<Asset>, rels: seq<Relationship>)
    requires WellKeyed(assets, rels) && ShapeChecked(assets, rels)
    ensures RootedTree(assets, rels)
  {
    hide Cyclic, Containment, ParentCount;
    var keys, g, root := KeysOf(assets), Tree(assets, rels), Roots(assets, |assets|)[0].Key();
    RootIsKey(assets);
    RootHasNoParent(assets, rels);
    forall a, b, t | Edge(g, a, t) && Edge(g, b, t) ensures a == b {
      SingleParent(rels, keys, a, b, t);
    }
    forall n | n in keys ensures UniquePath(g, root, n) {
      if n == root {
        assert PathFromTo(g, [root], root, root);
      } else {
        assert Reaches(g, root, n);
      }
      forall p, q | PathFromTo(g, p, root, n) && PathFromTo(g, q, root, n) ensures p == q {
        PathsAgree(g, root, p, q);
      }
    }
    CountTargets(rels, keys, |rels|);
    TargetsOfTree(assets, rels);
    KeyCount(assets);
  }

  /** In a checked shape the containment targets are all keys but the root. */
  lemma TargetsOfTree(assets: seq<Asset>, rels: seq<Relationship>)
    requires WellKeyed(assets, rels)
    requires NoParent(Tree(assets, rels), Roots(assets, |assets|)[0].Key())
    requires var root := Roots(assets, |assets|)[0].Key();
             forall n :: n in KeysOf(assets) && n != root ==> Reaches(Tree(assets, rels), root, n)
    ensures Targets(rels, KeysOf(assets), |rels|) == KeysOf(assets) - {Roots(assets, |assets|)[0].Key()}
  {
    var keys, g, root := KeysOf(assets), Tree(assets, rels), Roots(assets, |assets|)[0].Key();
    forall t ensures t in Targets(rels, keys, |rels|) <==> t in keys && t != root {
      TargetHasEdge(rels, keys, |rels|, t);
      if t in keys && t != root {
        ReachedHasParent(g, root, t);
        var a :| Edge(g, a, t);
        EdgeIsRelationship(rels, keys, |rels|, a, t);
      }
      if i :| 0 <= i < |rels| && Contains(rels[i], keys) && rels[i].target == t {
        assert ContainsAt(rels, keys, rels[i].source, t, i);
        EdgeIsRelationship(rels, keys, |rels|, rels[i].source, t);
        assert Edge(g, rels[i].source, t);
      }
    }
  }

  lemma {:induction false} TargetHasEdge(rels: seq<Relationship>, keys: set<string>, k: nat, t: string)
    requires k <= |rels|
    ensures t in Targets(rels, keys, k) <==> exists i :: 0 <= i < k && Contains(rels[i], keys) && rels[i].target == t
  {
    if k > 0 { TargetHasEdge(rels, keys, k - 1, t); }
  }

  lemma ReachedHasParent(g: Graph, a: string, b: string)
    requires Reaches(g, a, b)
    ensures exists c :: Edge(g, c, b)
  {
    var p :| PathFromTo(g, p, a, b) && |p| >= 2;
    assert EdgeAt(g, p, |p| - 2);
  }

  // ---------------------------------------------------------------------------------------
  // Tree implies checked shape
  // ---------------------------------------------------------------------------------------

  lemma TreeIsCheckedShape(assets: seq<Asset>, rels: seq<Relationship>)
    requires WellKeyed(assets, rels) && RootedTree(assets, rels)
    ensures ShapeChecked(assets, rels)
  {
    hide Containment, ParentCount, DistinctKeys, Roots, NoSharedTarget, ContainsCount, IsPath;
    var keys, g, root := KeysOf(assets), Tree(assets, rels), Roots(assets, |assets|)[0].Key();
    RootIsKey(assets);
    forall n | n in keys && n != root ensures Reaches(g, root, n) {
      assert UniquePath(g, root, n);
      var p :| PathFromTo(g, p, root, n);
      LongerThanOne(g, p, root, n);
    }
    forall n ensures !Reaches(g, n, n) {
      if Reaches(g, n, n) { NodeOfCycleIsKey(rels, keys, n); LoopBreaksUniqueness(g, root, n, n); }
    }
    forall a ensures !Edge(g, a, root) {
      if Edge(g, a, root) {
        EdgeEndsAreKeys(rels, keys, a, root);
        ReachesEdge(g, a, root);
        LoopBreaksUniqueness(g, root, a, root);
      }
    }
    TargetsOfTree(assets, rels);
    CountTargets(rels, keys, |rels|);
    KeyCount(assets);
  }

  lemma LongerThanOne(g: Graph, p: seq<string>, a: string, b: string)
    requires PathFromTo(g, p, a, b) && a != b
    ensures |p| >= 2
  {}

  lemma NodeOfCycleIsKey(rels: seq<Relationship>, keys: set<string>, n: string)
    requires Reaches(Containment(rels, keys, |rels|), n, n)
    ensures n in keys
  {
    var g := Containment(rels, keys, |rels|);
    var c :| PathFromTo(g, c, n, n) && |c| >= 2;
    assert EdgeAt(g, c, 0);
    EdgeEndsAreKeys(rels, keys, n, c[1]);
  }

  /** If a node on a path from the root leads, by further edges, to a node with a shorter path from
      the root, that last node has two paths: a cycle (a == n) or an edge back into the root. */
  lemma LoopBreaksUniqueness(g: Graph, root: string, a: string, n: string)
    requires UniquePath(g, root, a) && Reaches(g, a, n) && (a == n || n == root)
    ensures !UniquePath(g, root, n)
  {
    var p :| PathFromTo(g, p, root, a);
    var c :| PathFromTo(g, c, a, n) && |c| >= 2;
    PathJoin(g, p, c);
    assert PathFromTo(g, p + c[1..], root, n) && |p + c[1..]| > |p|;
    if n == root { assert PathFromTo(g, [root], root, n); }
  }

  /** Main result: given well-keyed assets, the shape checks pass exactly for rooted trees. */
  lemma ShapeCheckedIffRootedTree(assets: seq<Asset>, rels: seq<Relationship>)
    requires WellKeyed(assets, rels)
    ensures ShapeChecked(assets, rels) <==> RootedTree(assets, rels)
  {
    if ShapeChecked(assets, rels) { CheckedShapeIsTree(assets, rels); }
    if RootedTree(assets, rels) { TreeIsCheckedShape(assets, rels); }
  }
}
