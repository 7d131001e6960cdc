/** Directed graphs as energy_platform.py keeps them: a map from a node to its list of successors,
    with a depth-first cycle check and a stack-driven reachability search. */
module TopologyGraph {

  type Graph = map<string, seq<string>>

  predicate Edge(g: Graph, a: string, b: string) { a in g && b in g[a] }

  predicate EdgeAt(g: Graph, p: seq<string>, i: nat)
    requires i + 1 < |p|
  {
    Edge(g, p[i], p[i + 1])
  }

  ghost predicate IsPath(g: Graph, p: seq<string>) {
    |p| > 0 && forall i :: 0 <= i < |p| - 1 ==> EdgeAt(g, p, i)
  }

  ghost predicate PathFromTo(g: Graph, p: seq<string>, a: string, b: string) {
    IsPath(g, p) && p[0] == a && p[|p| - 1] == b
  }

  /** b can be reached from a by one or more edges. */
  ghost predicate Reaches(g: Graph, a: string, b: string) {
    exists p :: PathFromTo(g, p, a, b) && |p| >= 2
  }

  ghost predicate Cyclic(g: Graph) {
    exists n :: Reaches(g, n, n)
  }

  function Successors(g: Graph, n: string): seq<string> { if n in g then g[n] else [] }

  // ---------------------------------------------------------------------------------------
  // Paths
  // ---------------------------------------------------------------------------------------

  lemma PathSnoc(g: Graph, p: seq<string>, n: string)
    requires IsPath(g, p) && Edge(g, p[|p| - 1], n)
    ensures IsPath(g, p + [n])
  {
    var q := p + [n];
    forall i | 0 <= i < |q| - 1 ensures EdgeAt(g, q, i) {
      if i < |p| - 1 { assert EdgeAt(g, p, i); }
    }
  }

  lemma PathSlice(g: Graph, p: seq<string>, lo: nat, hi: nat)
    requires IsPath(g, p) && lo < hi <= |p|
    ensures IsPath(g, p[lo..hi])
  {
    var q := p[lo..hi];
    forall i | 0 <= i < |q| - 1 ensures EdgeAt(g, q, i) {
      assert EdgeAt(g, p, lo + i);
    }
  }

  /** Two paths that meet, joined at the meeting point. */
  lemma PathJoin(g: Graph, p: seq<string>, q: seq<string>)
    requires IsPath(g, p) && IsPath(g, q) && p[|p| - 1] == q[0]
    ensures IsPath(g, p + q[1..]) && (p + q[1..])[|p| + |q| - 2] == q[|q| - 1]
  {
    var r := p + q[1..];
    forall i | 0 <= i < |r| - 1 ensures EdgeAt(g, r, i) {
      if i < |p| - 1 { assert EdgeAt(g, p, i); } else { assert EdgeAt(g, q, i - (|p| - 1)); }
    }
  }

  lemma ReachesEdge(g: Graph, a: string, b: string)
    requires Edge(g, a, b)
    ensures Reaches(g, a, b)
  {
    PathSnoc(g, [a], b);
    assert PathFromTo(g, [a] + [b], a, b);
  }

  lemma ReachesSnoc(g: Graph, a: string, b: string, c: string)
    requires Reaches(g, a, b) && Edge(g, b, c)
    ensures Reaches(g, a, c)
  {
    var p :| PathFromTo(g, p, a, b) && |p| >= 2;
    PathSnoc(g, p, c);
    assert PathFromTo(g, p + [c], a, c);
  }

  ghost predicate ClosedUnderEdges(g: Graph, s: set<string>) {
    forall a, b :: a in s && Edge(g, a, b) ==> b in s
  }

  /** A set that is closed under edges and holds the start's successors holds everything reachable. */
  lemma {:induction false} ClosedHoldsPath(g: Graph, s: set<string>, p: seq<string>)
    requires ClosedUnderEdges(g, s) && IsPath(g, p) && |p| >= 2
    requires forall b :: Edge(g, p[0], b) ==> b in s
    ensures p[|p| - 1] in s
  {
    assert EdgeAt(g, p, |p| - 2);
    if |p| > 2 {
      var q := p[..|p| - 1];
      PathSlice(g, p, 0, |p| - 1);
      ClosedHoldsPath(g, s, q);
      assert Edge(g, q[|q| - 1], p[|p| - 1]);
    }
  }

  // ---------------------------------------------------------------------------------------
  // Reachability by an explicit stack
  // ---------------------------------------------------------------------------------------

  /** Every node the graph mentions. */
  ghost function Nodes(g: Graph): set<string> {
    g.Keys + set a, i | a in g && 0 <= i < |g[a]| :: g[a][i]
  }

  method ReachableFrom(g: Graph, root: string) returns (result: set<string>)
    ensures forall n :: n in result <==> Reaches(g, root, n)
  {
    result := {};
    var stack := Successors(g, root);
    forall n | n in stack ensures Reaches(g, root, n) { ReachesEdge(g, root, n); }
    while stack != []
      invariant forall n :: n in result ==> Reaches(g, root, n)
      invariant forall n :: n in stack ==> Reaches(g, root, n)
      invariant result <= Nodes(g)
      invariant forall n :: n in stack ==> n in Nodes(g)
      invariant forall b :: Edge(g, root, b) ==> b in result || b in stack
      invariant forall a, b :: a in result && Edge(g, a, b) ==> b in result || b in stack
      decreases Nodes(g) - result, |stack|
    {
      ghost var before := stack;
      var node := stack[|stack| - 1];
      stack := stack[..|stack| - 1];
      assert before == stack + [node];
      assert node in before;
      if node in result {
        continue;
      }
      assert node in Nodes(g) - result;
      forall b | Edge(g, node, b) ensures Reaches(g, root, b) { ReachesSnoc(g, root, node, b); }
      result := result + {node};
      stack := stack + Successors(g, node);
    }
    forall n | Reaches(g, root, n) ensures n in result {
      var p :| PathFromTo(g, p, root, n) && |p| >= 2;
      ClosedHoldsPath(g, result, p);
    }
  }

  // ---------------------------------------------------------------------------------------
  // Depth-first cycle check
  // ---------------------------------------------------------------------------------------

  /** Finished nodes are ranked, and every edge out of a finished node goes to a lower rank. */
  ghost predicate Ranked(g: Graph, rank: map<string, nat>) {
    forall a, b :: a in rank && Edge(g, a, b) ==> b in rank && rank[b] < rank[a]
  }

  lemma {:induction false} RankFalls(g: Graph, rank: map<string, nat>, p: seq<string>)
    requires Ranked(g, rank) && IsPath(g, p) && |p| >= 2 && p[0] in rank
    ensures p[|p| - 1] in rank && rank[p[|p| - 1]] < rank[p[0]]
  {
    assert EdgeAt(g, p, |p| - 2);
    if |p| > 2 {
      PathSlice(g, p, 0, |p| - 1);
      RankFalls(g, rank, p[..|p| - 1]);
    }
  }

  lemma RankedIsAcyclic(g: Graph, rank: map<string, nat>)
    requires Ranked(g, rank) && g.Keys <= rank.Keys
    ensures !Cyclic(g)
  {
    forall n | Reaches(g, n, n) ensures false {
      var p :| PathFromTo(g, p, n, n) && |p| >= 2;
      assert EdgeAt(g, p, 0);
      RankFalls(g, rank, p);
    }
  }

  /** The two colour sets of the search, with the call stack and finishing ranks as ghosts. */
  class CycleFinder {
    const graph: Graph
    var visiting: set<string>
    var visited: set<string>
    ghost var stack: seq<string>
    ghost var rank: map<string, nat>
    ghost var height: nat

    ghost predicate Valid()
      reads this
    {
      && visiting == (set n | n in stack)
      && (stack != [] ==> IsPath(graph, stack))
      && visited == rank.Keys && visited !! visiting
      && (forall n :: n in rank ==> rank[n] < height)
      && Ranked(graph, rank)
      && visiting <= Nodes(graph)
    }

    constructor (g: Graph)
      ensures Valid() && graph == g && visited == {} && visiting == {} && stack == []
    {
      graph := g;
      visiting, visited := {}, {};
      stack, rank, height := [], map[], 0;
    }

    /** Colour a new node as being visited. */
    method Enter(node: string)
      requires Valid() && node in Nodes(graph) && node !in visiting && node !in visited
      requires stack != [] ==> Edge(graph, stack[|stack| - 1], node)
      modifies this
      ensures Valid() && stack == old(stack) + [node]
      ensures visiting == old(visiting) + {node} && visited == old(visited)
    {
      hide IsPath, Ranked;
      if stack != [] { PathSnoc(graph, stack, node); } else { SingletonPath(graph, node); }
      visiting, stack := visiting + {node}, stack + [node];
    }

    /** Colour the node on top of the stack as finished, once all its successors are. */
    method Leave(node: string, ghost below: seq<string>)
      requires Valid() && stack == below + [node] && node !in below
      requires forall b :: Edge(graph, node, b) ==> b in visited
      modifies this
      ensures Valid() && stack == below
      ensures visiting == old(visiting) - {node} && visited == old(visited) + {node}
    {
      if below != [] { PathSlice(graph, stack, 0, |stack| - 1); }
      visiting, visited := visiting - {node}, visited + {node};
      stack, rank, height := below, rank[node := height], height + 1;
    }

    /** True exactly when the search from this node runs into a node that is still being visited;
        then the graph has a cycle. Otherwise the node and all below it are finished. */
    method Visit(node: string) returns (found: bool)
      requires Valid() && node in Nodes(graph)
      requires stack != [] ==> Edge(graph, stack[|stack| - 1], node)
      modifies this
      ensures found ==> Cyclic(graph)
      ensures !found ==> Valid() && stack == old(stack) && visiting == old(visiting)
      ensures !found ==> node in visited && old(visited) <= visited
      decreases Nodes(graph) - visiting - visited
    {
      hide IsPath, Cyclic, Ranked;
      if node in visiting {
        CloseCycle(graph, stack, node);
        return true;
      }
      if node in visited {
        return false;
      }
      Enter(node);
      var children := Successors(graph, node);
      for i := 0 to |children|
        invariant Valid() && stack == old(stack) + [node] && visiting == old(visiting) + {node}
        invariant old(visited) <= visited
        invariant forall j :: 0 <= j < i ==> children[j] in visited
      {
        assert Edge(graph, node, children[i]);
        assert node in Nodes(graph) - old(visiting) - old(visited);
        found := Visit(children[i]);
        if found {
          return true;
        }
      }
      Leave(node, old(stack));
      return false;
    }
  }

  lemma SingletonPath(g: Graph, node: string)
    ensures IsPath(g, [] + [node])
  {}

  lemma CloseCycle(g: Graph, stack: seq<string>, node: string)
    requires node in stack && IsPath(g, stack) && Edge(g, stack[|stack| - 1], node)
    ensures Cyclic(g)
  {
    var i :| 0 <= i < |stack| && stack[i] == node;
    PathSlice(g, stack, i, |stack|);
    var p := stack[i..|stack|];
    PathSnoc(g, p, node);
    assert PathFromTo(g, p + [node], node, node);
    assert Reaches(g, node, node);
  }

  /** The cycle check answers true exactly when the graph has a directed cycle; `order` is the
      dictionary's iteration order. */
  method HasCycle(g: Graph, order: seq<string>) returns (found: bool)
    requires forall n :: n in order <==> n in g
    ensures found <==> Cyclic(g)
  {
    var finder := new CycleFinder(g);
    for i := 0 to |order|
      invariant fresh(finder) && finder.graph == g && finder.Valid() && finder.stack == []
      invariant forall j :: 0 <= j < i ==> order[j] in finder.visited
    {
      assert order[i] in g;
      found := finder.Visit(order[i]);
      if found {
        return true;
      }
    }
    forall n | n in g ensures n in finder.rank { assert n in order; }
    RankedIsAcyclic(g, finder.rank);
    return false;
  }
}
