/** The dependency graph of steps and services, and its layered ordering. */
module DependencyGraph {
  import opened Names
  import opened Reachability

  datatype NodeKind = Step | Service

  datatype Dependency = Dependency(name: Name, required: bool)

  datatype Graph = Graph(
    edges: map<Name, seq<Dependency>>, nodes: seq<Name>, kinds: map<Name, NodeKind>,
    hasProvision: set<Name>, external: set<Name>, sessionScoped: set<Name>)

  function NodeSet(nodes: seq<Name>): set<Name> {
    set n | n in nodes
  }

  /** How a graph is built from a stack whose step and service names are distinct. */
  ghost predicate Formed(g: Graph) {
    && (forall i, j :: 0 <= i < j < |g.nodes| ==> g.nodes[i] != g.nodes[j])
    && g.edges.Keys == g.kinds.Keys == NodeSet(g.nodes)
  }

  /** Every listed dependency names a step or a service of the stack. */
  ghost predicate Complete(g: Graph) {
    forall n, d :: n in g.edges && d in g.edges[n] ==> d.name in g.edges
  }

  function DependenciesOf(g: Graph, n: Name): seq<Dependency> {
    if n in g.edges then g.edges[n] else []
  }

  /** The names of the listed dependencies that are known, and required if so asked. */
  function Targets(dependencies: seq<Dependency>, known: set<Name>, requiredOnly: bool): seq<Name> {
    if dependencies == [] then []
    else
      var d, rest := dependencies[0], Targets(dependencies[1..], known, requiredOnly);
      if d.name in known && (requiredOnly ==> d.required) then [d.name] + rest else rest
  }

  lemma {:induction false} TargetsMean(dependencies: seq<Dependency>, known: set<Name>, requiredOnly: bool, n: Name)
    ensures n in Targets(dependencies, known, requiredOnly) <==>
            n in known && exists d :: d in dependencies && d.name == n && (requiredOnly ==> d.required)
  {
    if dependencies != [] {
      assert dependencies == [dependencies[0]] + dependencies[1..];
      TargetsMean(dependencies[1..], known, requiredOnly, n);
    }
  }

  /** The edges the ordering follows: required dependencies on known nodes. */
  function Required(g: Graph): Edges {
    map n | n in g.edges :: Targets(g.edges[n], g.edges.Keys, true)
  }

  /** The edges the cycle check follows: every dependency on a known node. */
  function Known(g: Graph): Edges {
    map n | n in g.edges :: Targets(g.edges[n], g.edges.Keys, false)
  }

  // ----- how deep a node lies

  /** A chain of `k` dependencies starts at `a`. */
  ghost predicate Chain(g: Edges, a: Name, k: nat)
    decreases k
  {
    k == 0 || exists b :: Edge(g, a, b) && Chain(g, b, k - 1)
  }

  /** The longest chain from `a` has exactly `k` dependencies. */
  ghost predicate Level(g: Edges, a: Name, k: nat) {
    Chain(g, a, k) && !Chain(g, a, k + 1)
  }

  lemma {:induction false} ChainShorter(g: Edges, a: Name, j: nat, k: nat)
    requires j <= k && Chain(g, a, k)
    ensures Chain(g, a, j)
    decreases k
  {
    if 0 < j {
      var b :| Edge(g, a, b) && Chain(g, b, k - 1);
      ChainShorter(g, b, j - 1, k - 1);
    }
  }

  lemma {:induction false} ChainIsWalk(g: Edges, a: Name, k: nat)
    ensures Chain(g, a, k) <==> exists w :: IsWalk(g, w) && |w| == k + 1 && w[0] == a
    decreases k
  {
    if k == 0 {
      assert IsWalk(g, [a]);
    } else {
      if Chain(g, a, k) {
        var b :| Edge(g, a, b) && Chain(g, b, k - 1);
        ChainIsWalk(g, b, k - 1);
        var w :| IsWalk(g, w) && |w| == k && w[0] == b;
        var v := [a] + w;
        forall i | 0 <= i < |v| - 1 ensures Edge(g, v[i], v[i + 1]) {
          assert i > 0 ==> Edge(g, w[i - 1], w[i]);
        }
        assert IsWalk(g, v);
      }
      if w :| IsWalk(g, w) && |w| == k + 1 && w[0] == a {
        assert Edge(g, w[0], w[1]);
        forall i | 0 <= i < |w[1..]| - 1 ensures Edge(g, w[1..][i], w[1..][i + 1]) {
          assert Edge(g, w[i + 1], w[i + 2]);
        }
        assert IsWalk(g, w[1..]);
        ChainIsWalk(g, w[1], k - 1);
      }
    }
  }

  /** A dependency lies strictly below what depends on it. */
  lemma LevelsDescend(g: Edges, a: Name, b: Name, i: nat, j: nat)
    requires Edge(g, a, b) && Level(g, a, i) && Level(g, b, j)
    ensures j < i
  {
    assert Chain(g, a, j + 1);
    if i <= j {
      ChainShorter(g, a, i + 1, j + 1);
    }
  }

  ghost predicate MeetsCycle(g: Edges, a: Name) {
    Reaches(g, a, a) || exists c :: Reaches(g, a, c) && Reaches(g, c, c)
  }

  lemma {:induction false} CycleChains(g: Edges, a: Name, c: Name, k: nat)
    requires Reaches(g, c, c) && (a == c || Reaches(g, a, c))
    ensures Chain(g, a, k)
    decreases k
  {
    if k > 0 {
      var b := FirstStep(g, a, c);
      CycleChains(g, b, c, k - 1);
    }
  }

  /** Away from cycles, chains are no longer than the number of nodes below. */
  lemma {:induction false} NoCycleBounds(g: Edges, a: Name)
    requires !MeetsCycle(g, a)
    ensures !Chain(g, a, |Below(g, a)| + 2)
    decreases Below(g, a)
  {
    forall b | Edge(g, a, b) ensures !Chain(g, b, |Below(g, a)| + 1) {
      EdgeReaches(g, a, b);
      if b in g {
        forall c | Reaches(g, b, c) ensures Reaches(g, a, c) {
          ReachesTransitive(g, a, b, c);
        }
        BelowShrinks(g, a, b);
        NoCycleBounds(g, b);
        SubsetSize(Below(g, b), Below(g, a));
        if Chain(g, b, |Below(g, a)| + 1) {
          ChainShorter(g, b, |Below(g, b)| + 2, |Below(g, a)| + 1);
        }
      }
    }
  }

  lemma SubsetSize<T>(a: set<T>, b: set<T>)
    requires a < b
    ensures |a| < |b|
  {
    var x :| x in b && x !in a;
    CardinalityUpTo(a, b - {x});
  }

  lemma {:induction false} CardinalityUpTo<T>(a: set<T>, b: set<T>)
    requires a <= b
    ensures |a| <= |b|
  {
    if a != {} {
      var x :| x in a;
      CardinalityUpTo(a - {x}, b - {x});
    }
  }

  /** Chains of every length start exactly at the nodes that lead into a cycle. */
  lemma UnboundedIffMeetsCycle(g: Edges, a: Name)
    ensures (forall k: nat :: Chain(g, a, k)) <==> MeetsCycle(g, a)
  {
    if MeetsCycle(g, a) {
      forall k: nat ensures Chain(g, a, k) {
        if Reaches(g, a, a) {
          CycleChains(g, a, a, k);
        } else {
          var c :| Reaches(g, a, c) && Reaches(g, c, c);
          CycleChains(g, a, c, k);
        }
      }
    } else {
      NoCycleBounds(g, a);
    }
  }
}
