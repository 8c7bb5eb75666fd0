/** Everything that depends on a node, found over the reversed dependency edges. */
module Descendants {
  import opened Wrappers
  import opened Names
  import opened Reachability
  import opened DependencyGraph
  import opened Layers

  function NamesOf(dependencies: seq<Dependency>): seq<Name> {
    seq(|dependencies|, k requires 0 <= k < |dependencies| => dependencies[k].name)
  }

  /** Every listed dependency, required or not, known or not. */
  function Listed(g: Graph): Edges {
    map n | n in g.edges :: NamesOf(g.edges[n])
  }

  /** The reversed edges, counting the nodes in `done`. */
  ghost predicate Reversed(g: Graph, done: set<Name>, reverse: map<Name, seq<Name>>) {
    forall d, n :: n in Successors(reverse, d) <==> n in done && Edge(Listed(g), n, d)
  }

  method Reverse(g: Graph) returns (reverse: map<Name, seq<Name>>)
    ensures Reversed(g, g.edges.Keys, reverse)
  {
    reverse := map[];
    var todo := g.edges.Keys;
    ghost var done: set<Name> := {};
    while todo != {}
      invariant done !! todo && done + todo == g.edges.Keys && Reversed(g, done, reverse)
    {
      var from :| from in todo;
      reverse := ReverseOne(g, from, reverse, done);
      MoveOne(g.edges.Keys, done, todo, from);
      done, todo := done + {from}, todo - {from};
    }
  }

  method ReverseOne(g: Graph, from: Name, before: map<Name, seq<Name>>, ghost done: set<Name>)
    returns (reverse: map<Name, seq<Name>>)
    requires from in g.edges && from !in done && Reversed(g, done, before)
    ensures Reversed(g, done + {from}, reverse)
  {
    reverse := before;
    var names := NamesOf(g.edges[from]);
    for k := 0 to |names|
      invariant forall d, n :: n in Successors(reverse, d) <==>
                               n in Successors(before, d) || (n == from && d in names[..k])
    {
      assert names[..k + 1] == names[..k] + [names[k]];
      reverse := reverse[names[k] := Successors(reverse, names[k]) + [from]];
    }
    assert names[..|names|] == names;
  }

  ghost predicate AllReach(e: Edges, seen: set<Name>, node: Name) {
    forall x :: x in seen ==> Reaches(e, x, node)
  }

  /** Marks and queues the nodes that list `n`. */
  method Spread(g: Graph, reverse: map<Name, seq<Name>>, n: Name, node: Name, queue0: seq<Name>, seen0: set<Name>)
    returns (queue: seq<Name>, seen: set<Name>)
    requires Reversed(g, g.edges.Keys, reverse) && seen0 <= g.edges.Keys && AllReach(Listed(g), seen0, node)
    requires n == node || n in seen0
    ensures seen0 <= seen <= g.edges.Keys && AllReach(Listed(g), seen, node)
    ensures forall x :: x in queue <==> x in queue0 || (x in seen && x !in seen0)
    ensures seen == seen0 ==> queue == queue0
    ensures forall x :: Edge(Listed(g), x, n) ==> x in seen
  {
    queue, seen := queue0, seen0;
    ghost var e := Listed(g);
    var succs := Successors(reverse, n);
    for k := 0 to |succs|
      invariant seen0 <= seen <= g.edges.Keys && AllReach(e, seen, node)
      invariant forall x :: x in queue <==> x in queue0 || (x in seen && x !in seen0)
      invariant seen == seen0 ==> queue == queue0
      invariant forall j :: 0 <= j < k ==> succs[j] in seen
    {
      assert Edge(e, succs[k], n);
      EdgeReaches(e, succs[k], n);
      if n != node {
        ReachesTransitive(e, succs[k], n, node);
      }
      if succs[k] !in seen {
        seen := seen + {succs[k]};
        queue := queue + [succs[k]];
      }
    }
    forall x | Edge(e, x, n) ensures x in seen {
      assert x in succs;
    }
  }

  /** The nodes from which `node` is reached, in declaration order. */
  method Descendants(g: Graph, node: Name) returns (found: seq<Name>)
    ensures forall n :: n in found <==> n in g.nodes && Reaches(Listed(g), n, node)
    ensures exists chosen :: found == InOrder(g.nodes, chosen)
  {
    var reverse := Reverse(g);
    ghost var e := Listed(g);
    var seen: set<Name> := {};
    var queue := [node];
    while queue != []
      invariant seen <= g.edges.Keys && (forall x :: x in queue ==> x in seen || x == node)
      invariant AllReach(e, seen, node)
      invariant forall x, y :: (y in seen || y == node) && y !in queue && Edge(e, x, y) ==> x in seen
      decreases g.edges.Keys - seen, |queue|
    {
      ghost var before := queue;
      var n := queue[0];
      queue := queue[1..];
      assert forall x :: x in before <==> x == n || x in queue;
      queue, seen := Spread(g, reverse, n, node, queue, seen);
    }
    forall x | Reaches(e, x, node) ensures x in seen {
      ReachedIsSeen(e, seen, x, node);
    }
    found := InOrder(g.nodes, seen);
  }

  /** A set that takes in every predecessor of its members and of `node` holds all that reaches `node`. */
  lemma ReachedIsSeen(e: Edges, seen: set<Name>, x: Name, node: Name)
    requires forall a, b :: (b in seen || b == node) && Edge(e, a, b) ==> a in seen
    requires Reaches(e, x, node)
    ensures x in seen
  {
    var w :| IsWalk(e, w) && 2 <= |w| && w[0] == x && w[|w| - 1] == node;
    var i := |w| - 2;
    assert Edge(e, w[i], w[i + 1]);
    while i > 0
      invariant 0 <= i < |w| && w[i] in seen
    {
      assert Edge(e, w[i - 1], w[i]);
      i := i - 1;
    }
  }
}
