/** Kahn's algorithm with grouped output, over in-degree counts and reversed edges. */
module Layers {
  import opened Wrappers
  import opened Names
  import opened Reachability
  import opened DependencyGraph
  import opened CycleCheck

  /** The members of `chosen`, in declaration order. */
  function InOrder(nodes: seq<Name>, chosen: set<Name>): (r: seq<Name>)
    ensures forall n :: n in r <==> n in nodes && n in chosen
  {
    if nodes == [] then []
    else if nodes[0] in chosen then [nodes[0]] + InOrder(nodes[1..], chosen)
    else InOrder(nodes[1..], chosen)
  }

  /** How many of the listed targets are not in `done`. */
  function Remaining(targets: seq<Name>, done: set<Name>): nat {
    if targets == [] then 0
    else (if targets[0] in done then 0 else 1) + Remaining(targets[1..], done)
  }

  lemma {:induction false} RemainingIsZero(targets: seq<Name>, done: set<Name>)
    ensures Remaining(targets, done) == 0 <==> forall n :: n in targets ==> n in done
  {
    if targets != [] {
      RemainingIsZero(targets[1..], done);
      assert targets == [targets[0]] + targets[1..];
    }
  }

  lemma {:induction false} RemainingDrops(targets: seq<Name>, done: set<Name>, n: Name)
    requires n !in done
    ensures Remaining(targets, done + {n}) + multiset(targets)[n] == Remaining(targets, done)
  {
    if targets != [] {
      RemainingDrops(targets[1..], done, n);
      assert targets == [targets[0]] + targets[1..];
    }
  }

  lemma {:induction false} RemainingOfNone(targets: seq<Name>)
    ensures Remaining(targets, {}) == |targets|
  {
    if targets != [] {
      RemainingOfNone(targets[1..]);
    }
  }

  function Successors(reverse: map<Name, seq<Name>>, n: Name): seq<Name> {
    if n in reverse then reverse[n] else []
  }

  /** How often `n` is listed as depending on `d`. */
  ghost function Links(reverse: map<Name, seq<Name>>, d: Name, n: Name): nat {
    multiset(Successors(reverse, d))[n]
  }

  ghost function Times(targets: seq<Name>, d: Name): nat {
    multiset(targets)[d]
  }

  /** `reverse` is `reverse0` with `node` linked once more from each of `targets`. */
  ghost predicate Linked(reverse0: map<Name, seq<Name>>, reverse: map<Name, seq<Name>>, node: Name,
      targets: seq<Name>) {
    forall d, n :: Links(reverse, d, n) == Links(reverse0, d, n) + if n == node then Times(targets, d) else 0
  }

  lemma LinkNone(reverse: map<Name, seq<Name>>, node: Name)
    ensures Linked(reverse, reverse, node, [])
  {
    assert forall d :: Times([], d) == 0;
  }

  lemma LinkAt(reverse: map<Name, seq<Name>>, node: Name, d: Name, e: Name, n: Name)
    ensures Links(reverse[d := Successors(reverse, d) + [node]], e, n) ==
            Links(reverse, e, n) + if e == d && n == node then 1 else 0
  {
  }

  lemma LinkOne(reverse0: map<Name, seq<Name>>, reverse: map<Name, seq<Name>>, node: Name, targets: seq<Name>, d: Name)
    requires Linked(reverse0, reverse, node, targets)
    ensures Linked(reverse0, reverse[d := Successors(reverse, d) + [node]], node, targets + [d])
  {
    var after := reverse[d := Successors(reverse, d) + [node]];
    forall e, n ensures Links(after, e, n) == Links(reverse0, e, n) + if n == node then Times(targets + [d], e) else 0 {
      LinkAt(reverse, node, d, e, n);
      TimesSnoc(targets, d, e);
    }
  }

  /** One more in-degree of `node`, and one more link to it, for each of `targets`. */
  function CountAll(inDegree: map<Name, nat>, reverse: map<Name, seq<Name>>, node: Name, targets: seq<Name>)
    : (counted: (map<Name, nat>, map<Name, seq<Name>>))
    requires node in inDegree
    ensures counted.0.Keys == inDegree.Keys
  {
    if targets == [] then (inDegree, reverse)
    else
      var (degrees, links) := CountAll(inDegree, reverse, node, targets[..|targets| - 1]);
      var d := targets[|targets| - 1];
      (degrees[node := degrees[node] + 1], links[d := Successors(links, d) + [node]])
  }

  lemma {:induction false} CountAllEffect(inDegree: map<Name, nat>, reverse: map<Name, seq<Name>>, node: Name,
      targets: seq<Name>)
    requires node in inDegree
    ensures var (degrees, links) := CountAll(inDegree, reverse, node, targets);
            degrees == inDegree[node := inDegree[node] + |targets|] && Linked(reverse, links, node, targets)
    decreases |targets|
  {
    if targets == [] {
      LinkNone(reverse, node);
    } else {
      var rest, d := targets[..|targets| - 1], targets[|targets| - 1];
      assert targets == rest + [d];
      CountAllEffect(inDegree, reverse, node, rest);
      LinkOne(reverse, CountAll(inDegree, reverse, node, rest).1, node, rest, d);
    }
  }

  /** One node's required known dependencies, counted and linked back. */
  method CountNode(g: Graph, node: Name, inDegree0: map<Name, nat>, reverse0: map<Name, seq<Name>>)
    returns (inDegree: map<Name, nat>, reverse: map<Name, seq<Name>>)
    requires node in g.edges && inDegree0.Keys == g.edges.Keys
    ensures (inDegree, reverse) == CountAll(inDegree0, reverse0, node, Required(g)[node])
  {
    inDegree, reverse := inDegree0, reverse0;
    var deps := g.edges[node];
    for i := 0 to |deps|
      invariant inDegree.Keys == g.edges.Keys
      invariant (inDegree, reverse) == CountAll(inDegree0, reverse0, node, Targets(deps[..i], g.edges.Keys, true))
    {
      var dep := deps[i];
      TargetsSnoc(deps, i, g.edges.Keys);
      if dep.required && dep.name in inDegree {
        CountSnoc(inDegree0, reverse0, node, Targets(deps[..i], g.edges.Keys, true), dep.name);
        inDegree := inDegree[node := inDegree[node] + 1];
        reverse := reverse[dep.name := Successors(reverse, dep.name) + [node]];
      }
    }
    assert deps[..|deps|] == deps;
  }

  lemma CountSnoc(inDegree: map<Name, nat>, reverse: map<Name, seq<Name>>, node: Name, targets: seq<Name>, d: Name)
    requires node in inDegree
    ensures var (degrees, links) := CountAll(inDegree, reverse, node, targets);
            CountAll(inDegree, reverse, node, targets + [d]) ==
            (degrees[node := degrees[node] + 1], links[d := Successors(links, d) + [node]])
  {
    assert (targets + [d])[..|targets|] == targets;
  }

  // ----- the counting loop

  /** What the first loop leaves: each node's in-degree, and links for all of `done`. */
  ghost predicate Counted(g: Graph, done: set<Name>, inDegree: map<Name, nat>, reverse: map<Name, seq<Name>>)
  {
    && inDegree.Keys == g.edges.Keys
    && (forall n :: n in inDegree ==> inDegree[n] == if n in done then |Required(g)[n]| else 0)
    && (forall d, n :: Links(reverse, d, n) == if n in done && n in g.edges then Times(Required(g)[n], d) else 0)
  }

  lemma CountedOneMore(g: Graph, done: set<Name>, inDegree: map<Name, nat>, reverse: map<Name, seq<Name>>, node: Name)
    requires Counted(g, done, inDegree, reverse) && node in g.edges && node !in done
    ensures var (degrees, links) := CountAll(inDegree, reverse, node, Required(g)[node]);
            Counted(g, done + {node}, degrees, links)
  {
    CountAllEffect(inDegree, reverse, node, Required(g)[node]);
  }

  /** The counts do not depend on the order in which the edge map is walked. */
  method Count(g: Graph) returns (inDegree: map<Name, nat>, reverse: map<Name, seq<Name>>)
    ensures Counted(g, g.edges.Keys, inDegree, reverse)
  {
    inDegree := map n | n in g.edges :: 0;
    reverse := map[];
    var todo := g.edges.Keys;
    ghost var done: set<Name> := {};
    while todo != {}
      invariant done !! todo && done + todo == g.edges.Keys
      invariant Counted(g, done, inDegree, reverse)
      decreases todo
    {
      var node :| node in todo;
      CountedOneMore(g, done, inDegree, reverse, node);
      MoveOne(g.edges.Keys, done, todo, node);
      inDegree, reverse := CountNode(g, node, inDegree, reverse);
      todo, done := todo - {node}, done + {node};
    }
    assert done == g.edges.Keys;
  }

  lemma {:induction false} TargetsSnoc(deps: seq<Dependency>, i: nat, known: set<Name>)
    requires i < |deps|
    ensures Targets(deps[..i + 1], known, true) ==
            if deps[i].name in known && deps[i].required then Targets(deps[..i], known, true) + [deps[i].name]
            else Targets(deps[..i], known, true)
  {
    if i > 0 {
      TargetsSnoc(deps[1..], i - 1, known);
      assert deps[..i + 1][1..] == deps[1..][..i] && deps[..i][1..] == deps[1..][..i - 1];
    } else {
      assert deps[..1] == [deps[0]];
    }
  }

  // ----- the peeling loop

  /** Each in-degree counts the dependencies that are not done yet. */
  ghost predicate Degrees(g: Graph, done: set<Name>, inDegree: map<Name, nat>) {
    inDegree.Keys == g.edges.Keys && forall n :: n in inDegree ==> inDegree[n] == Remaining(Required(g)[n], done)
  }

  ghost predicate Linking(g: Graph, reverse: map<Name, seq<Name>>) {
    forall d, n :: Links(reverse, d, n) == if n in g.edges then Times(Required(g)[n], d) else 0
  }

  /** `next` holds, once each, the nodes that had something left to wait for and now have nothing. */
  ghost predicate Freed(g: Graph, done: set<Name>, inDegree: map<Name, nat>, next: seq<Name>) {
    Distinct(next) && forall n :: n in next <==>
      n in g.edges && n in inDegree && Remaining(Required(g)[n], done) > 0 && inDegree[n] == 0
  }

  /** Midway through a node's successors: each has lost as many as were visited. */
  ghost predicate Lowered(inDegree0: map<Name, nat>, inDegree: map<Name, nat>, visited: seq<Name>) {
    inDegree.Keys == inDegree0.Keys && forall n :: n in inDegree ==> inDegree[n] + Times(visited, n) == inDegree0[n]
  }

  lemma TimesSnoc(visited: seq<Name>, s: Name, n: Name)
    ensures Times(visited + [s], n) == Times(visited, n) + if n == s then 1 else 0
  {
  }

  lemma TimesPrefix(s: seq<Name>, j: nat, n: Name)
    requires j <= |s|
    ensures Times(s[..j], n) <= Times(s, n)
  {
    assert s == s[..j] + s[j..];
  }

  lemma LowerOne(inDegree0: map<Name, nat>, inDegree: map<Name, nat>, visited: seq<Name>, s: Name)
    requires Lowered(inDegree0, inDegree, visited) && s in inDegree && inDegree[s] > 0
    ensures Lowered(inDegree0, inDegree[s := inDegree[s] - 1], visited + [s])
  {
    forall n ensures Times(visited + [s], n) == Times(visited, n) + if n == s then 1 else 0 {
      TimesSnoc(visited, s, n);
    }
  }

  lemma FreeOne(g: Graph, done: set<Name>, inDegree: map<Name, nat>, next: seq<Name>, s: Name)
    requires Freed(g, done, inDegree, next) && s in inDegree && s in g.edges && inDegree[s] > 0
    requires Remaining(Required(g)[s], done) > 0
    ensures Freed(g, done, inDegree[s := inDegree[s] - 1], if inDegree[s] == 1 then next + [s] else next)
  {
    assert s !in next;
  }

  /** Take one finished node off the in-degrees of what depends on it. */
  method Relax(g: Graph, reverse: map<Name, seq<Name>>, node: Name, inDegree0: map<Name, nat>, next0: seq<Name>,
      ghost done: set<Name>)
    returns (inDegree: map<Name, nat>, next: seq<Name>)
    requires Linking(g, reverse) && inDegree0.Keys == g.edges.Keys && Freed(g, done, inDegree0, next0)
    requires forall n :: n in inDegree0 ==> Links(reverse, node, n) <= inDegree0[n] <= Remaining(Required(g)[n], done)
    ensures Lowered(inDegree0, inDegree, Successors(reverse, node)) && Freed(g, done, inDegree, next)
  {
    inDegree, next := inDegree0, next0;
    var succs := Successors(reverse, node);
    assert Lowered(inDegree0, inDegree, []) by {
      assert forall n :: Times([], n) == 0;
    }
    for j := 0 to |succs|
      invariant Lowered(inDegree0, inDegree, succs[..j]) && Freed(g, done, inDegree, next)
    {
      var succ := succs[j];
      assert succs[..j + 1] == succs[..j] + [succ];
      SuccessorCounts(g, reverse, node, succ, j);
      LowerOne(inDegree0, inDegree, succs[..j], succ);
      FreeOne(g, done, inDegree, next, succ);
      inDegree := inDegree[succ := inDegree[succ] - 1];
      if inDegree[succ] == 0 {
        next := next + [succ];
      }
    }
    assert succs[..|succs|] == succs;
  }

  lemma SuccessorCounts(g: Graph, reverse: map<Name, seq<Name>>, node: Name, succ: Name, j: nat)
    requires Linking(g, reverse) && j < |Successors(reverse, node)| && Successors(reverse, node)[j] == succ
    ensures succ in g.edges && Times(Successors(reverse, node)[..j], succ) + 1 <= Links(reverse, node, succ)
  {
    var succs := Successors(reverse, node);
    assert succs[..j + 1] == succs[..j] + [succ];
    TimesSnoc(succs[..j], succ, succ);
    TimesPrefix(succs, j + 1, succ);
    assert Links(reverse, node, succ) == Times(succs, succ) > 0;
  }

  lemma RelaxedDegrees(g: Graph, reverse: map<Name, seq<Name>>, node: Name, done: set<Name>,
      inDegree0: map<Name, nat>, inDegree: map<Name, nat>)
    requires Linking(g, reverse) && node !in done && Degrees(g, done, inDegree0)
    requires Lowered(inDegree0, inDegree, Successors(reverse, node))
    ensures Degrees(g, done + {node}, inDegree)
  {
    forall n | n in inDegree ensures inDegree[n] == Remaining(Required(g)[n], done + {node}) {
      RemainingDrops(Required(g)[n], done, node);
      assert Links(reverse, node, n) == Times(Required(g)[n], node);
    }
  }

  lemma LinksBound(g: Graph, reverse: map<Name, seq<Name>>, node: Name, done0: set<Name>, done: set<Name>,
      inDegree: map<Name, nat>)
    requires Linking(g, reverse) && node !in done && Degrees(g, done, inDegree) && done0 <= done
    ensures forall n :: n in inDegree ==> Links(reverse, node, n) <= inDegree[n] <= Remaining(Required(g)[n], done0)
  {
    forall n | n in inDegree ensures Links(reverse, node, n) <= inDegree[n] <= Remaining(Required(g)[n], done0) {
      RemainingDrops(Required(g)[n], done, node);
      RemainingMonotone(Required(g)[n], done0, done);
      assert Links(reverse, node, n) == Times(Required(g)[n], node);
    }
  }

  lemma {:induction false} RemainingMonotone(targets: seq<Name>, a: set<Name>, b: set<Name>)
    requires a <= b
    ensures Remaining(targets, b) <= Remaining(targets, a)
  {
    if targets != [] {
      RemainingMonotone(targets[1..], a, b);
    }
  }

  /** Take a whole layer off, collecting what it frees. */
  method RelaxLayer(g: Graph, reverse: map<Name, seq<Name>>, current: seq<Name>, inDegree0: map<Name, nat>,
      ghost done: set<Name>)
    returns (inDegree: map<Name, nat>, next: seq<Name>)
    requires Linking(g, reverse) && Degrees(g, done, inDegree0)
    requires Distinct(current) && forall n :: n in current ==> n !in done
    ensures Degrees(g, done + NodeSet(current), inDegree) && Freed(g, done, inDegree, next)
  {
    inDegree, next := inDegree0, [];
    ghost var peeled := done;
    assert Freed(g, done, inDegree, []);
    for i := 0 to |current|
      invariant peeled == done + NodeSet(current[..i])
      invariant Degrees(g, peeled, inDegree) && Freed(g, done, inDegree, next)
    {
      var node := current[i];
      PeelOne(done, current, i);
      LinksBound(g, reverse, node, done, peeled, inDegree);
      ghost var before := inDegree;
      inDegree, next := Relax(g, reverse, node, inDegree, next, done);
      RelaxedDegrees(g, reverse, node, peeled, before, inDegree);
      peeled := peeled + {node};
    }
    assert current[..|current|] == current;
  }

  lemma PeelOne(done: set<Name>, current: seq<Name>, i: nat)
    requires i < |current| && Distinct(current) && forall n :: n in current ==> n !in done
    ensures current[i] !in done + NodeSet(current[..i])
    ensures done + NodeSet(current[..i + 1]) == done + NodeSet(current[..i]) + {current[i]}
  {
    assert current[..i + 1] == current[..i] + [current[i]];
  }

  // ----- layers and levels

  /** The nodes whose longest chain of required dependencies has exactly `k` edges. */
  ghost function AtLevel(g: Graph, k: nat): set<Name> {
    set n | n in g.edges && Level(Required(g), n, k)
  }

  /** The nodes all of whose chains have fewer than `k` edges. */
  ghost function Under(g: Graph, k: nat): set<Name> {
    set n | n in g.edges && !Chain(Required(g), n, k)
  }

  /** A node is under `k + 1` exactly when all it waits for is under `k`. */
  lemma UnderIsWaitingForNone(g: Graph, n: Name, k: nat)
    requires n in g.edges
    ensures Remaining(Required(g)[n], Under(g, k)) == 0 <==> n in Under(g, k + 1)
  {
    RemainingIsZero(Required(g)[n], Under(g, k));
    forall m | m in Required(g)[n] ensures m in g.edges && Edge(Required(g), n, m) {
      TargetsMean(g.edges[n], g.edges.Keys, true, m);
    }
    if n !in Under(g, k + 1) {
      var b :| Edge(Required(g), n, b) && Chain(Required(g), b, k);
    } else {
      forall m | m in Required(g)[n] ensures m in Under(g, k) {
        assert Edge(Required(g), n, m);
      }
    }
  }

  lemma UnderGrows(g: Graph, k: nat)
    ensures Under(g, k + 1) == Under(g, k) + AtLevel(g, k) && Under(g, k) !! AtLevel(g, k)
  {
    forall n | n in Under(g, k) ensures n in Under(g, k + 1) {
      if Chain(Required(g), n, k + 1) {
        ChainShorter(Required(g), n, k, k + 1);
      }
    }
  }

  /** What a layer frees is the next level. */
  lemma FreedIsNextLevel(g: Graph, k: nat, inDegree: map<Name, nat>, next: seq<Name>)
    requires Degrees(g, Under(g, k + 1), inDegree) && Freed(g, Under(g, k), inDegree, next)
    ensures forall n :: n in next <==> n in AtLevel(g, k + 1)
  {
    forall n ensures n in next <==> n in AtLevel(g, k + 1) {
      if n in g.edges {
        UnderIsWaitingForNone(g, n, k);
        UnderIsWaitingForNone(g, n, k + 1);
      }
    }
  }

  /** `sort_by_key` on declaration order: the freed nodes are distinct, so the
      result is the declared nodes among them. */
  method SortByDeclaration(nodes: seq<Name>, next: seq<Name>) returns (sorted: seq<Name>)
    requires Distinct(nodes) && Distinct(next) && forall n :: n in next ==> n in nodes
    ensures sorted == InOrder(nodes, NodeSet(next)) && Distinct(sorted) && |sorted| == |NodeSet(next)|
  {
    sorted := InOrder(nodes, NodeSet(next));
    InOrderDistinct(nodes, NodeSet(next));
    InOrderSize(nodes, NodeSet(next));
  }

  lemma {:induction false} InOrderDistinct(nodes: seq<Name>, chosen: set<Name>)
    requires Distinct(nodes)
    ensures Distinct(InOrder(nodes, chosen))
  {
    if nodes != [] {
      InOrderDistinct(nodes[1..], chosen);
      assert nodes[0] !in nodes[1..];
    }
  }

  lemma {:induction false} InOrderSize(nodes: seq<Name>, chosen: set<Name>)
    requires Distinct(nodes) && forall n :: n in chosen ==> n in nodes
    ensures |InOrder(nodes, chosen)| == |chosen|
  {
    if nodes != [] {
      var first := nodes[0];
      assert nodes == [first] + nodes[1..] && first !in nodes[1..];
      InOrderSize(nodes[1..], chosen - {first});
      InOrderSame(nodes[1..], chosen, chosen - {first});
    }
  }

  lemma {:induction false} InOrderSame(nodes: seq<Name>, a: set<Name>, b: set<Name>)
    requires forall n :: n in nodes ==> (n in a <==> n in b)
    ensures InOrder(nodes, a) == InOrder(nodes, b)
  {
    if nodes != [] {
      InOrderSame(nodes[1..], a, b);
    }
  }

  lemma StartDegrees(g: Graph, inDegree: map<Name, nat>, reverse: map<Name, seq<Name>>)
    requires Counted(g, g.edges.Keys, inDegree, reverse)
    ensures Linking(g, reverse) && Degrees(g, Under(g, 0), inDegree) && Under(g, 0) == {}
  {
    forall n | n in g.edges ensures Remaining(Required(g)[n], {}) == |Required(g)[n]| {
      RemainingOfNone(Required(g)[n]);
    }
    assert Under(g, 0) == {};
  }

  lemma ZeroIsNextUnder(g: Graph, inDegree: map<Name, nat>, k: nat)
    requires Degrees(g, Under(g, k), inDegree)
    ensures (set n | n in inDegree && inDegree[n] == 0) == Under(g, k + 1)
    ensures (set n | n in inDegree && inDegree[n] > 0) == g.edges.Keys - Under(g, k + 1)
  {
    forall n | n in g.edges ensures inDegree[n] == 0 <==> n in Under(g, k + 1) {
      UnderIsWaitingForNone(g, n, k);
    }
  }

  lemma FirstLayer(g: Graph, inDegree: map<Name, nat>)
    requires Degrees(g, Under(g, 0), inDegree) && Under(g, 0) == {}
    ensures (set n | n in inDegree && inDegree[n] == 0) == AtLevel(g, 0)
  {
    ZeroIsNextUnder(g, inDegree, 0);
    UnderGrows(g, 0);
  }

  lemma CurrentIsLevel(g: Graph, k: nat, current: seq<Name>)
    requires Formed(g) && current == InOrder(g.nodes, AtLevel(g, k))
    ensures NodeSet(current) == AtLevel(g, k) && forall n :: n in current ==> n !in Under(g, k)
  {
    UnderGrows(g, k);
    assert forall n | n in AtLevel(g, k) :: n in NodeSet(g.nodes);
  }

  lemma {:induction false} NodeSetSize(nodes: seq<Name>)
    requires Distinct(nodes)
    ensures |NodeSet(nodes)| == |nodes|
  {
    if nodes != [] {
      NodeSetSize(nodes[1..]);
      assert nodes == [nodes[0]] + nodes[1..] && nodes[0] !in nodes[1..];
      assert NodeSet(nodes) == NodeSet(nodes[1..]) + {nodes[0]};
    }
  }

  lemma UnderSize(g: Graph, k: nat)
    requires Formed(g)
    ensures |Under(g, k)| <= |g.nodes|
    ensures |Under(g, k)| == |g.nodes| <==> Under(g, k) == g.edges.Keys
  {
    NodeSetSize(g.nodes);
    CardinalityUpTo(Under(g, k), g.edges.Keys);
    if Under(g, k) != g.edges.Keys {
      SubsetSize(Under(g, k), g.edges.Keys);
    }
  }

  /** Once a level is empty, what is not under it has chains of every length. */
  lemma {:induction false} LastLayer(g: Graph, k: nat, m: nat)
    requires AtLevel(g, k) == {} && k <= m
    ensures Under(g, m) == Under(g, k)
    decreases m
  {
    UnderGrows(g, k);
    if k < m {
      LastLayer(g, k, m - 1);
      forall n | n in g.edges ensures n in Under(g, m) <==> n in Under(g, k + 1) {
        UnderIsWaitingForNone(g, n, m - 1);
        UnderIsWaitingForNone(g, n, k);
      }
    }
  }

  lemma LeftOverMeetCycles(g: Graph, k: nat)
    requires AtLevel(g, k) == {}
    ensures g.edges.Keys - Under(g, k) == set n | n in g.edges && MeetsCycle(Required(g), n)
  {
    forall n | n in g.edges ensures n !in Under(g, k) <==> MeetsCycle(Required(g), n) {
      UnboundedIffMeetsCycle(Required(g), n);
      if n !in Under(g, k) {
        forall m: nat ensures Chain(Required(g), n, m) {
          if k <= m {
            LastLayer(g, k, m);
          } else {
            ChainShorter(Required(g), n, m, k);
          }
        }
      } else {
        assert !Chain(Required(g), n, k);
      }
    }
  }

  lemma AcyclicIffNoneMeetCycles(g: Graph)
    ensures Acyclic(Required(g)) <==> (set n | n in g.edges && MeetsCycle(Required(g), n)) == {}
  {
    var meeting := set n | n in g.edges && MeetsCycle(Required(g), n);
    if !Acyclic(Required(g)) {
      var a :| Reaches(Required(g), a, a);
      var b := FirstStep(Required(g), a, a);
      assert a in meeting;
    }
  }

  /** Each layer is its level, in declaration order, and not empty. */
  ghost predicate AreLevels(g: Graph, layers: seq<seq<Name>>) {
    forall k :: 0 <= k < |layers| ==> layers[k] == InOrder(g.nodes, AtLevel(g, k)) != []
  }

  /** What the peeling loop holds when `k` layers are off: the in-degrees and the current layer. */
  ghost function Peeled(g: Graph, k: nat): (map<Name, nat>, seq<Name>) {
    (map n | n in g.edges :: Remaining(Required(g)[n], Under(g, k)), InOrder(g.nodes, AtLevel(g, k)))
  }

  ghost function LevelsUpTo(g: Graph, k: nat): (layers: seq<seq<Name>>)
    ensures |layers| == k
  {
    if k == 0 then [] else LevelsUpTo(g, k - 1) + [InOrder(g.nodes, AtLevel(g, k - 1))]
  }

  ghost function UnderCount(g: Graph, k: nat): nat {
    |Under(g, k)|
  }

  lemma PeeledIs(g: Graph, k: nat, inDegree: map<Name, nat>, current: seq<Name>)
    ensures (inDegree, current) == Peeled(g, k) <==>
            Degrees(g, Under(g, k), inDegree) && current == InOrder(g.nodes, AtLevel(g, k))
  {
    if Degrees(g, Under(g, k), inDegree) {
      assert inDegree == map n | n in g.edges :: Remaining(Required(g)[n], Under(g, k));
    }
  }

  lemma LayerIsLevel(g: Graph, k: nat, inDegree: map<Name, nat>, current: seq<Name>)
    requires Formed(g) && (inDegree, current) == Peeled(g, k)
    ensures Degrees(g, Under(g, k), inDegree)
    ensures NodeSet(current) == AtLevel(g, k) && Distinct(current) && forall n :: n in current ==> n !in Under(g, k)
    ensures UnderCount(g, k) + |current| == UnderCount(g, k + 1) <= |g.nodes|
  {
    PeeledIs(g, k, inDegree, current);
    UnderGrows(g, k);
    CurrentIsLevel(g, k, current);
    InOrderDistinct(g.nodes, AtLevel(g, k));
    InOrderSize(g.nodes, AtLevel(g, k));
    UnderSize(g, k + 1);
  }

  lemma NextIsLevel(g: Graph, k: nat, inDegree: map<Name, nat>, next: seq<Name>)
    requires Formed(g) && Degrees(g, Under(g, k) + AtLevel(g, k), inDegree) && Freed(g, Under(g, k), inDegree, next)
    ensures NodeSet(next) == AtLevel(g, k + 1) && (inDegree, InOrder(g.nodes, NodeSet(next))) == Peeled(g, k + 1)
    ensures forall n :: n in next ==> n in g.nodes
  {
    UnderGrows(g, k);
    FreedIsNextLevel(g, k, inDegree, next);
    assert NodeSet(next) == AtLevel(g, k + 1);
    PeeledIs(g, k + 1, inDegree, InOrder(g.nodes, NodeSet(next)));
    assert forall n :: n in next ==> n in NodeSet(g.nodes);
  }

  /** Take level `k` off; what it frees, sorted by declaration, is level `k + 1`. */
  method PeelLayer(g: Graph, reverse: map<Name, seq<Name>>, current: seq<Name>, inDegree0: map<Name, nat>, ghost k: nat)
    returns (inDegree: map<Name, nat>, sorted: seq<Name>)
    requires Formed(g) && Linking(g, reverse) && (inDegree0, current) == Peeled(g, k)
    ensures (inDegree, sorted) == Peeled(g, k + 1)
    ensures UnderCount(g, k) + |current| == UnderCount(g, k + 1) <= |g.nodes|
  {
    LayerIsLevel(g, k, inDegree0, current);
    var next;
    inDegree, next := RelaxLayer(g, reverse, current, inDegree0, Under(g, k));
    NextIsLevel(g, k, inDegree, next);
    sorted := SortByDeclaration(g.nodes, next);
  }

  lemma PeelingStarts(g: Graph, inDegree: map<Name, nat>, reverse: map<Name, seq<Name>>)
    requires Counted(g, g.edges.Keys, inDegree, reverse)
    ensures Linking(g, reverse) && UnderCount(g, 0) == 0
    ensures (inDegree, InOrder(g.nodes, set n | n in inDegree && inDegree[n] == 0)) == Peeled(g, 0)
  {
    StartDegrees(g, inDegree, reverse);
    FirstLayer(g, inDegree);
    PeeledIs(g, 0, inDegree, InOrder(g.nodes, AtLevel(g, 0)));
  }

  /** Peeling ends with nothing left exactly on an acyclic graph. */
  lemma EndsOnAcyclic(g: Graph, k: nat)
    requires Formed(g) && AtLevel(g, k) == {}
    ensures UnderCount(g, k) == |g.nodes| <==> Acyclic(Required(g))
    ensures UnderCount(g, k) == |g.nodes| ==> Under(g, k) == g.edges.Keys
  {
    var under, meeting := Under(g, k), set n | n in g.edges && MeetsCycle(Required(g), n);
    UnderSize(g, k);
    LeftOverMeetCycles(g, k);
    AcyclicIffNoneMeetCycles(g);
    AllOrRest(under, g.edges.Keys, meeting);
  }

  lemma AllOrRest(part: set<Name>, all: set<Name>, rest: set<Name>)
    requires part <= all && all - part == rest
    ensures part == all <==> rest == {}
  {
    if rest == {} {
      forall n | n in all ensures n in part {
        assert n !in all - part;
      }
    }
  }

  /** What still waits at the end is what leads into a cycle. */
  lemma WaitingMeetCycles(g: Graph, k: nat, inDegree: map<Name, nat>)
    requires Degrees(g, Under(g, k), inDegree) && AtLevel(g, k) == {}
    ensures (set n | n in inDegree && inDegree[n] > 0) == set n | n in g.edges && MeetsCycle(Required(g), n)
  {
    UnderGrows(g, k);
    ZeroIsNextUnder(g, inDegree, k);
    LeftOverMeetCycles(g, k);
  }

  lemma PeelingEnds(g: Graph, k: nat, inDegree: map<Name, nat>)
    requires Formed(g) && (inDegree, []) == Peeled(g, k)
    ensures UnderCount(g, k) == |g.nodes| <==> Acyclic(Required(g))
    ensures UnderCount(g, k) == |g.nodes| ==> forall n :: n in g.nodes ==> !Chain(Required(g), n, k)
    ensures (set n | n in inDegree && inDegree[n] > 0) == set n | n in g.edges && MeetsCycle(Required(g), n)
  {
    LayerIsLevel(g, k, inDegree, []);
    EndsOnAcyclic(g, k);
    WaitingMeetCycles(g, k, inDegree);
    forall n | n in g.nodes && Under(g, k) == g.edges.Keys ensures !Chain(Required(g), n, k) {
      assert n in NodeSet(g.nodes);
      assert n in Under(g, k);
    }
  }

  /** The layers collected so far are non-empty levels. */
  ghost predicate Collected(g: Graph, layers: seq<seq<Name>>) {
    layers == LevelsUpTo(g, |layers|) && [] !in layers
  }

  lemma NoneCollected(g: Graph)
    ensures Collected(g, [])
  {
  }

  lemma CollectOne(g: Graph, layers: seq<seq<Name>>, inDegree: map<Name, nat>, current: seq<Name>)
    requires Collected(g, layers) && (inDegree, current) == Peeled(g, |layers|) && current != []
    ensures Collected(g, layers + [current])
  {
  }

  lemma {:induction false} LevelsUpToAt(g: Graph, k: nat, j: nat)
    requires j < k
    ensures LevelsUpTo(g, k)[j] == InOrder(g.nodes, AtLevel(g, j))
    decreases k
  {
    if j < k - 1 {
      LevelsUpToAt(g, k - 1, j);
    }
  }

  lemma CollectedAreLevels(g: Graph, layers: seq<seq<Name>>)
    requires Collected(g, layers)
    ensures AreLevels(g, layers)
  {
    forall k | 0 <= k < |layers| ensures layers[k] == InOrder(g.nodes, AtLevel(g, k)) != [] {
      LevelsUpToAt(g, |layers|, k);
      assert layers[k] in layers;
    }
  }

  /** The layered ordering: layer `k` is the nodes of level `k`, in declaration
      order. It fails exactly on a cycle of required dependencies, and then names
      exactly the nodes whose required chain can reach one. */
  method ComputeLayers(g: Graph) returns (result: Result<seq<seq<Name>>, seq<Name>>)
    requires Formed(g)
    ensures result.Ok? <==> Acyclic(Required(g))
    ensures result.Ok? ==> AreLevels(g, result.value)
    ensures result.Ok? ==> forall n :: n in g.nodes ==> !Chain(Required(g), n, |result.value|)
    ensures result.Err? ==> result.error == InOrder(g.nodes, set n | n in g.edges && MeetsCycle(Required(g), n))
  {
    hide Acyclic, AreLevels, Chain, MeetsCycle, Peeled, Linking, UnderCount;
    var inDegree, reverse := Count(g);
    PeelingStarts(g, inDegree, reverse);
    var layers: seq<seq<Name>> := [];
    var current := InOrder(g.nodes, set n | n in inDegree && inDegree[n] == 0);
    var visited := 0;
    ghost var k := 0;
    NoneCollected(g);
    while current != []
      invariant k == |layers| && Collected(g, layers)
      invariant Linking(g, reverse) && (inDegree, current) == Peeled(g, k)
      invariant visited == UnderCount(g, k) <= |g.nodes|
      decreases |g.nodes| - visited
    {
      hide Collected;
      visited := visited + |current|;
      CollectOne(g, layers, inDegree, current);
      layers := layers + [current];
      inDegree, current := PeelLayer(g, reverse, current, inDegree, k);
      k := k + 1;
    }
    PeelingEnds(g, k, inDegree);
    CollectedAreLevels(g, layers);
    if visited != |g.nodes| {
      result := Err(InOrder(g.nodes, set n | n in inDegree && inDegree[n] > 0));
    } else {
      result := Ok(layers);
    }
  }

  /** Nothing depends on what comes after it. */
  ghost predicate DependenciesFirst(g: Graph, order: seq<Name>) {
    forall i, j :: 0 <= i < j < |order| ==> !Edge(Required(g), order[i], order[j])
  }

  ghost predicate AllUnder(g: Graph, order: seq<Name>, k: nat) {
    forall n :: n in order <==> n in Under(g, k)
  }

  lemma LayerFollows(g: Graph, order: seq<Name>, layer: seq<Name>, k: nat)
    requires DependenciesFirst(g, order) && AllUnder(g, order, k) && Distinct(order)
    requires Distinct(layer) && forall n :: n in layer <==> n in AtLevel(g, k)
    ensures DependenciesFirst(g, order + layer) && AllUnder(g, order + layer, k + 1) && Distinct(order + layer)
  {
    var longer := order + layer;
    UnderGrows(g, k);
    assert AllUnder(g, longer, k + 1);
    forall i, j | 0 <= i < j < |longer| && |order| <= j ensures !Edge(Required(g), longer[i], longer[j]) {
      assert longer[i] in longer && longer[j] in layer;
      assert !Chain(Required(g), longer[i], k + 1) && Chain(Required(g), longer[j], k);
    }
    forall i, j | 0 <= i < j < |longer| ensures longer[i] != longer[j] {
      if i < |order| <= j {
        assert longer[i] in Under(g, k) && longer[j] in AtLevel(g, k);
      }
    }
  }

  /** The topological order: every node once, after all its required dependencies. */
  method TopoSort(g: Graph) returns (result: Result<seq<Name>, seq<Name>>)
    requires Formed(g)
    ensures result.Ok? <==> Acyclic(Required(g))
    ensures result.Ok? ==> DependenciesFirst(g, result.value) && Distinct(result.value)
    ensures result.Ok? ==> forall n :: n in result.value <==> n in g.nodes
  {
    var layers := ComputeLayers(g);
    if layers.Err? {
      return Err(layers.error);
    }
    var order: seq<Name> := [];
    for k := 0 to |layers.value|
      invariant DependenciesFirst(g, order) && AllUnder(g, order, k) && Distinct(order)
    {
      CurrentIsLevel(g, k, layers.value[k]);
      InOrderDistinct(g.nodes, AtLevel(g, k));
      assert forall n :: n in layers.value[k] <==> n in NodeSet(layers.value[k]);
      LayerFollows(g, order, layers.value[k], k);
      order := order + layers.value[k];
    }
    assert forall n :: n in g.nodes <==> n in NodeSet(g.nodes);
    result := Ok(order);
  }

  /** A stack that passes the cycle check never makes the layering fail. */
  lemma AcyclicStackHasLayers(g: Graph)
    requires Acyclic(Known(g))
    ensures Acyclic(Required(g))
  {
    forall a ensures !Reaches(Required(g), a, a) {
      if Reaches(Required(g), a, a) {
        forall x, y | Edge(Required(g), x, y) ensures Edge(Known(g), x, y) {
          TargetsMean(g.edges[x], g.edges.Keys, true, y);
          TargetsMean(g.edges[x], g.edges.Keys, false, y);
        }
        SubgraphReaches(Required(g), Known(g), a, a);
      }
    }
  }

  /** The two checks agree: where the validator's search finds no cycle, every node is in some layer. */
  method ValidatedLayers(g: Graph) returns (errors: seq<seq<Name>>, result: Result<seq<seq<Name>>, seq<Name>>)
    requires Formed(g)
    ensures errors == [] ==> result.Ok?
    ensures result.Err? ==> errors != [] && result.error != []
  {
    forall a, b | Edge(Known(g), a, b) ensures b in Known(g) {
      TargetsMean(g.edges[a], g.edges.Keys, false, b);
    }
    assert forall n :: n in g.nodes <==> n in NodeSet(g.nodes);
    errors := CheckNoCycles(Known(g), g.nodes);
    result := ComputeLayers(g);
    if errors == [] {
      AcyclicStackHasLayers(g);
    }
    if result.Err? {
      AcyclicIffNoneMeetCycles(g);
      ghost var n :| n in g.edges && MeetsCycle(Required(g), n);
      assert n in NodeSet(g.nodes);
    }
  }
}
