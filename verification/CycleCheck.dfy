/** The validator's three-colour search for dependency cycles. */
module CycleCheck {
  import opened Names
  import opened Reachability

  datatype Color = White | Gray | Black

  ghost predicate Distinct(s: seq<Name>) {
    forall i, j :: 0 <= i < j < |s| ==> s[i] != s[j]
  }

  /** A closed walk whose nodes before the return to the start are all different. */
  ghost predicate IsCycle(g: Edges, cycle: seq<Name>) {
    && 2 <= |cycle| && cycle[0] == cycle[|cycle| - 1]
    && IsWalk(g, cycle) && Distinct(cycle[..|cycle| - 1])
  }

  function Rotated(s: seq<Name>, k: nat): seq<Name>
    requires k <= |s|
  {
    s[k..] + s[..k]
  }

  ghost predicate AreRotations(a: seq<Name>, b: seq<Name>) {
    exists k :: 0 <= k <= |a| && b == Rotated(a, k)
  }

  /** The first place of the least name. */
  function Least(s: seq<Name>): (i: nat)
    requires s != []
    ensures i < |s| && forall k :: 0 <= k < |s| ==> !Less(s[k], s[i])
  {
    if |s| == 1 then LessTotal(s[0], s[0]); 0
    else
      var i := Least(s[..|s| - 1]);
      var last := |s| - 1;
      LessTotal(s[last], s[i]);
      LessTotal(s[last], s[last]);
      if Less(s[last], s[i]) then LastIsLeast(s, i); last else i
  }

  lemma LastIsLeast(s: seq<Name>, i: nat)
    requires |s| >= 2 && i < |s| - 1 && Less(s[|s| - 1], s[i])
    requires forall k :: 0 <= k < |s| - 1 ==> !Less(s[k], s[i])
    ensures forall k :: 0 <= k < |s| ==> !Less(s[k], s[|s| - 1])
  {
    forall k | 0 <= k < |s| ensures !Less(s[k], s[|s| - 1]) {
      LessTotal(s[k], s[|s| - 1]);
      if k < |s| - 1 && Less(s[k], s[|s| - 1]) {
        LessTransitive(s[k], s[|s| - 1], s[i]);
      }
    }
  }

  function Canonical(body: seq<Name>): seq<Name> {
    if body == [] then [] else Rotated(body, Least(body))
  }

  /** Where the `i`th element of `u + v` is in `v + u`. */
  function Moved(u: seq<Name>, v: seq<Name>, i: nat): nat
    requires i < |u| + |v|
  {
    if i < |u| then |v| + i else i - |u|
  }

  lemma RotatedAlike(u: seq<Name>, v: seq<Name>, i: nat)
    requires i < |u| + |v|
    ensures (v + u)[Moved(u, v, i)] == (u + v)[i]
    ensures Rotated(v + u, Moved(u, v, i)) == Rotated(u + v, i)
  {
    if i < |u| {
      assert Rotated(u + v, i) == u[i..] + v + u[..i];
      assert Rotated(v + u, |v| + i) == u[i..] + v + u[..i];
    } else {
      assert Rotated(u + v, i) == v[i - |u|..] + u + v[..i - |u|];
      assert Rotated(v + u, i - |u|) == v[i - |u|..] + u + v[..i - |u|];
    }
  }

  /** In a sequence without repeats the least name is at one place. */
  lemma LeastIsUnique(s: seq<Name>, i: nat)
    requires Distinct(s) && i < |s| && forall k :: 0 <= k < |s| ==> !Less(s[k], s[i])
    ensures Least(s) == i
  {
    LessTotal(s[i], s[Least(s)]);
  }

  /** Whichever node a cycle is reported from, its canonical form is the same. */
  lemma RotationsShareCanonical(a: seq<Name>, b: seq<Name>)
    requires Distinct(b) && AreRotations(a, b)
    ensures Canonical(a) == Canonical(b)
  {
    if a != [] {
      var k :| 0 <= k <= |a| && b == Rotated(a, k);
      var u, v := a[..k], a[k..];
      assert a == u + v;
      var i := Least(a);
      RotatedAlike(u, v, i);
      forall n | 0 <= n < |b| ensures !Less(b[n], b[Moved(u, v, i)]) {
        RotatedAlike(v, u, n);
      }
      LeastIsUnique(b, Moved(u, v, i));
    }
  }

  function Body(cycle: seq<Name>): seq<Name>
    requires cycle != []
  {
    cycle[..|cycle| - 1]
  }

  lemma CycleReaches(g: Edges, cycle: seq<Name>)
    requires IsCycle(g, cycle)
    ensures Reaches(g, cycle[0], cycle[0])
  {
  }

  function IndexOf(s: seq<Name>, x: Name): (i: nat)
    requires x in s
    ensures i < |s| && s[i] == x
  {
    if s[0] == x then 0 else 1 + IndexOf(s[1..], x)
  }

  /** Only white nodes have changed, and they are black now. */
  ghost predicate Blackened(before: map<Name, Color>, after: map<Name, Color>) {
    && after.Keys == before.Keys
    && forall n :: n in after ==> after[n] == before[n] || (before[n] == White && after[n] == Black)
  }

  lemma BlackenedOn(a: map<Name, Color>, b: map<Name, Color>, c: map<Name, Color>)
    requires Blackened(a, b) && Blackened(b, c)
    ensures Blackened(a, c)
  {
  }

  ghost predicate AllBlack(color: map<Name, Color>, nodes: seq<Name>) {
    forall n :: n in nodes ==> n in color && color[n] == Black
  }

  lemma OneMoreBlack(before: map<Name, Color>, after: map<Name, Color>, nodes: seq<Name>, k: nat)
    requires k < |nodes| && Blackened(before, after) && AllBlack(before, nodes[..k])
    requires nodes[k] in after && after[nodes[k]] == Black
    ensures AllBlack(after, nodes[..k + 1])
  {
    assert nodes[..k + 1] == nodes[..k] + [nodes[k]];
  }

  /** A path that runs into itself closes a cycle. */
  lemma ClosesCycle(g: Edges, path: seq<Name>, start: nat, next: Name)
    requires start < |path| && path[start] == next && Distinct(path) && IsWalk(g, path)
             && Edge(g, path[|path| - 1], next)
    ensures IsCycle(g, path[start..] + [next])
  {
    var cycle := path[start..] + [next];
    assert cycle[..|cycle| - 1] == path[start..];
    forall i | 0 <= i < |cycle| - 1 ensures Edge(g, cycle[i], cycle[i + 1]) {
      if i < |cycle| - 2 {
        assert Edge(g, path[start + i], path[start + i + 1]);
      }
    }
  }

  /** What has been reported: real cycles, no two with the same canonical form. */
  ghost predicate Reports(g: Edges, errors: seq<seq<Name>>, reported: set<seq<Name>>) {
    && (forall i :: 0 <= i < |errors| ==> IsCycle(g, errors[i]) && Canonical(Body(errors[i])) in reported)
    && (forall i, j :: 0 <= i < j < |errors| ==>
          errors[i] != [] && errors[j] != [] && Canonical(Body(errors[i])) != Canonical(Body(errors[j])))
    && (errors == [] ==> reported == {})
  }

  lemma ReportOne(g: Edges, errors: seq<seq<Name>>, reported: set<seq<Name>>, cycle: seq<Name>)
    requires Reports(g, errors, reported) && IsCycle(g, cycle) && Canonical(Body(cycle)) !in reported
    ensures Reports(g, errors + [cycle], reported + {Canonical(Body(cycle))})
  {
  }

  class Search {
    const graph: Edges
    var color: map<Name, Color>
    var path: seq<Name>
    var reported: set<seq<Name>>
    var errors: seq<seq<Name>>

    constructor (graph: Edges)
      requires forall a, b :: Edge(graph, a, b) ==> b in graph
      ensures this.graph == graph && Valid() && errors == [] && path == []
      ensures forall n :: n in graph ==> color[n] == White
    {
      this.graph := graph;
      color := map n | n in graph :: White;
      path, reported, errors := [], {}, [];
    }

    ghost predicate Valid()
      reads this
    {
      && (forall a, b :: Edge(graph, a, b) ==> b in graph)
      && color.Keys == graph.Keys
      && Distinct(path) && (forall n :: n in path <==> n in color && color[n] == Gray)
      && (path == [] || IsWalk(graph, path))
      && Reports(graph, errors, reported)
      && (errors == [] ==> BlackIsDone())
    }

    /** So long as nothing is reported, what is black leads only to black, and never back to itself. */
    ghost predicate BlackIsDone()
      reads this
    {
      && (forall a, b :: a in color && color[a] == Black && Edge(graph, a, b) ==> b in color && color[b] == Black)
      && (forall a :: a in color && color[a] == Black ==> !Reaches(graph, a, a))
    }

    ghost function Whites(): set<Name>
      reads this
    {
      set n | n in color && color[n] == White
    }

    /** Report the cycle that closes at `next`, unless a rotation of it was reported before. */
    method Report(next: Name)
      requires Valid() && next in path && Edge(graph, path[|path| - 1], next)
      modifies this
      ensures Valid() && color == old(color) && path == old(path)
      ensures errors != [] && old(errors) <= errors
    {
      var start := IndexOf(path, next);
      var cycle := path[start..] + [next];
      ClosesCycle(graph, path, start, next);
      var canonical := Canonical(Body(cycle));
      if canonical !in reported {
        ReportOne(graph, errors, reported, cycle);
        reported := reported + {canonical};
        errors := errors + [cycle];
      }
    }

    method Enter(node: Name)
      requires Valid() && node in color && color[node] == White
      requires path != [] ==> Edge(graph, path[|path| - 1], node)
      modifies this
      ensures Valid() && path == old(path) + [node] && color == old(color)[node := Gray] && errors == old(errors)
    {
      color := color[node := Gray];
      path := path + [node];
      assert Distinct(path) && IsWalk(graph, path);
    }

    method Leave(node: Name)
      requires Valid() && path != [] && path[|path| - 1] == node
      requires errors == [] ==> forall b :: Edge(graph, node, b) ==> b in color && color[b] == Black
      modifies this
      ensures Valid() && path == old(path)[..|old(path)| - 1] && color == old(color)[node := Black]
              && errors == old(errors)
    {
      assert color[node] == Gray;
      if errors == [] {
        NodeIsDone(node);
      }
      path := path[..|path| - 1];
      color := color[node := Black];
    }

    method Dfs(node: Name)
      requires Valid() && node in color && color[node] == White
      requires path != [] ==> Edge(graph, path[|path| - 1], node)
      modifies this
      ensures Valid() && path == old(path) && old(errors) <= errors
      ensures color[node] == Black && Blackened(old(color), color)
      decreases Whites(), 0
    {
      Enter(node);
      var neighbors := graph[node];
      ghost var entered := color;
      for k := 0 to |neighbors|
        invariant Valid() && path == old(path) + [node] && old(errors) <= errors && Blackened(entered, color)
        invariant errors == [] ==> AllBlack(color, neighbors[..k])
      {
        ghost var before := color;
        assert Edge(graph, node, neighbors[k]);
        assert node in old(Whites()) && node !in Whites();
        Visit(neighbors[k]);
        BlackenedOn(entered, before, color);
        if errors == [] {
          OneMoreBlack(before, color, neighbors, k);
        }
      }
      assert neighbors[..|neighbors|] == neighbors;
      Leave(node);
      assert path == old(path);
    }

    /** Follow one edge out of the node on top of the path. */
    method Visit(next: Name)
      requires Valid() && path != [] && Edge(graph, path[|path| - 1], next)
      modifies this
      ensures Valid() && path == old(path) && old(errors) <= errors && Blackened(old(color), color)
      ensures errors == [] ==> next in color && color[next] == Black
      decreases Whites(), 1
    {
      match color[next] {
        case White => Dfs(next);
        case Gray => Report(next);
        case Black =>
      }
    }

    lemma DoneIsAcyclic()
      requires Valid() && errors == [] && forall n :: n in graph ==> n in color && color[n] == Black
      ensures Acyclic(graph)
    {
      forall a ensures !Reaches(graph, a, a) {
        if a !in graph && Reaches(graph, a, a) {
          var b := FirstStep(graph, a, a);
        }
      }
    }

    lemma NodeIsDone(node: Name)
      requires Valid() && errors == [] && node in color && color[node] == Gray
      requires forall b :: Edge(graph, node, b) ==> b in color && color[b] == Black
      ensures !Reaches(graph, node, node)
    {
      if Reaches(graph, node, node) {
        var b := FirstStep(graph, node, node);
        if b != node {
          StaysInside(graph, (set n | n in color && color[n] == Black), b, node);
        }
        assert false;
      }
    }
  }

  lemma ReportsDiffer(g: Edges, errors: seq<seq<Name>>, reported: set<seq<Name>>, i: nat, j: nat)
    requires Reports(g, errors, reported) && i < j < |errors|
    ensures !SameCycle(errors[i], errors[j])
  {
    assert IsCycle(g, errors[i]) && IsCycle(g, errors[j]);
    if SameCycle(errors[i], errors[j]) {
      RotationsShareCanonical(Body(errors[i]), Body(errors[j]));
    }
  }

  /** The same cycle, told from different starts. */
  ghost predicate SameCycle(a: seq<Name>, b: seq<Name>) {
    a != [] && b != [] && AreRotations(Body(a), Body(b))
  }

  /** Every error is a real cycle, and none is another from a different start. */
  ghost predicate TrueReports(g: Edges, errors: seq<seq<Name>>) {
    && (forall i :: 0 <= i < |errors| ==> IsCycle(g, errors[i]))
    && (forall i, j :: 0 <= i < j < |errors| ==> !SameCycle(errors[i], errors[j]))
  }

  lemma ReportsAreTrue(g: Edges, errors: seq<seq<Name>>, reported: set<seq<Name>>)
    requires Reports(g, errors, reported)
    ensures TrueReports(g, errors) && (errors != [] ==> !Acyclic(g))
  {
    forall i, j | 0 <= i < j < |errors| ensures !SameCycle(errors[i], errors[j]) {
      ReportsDiffer(g, errors, reported, i, j);
    }
    if errors != [] {
      CycleReaches(g, errors[0]);
    }
  }

  /** The check adds no error exactly when the graph has no cycle; each error is a
      real cycle, and no two errors are the same cycle from different starts. */
  method CheckNoCycles(graph: Edges, order: seq<Name>) returns (errors: seq<seq<Name>>)
    requires forall a, b :: Edge(graph, a, b) ==> b in graph
    requires forall n :: n in order <==> n in graph
    ensures errors == [] <==> Acyclic(graph)
    ensures TrueReports(graph, errors)
  {
    var search := new Search(graph);
    for k := 0 to |order|
      invariant search.graph == graph && search.Valid() && search.path == []
      invariant AllBlack(search.color, order[..k])
    {
      ghost var before := search.color;
      if search.color[order[k]] == White {
        search.Dfs(order[k]);
      }
      OneMoreBlack(before, search.color, order, k);
    }
    assert order[..|order|] == order;
    errors := search.errors;
    ReportsAreTrue(graph, errors, search.reported);
    if errors == [] {
      search.DoneIsAcyclic();
    }
  }
}
