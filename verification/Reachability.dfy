/** Walks over the name graphs that the composer, the validator, the layering
    and the executor share, and the worklist search the composer runs on them. */
module Reachability {
  import opened Names

  /** A name graph: each known name and the names it lists as dependencies. */
  type Edges = map<Name, seq<Name>>

  predicate Edge(g: Edges, a: Name, b: Name) {
    a in g && b in g[a]
  }

  predicate IsWalk(g: Edges, w: seq<Name>) {
    1 <= |w| && forall i :: 0 <= i < |w| - 1 ==> Edge(g, w[i], w[i + 1])
  }

  /** `b` is reached from `a` along one or more edges. */
  ghost predicate Reaches(g: Edges, a: Name, b: Name) {
    exists w :: IsWalk(g, w) && 2 <= |w| && w[0] == a && w[|w| - 1] == b
  }

  ghost predicate Acyclic(g: Edges) {
    forall a :: !Reaches(g, a, a)
  }

  lemma EdgeReaches(g: Edges, a: Name, b: Name)
    requires Edge(g, a, b)
    ensures Reaches(g, a, b)
  {
    assert IsWalk(g, [a, b]);
  }

  lemma ReachesTransitive(g: Edges, a: Name, b: Name, c: Name)
    requires Reaches(g, a, b) && Reaches(g, b, c)
    ensures Reaches(g, a, c)
  {
    var v :| IsWalk(g, v) && 2 <= |v| && v[0] == a && v[|v| - 1] == b;
    var w :| IsWalk(g, w) && 2 <= |w| && w[0] == b && w[|w| - 1] == c;
    var u := v + w[1..];
    forall i | 0 <= i < |u| - 1 ensures Edge(g, u[i], u[i + 1]) {
      if i < |v| - 1 {
        assert Edge(g, v[i], v[i + 1]);
      } else {
        assert Edge(g, w[i - |v| + 1], w[i - |v| + 2]);
      }
    }
    assert IsWalk(g, u);
  }

  /** The first edge of a path, and what is left of it. */
  lemma FirstStep(g: Edges, a: Name, c: Name) returns (b: Name)
    requires Reaches(g, a, c)
    ensures Edge(g, a, b) && (b == c || Reaches(g, b, c))
  {
    var w :| IsWalk(g, w) && 2 <= |w| && w[0] == a && w[|w| - 1] == c;
    b := w[1];
    assert Edge(g, w[0], w[1]);
    if b != c {
      forall i | 0 <= i < |w[1..]| - 1 ensures Edge(g, w[1..][i], w[1..][i + 1]) {
        assert Edge(g, w[i + 1], w[i + 2]);
      }
      assert IsWalk(g, w[1..]);
    }
  }

  /** The last edge of a path, and what comes before it. */
  lemma LastStep(g: Edges, a: Name, c: Name) returns (b: Name)
    requires Reaches(g, a, c)
    ensures Edge(g, b, c) && (a == b || Reaches(g, a, b))
  {
    var w :| IsWalk(g, w) && 2 <= |w| && w[0] == a && w[|w| - 1] == c;
    b := w[|w| - 2];
    assert Edge(g, w[|w| - 2], w[|w| - 1]);
    if a != b {
      var v := w[..|w| - 1];
      assert IsWalk(g, v);
    }
  }

  ghost predicate Closed(g: Edges, s: set<Name>) {
    forall x, y :: x in s && Edge(g, x, y) ==> y in s
  }

  /** Nothing leaves a set that is closed under the edges. */
  lemma StaysInside(g: Edges, s: set<Name>, a: Name, b: Name)
    requires Closed(g, s) && a in s && Reaches(g, a, b)
    ensures b in s
  {
    var w :| IsWalk(g, w) && 2 <= |w| && w[0] == a && w[|w| - 1] == b;
    var i := 0;
    while i < |w| - 1
      invariant 0 <= i < |w| && w[i] in s
    {
      assert Edge(g, w[i], w[i + 1]);
      i := i + 1;
    }
  }

  /** The known names below `a`: a measure for recursion along the edges of an acyclic graph. */
  ghost function Below(g: Edges, a: Name): set<Name> {
    set c | c in g.Keys && Reaches(g, a, c)
  }

  lemma BelowShrinks(g: Edges, a: Name, b: Name)
    requires Edge(g, a, b) && b in g && !Reaches(g, b, b)
    ensures Below(g, b) < Below(g, a)
  {
    EdgeReaches(g, a, b);
    forall c | c in Below(g, b) ensures c in Below(g, a) {
      ReachesTransitive(g, a, b, c);
    }
    assert b in Below(g, a) && b !in Below(g, b);
  }

  /** Fewer edges, fewer paths. */
  lemma SubgraphReaches(g: Edges, h: Edges, a: Name, b: Name)
    requires forall x, y :: Edge(g, x, y) ==> Edge(h, x, y)
    requires Reaches(g, a, b)
    ensures Reaches(h, a, b)
  {
    var w :| IsWalk(g, w) && 2 <= |w| && w[0] == a && w[|w| - 1] == b;
    assert IsWalk(h, w);
  }

  function Universe(g: Edges): set<Name> {
    g.Keys + set x, y | x in g && y in g[x] :: y
  }

  /** The worklist of the composer's dependency test: does `feature` depend on
      `dependency`, directly or through other features? */
  method DependsOn(g: Edges, feature: Name, dependency: Name) returns (found: bool)
    ensures found <==> Reaches(g, feature, dependency)
  {
    var pending := [feature];
    var visited: set<Name> := {};
    ghost var all := Universe(g) + {feature};
    while pending != []
      invariant visited <= all && forall x :: x in pending ==> x in all
      invariant feature in visited || feature in pending
      invariant forall x :: x in visited || x in pending ==> x == feature || Reaches(g, feature, x)
      invariant forall x, y :: x in visited && Edge(g, x, y) ==> y != dependency && (y in visited || y in pending)
      decreases all - visited, |pending|
    {
      var name := pending[|pending| - 1];
      ghost var before := pending;
      pending := pending[..|pending| - 1];
      assert forall x :: x in before ==> x in pending || x == name;
      if name in visited {
        continue;
      }
      visited := visited + {name};
      if name !in g {
        continue;
      }
      ghost var rest := pending;
      var parents := g[name];
      for k := 0 to |parents|
        invariant forall x :: x in pending ==> x in all
        invariant forall x :: x in rest ==> x in pending
        invariant forall x :: x in pending ==> x == feature || Reaches(g, feature, x)
        invariant forall j :: 0 <= j < k ==> parents[j] != dependency && parents[j] in pending
      {
        var parent := parents[k];
        assert Edge(g, name, parent);
        EdgeReaches(g, name, parent);
        if name != feature {
          ReachesTransitive(g, feature, name, parent);
        }
        if parent == dependency {
          return true;
        }
        pending := pending + [parent];
      }
    }
    if Reaches(g, feature, dependency) {
      var b := LastStep(g, feature, dependency);
      if b != feature {
        StaysInside(g, visited, feature, b);
      }
      assert false;
    }
    return false;
  }
}
