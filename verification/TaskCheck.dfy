/** The checks of a stack's dependency targets and of its task graph. */
module TaskCheck {
  import opened Names
  import opened Reachability
  import opened CycleCheck
  import opened DependencyGraph

  /** The search keeps the path it is on as an argument, and what it has finished with as a set.
      A task may name dependencies that do not exist; another check reports those. */
  class TaskSearch {
    const tasks: Edges
    var black: set<Name>
    var errors: seq<seq<Name>>

    constructor (tasks: Edges)
      ensures this.tasks == tasks && black == {} && errors == [] && Valid()
    {
      this.tasks := tasks;
      black, errors := {}, [];
    }

    ghost predicate Valid()
      reads this
    {
      && black <= tasks.Keys
      && (forall c :: c in errors ==> IsCycle(tasks, c))
      && (errors == [] ==> Finished(tasks, black))
    }

    method Visit(name: Name, gray: seq<Name>)
      requires Valid() && OnPath(tasks, gray, name) && NodeSet(gray) !! black
      modifies this
      ensures Valid() && old(black) <= black && old(errors) <= errors && NodeSet(gray) !! black
      ensures errors == [] ==> name in black || name !in tasks
      decreases tasks.Keys - NodeSet(gray)
    {
      hide Finished, IsCycle, OnPath, Reaches;
      if name in black {
        return;
      }
      if name in gray {
        var at := IndexOf(gray, name);
        PathCloses(tasks, gray, at, name);
        errors := errors + [gray[at..] + [name]];
        return;
      }
      if name !in tasks {
        return;
      }
      var dependencies := tasks[name];
      PathGrows(tasks, gray, name);
      for k := 0 to |dependencies|
        invariant Valid() && old(black) <= black && old(errors) <= errors
        invariant NodeSet(gray + [name]) !! black
        invariant errors == [] ==> forall j :: 0 <= j < k ==> dependencies[j] in black || dependencies[j] !in tasks
      {
        assert Edge(tasks, name, dependencies[k]);
        Visit(dependencies[k], gray + [name]);
      }
      assert name in NodeSet(gray + [name]) && forall n :: n in NodeSet(gray) ==> n in NodeSet(gray + [name]);
      if errors == [] {
        NewlyFinished(tasks, black, name);
      }
      black := black + {name};
    }
  }

  /** The path is a walk of different known tasks, and it leads to `name`. */
  ghost predicate OnPath(g: Edges, gray: seq<Name>, name: Name) {
    && Distinct(gray) && (forall n :: n in gray ==> n in g)
    && (gray != [] ==> IsWalk(g, gray) && Edge(g, gray[|gray| - 1], name))
  }

  lemma PathCloses(g: Edges, gray: seq<Name>, at: nat, name: Name)
    requires OnPath(g, gray, name) && at < |gray| && gray[at] == name
    ensures IsCycle(g, gray[at..] + [name])
  {
    ClosesCycle(g, gray, at, name);
  }

  lemma PathGrows(g: Edges, gray: seq<Name>, name: Name)
    requires OnPath(g, gray, name) && name !in gray && name in g
    ensures forall d :: Edge(g, name, d) ==> OnPath(g, gray + [name], d)
    ensures g.Keys - NodeSet(gray + [name]) < g.Keys - NodeSet(gray)
  {
    var path := gray + [name];
    forall i | 0 <= i < |path| - 1 ensures Edge(g, path[i], path[i + 1]) {
      assert i < |gray| - 1 ==> Edge(g, gray[i], gray[i + 1]);
    }
    assert name in NodeSet(path) && name !in NodeSet(gray);
    assert forall n :: n in NodeSet(gray) ==> n in NodeSet(path);
  }

  /** What is finished leads only to what is finished or unknown, and never back to itself. */
  ghost predicate Finished(g: Edges, black: set<Name>) {
    && (forall a, b :: a in black && Edge(g, a, b) ==> b in black || b !in g)
    && (forall a :: a in black ==> !Reaches(g, a, a))
  }

  lemma NewlyFinished(g: Edges, black: set<Name>, name: Name)
    requires Finished(g, black) && name in g && name !in black
    requires forall b :: Edge(g, name, b) ==> b in black || b !in g
    ensures Finished(g, black + {name})
  {
    if Reaches(g, name, name) {
      var b := FirstStep(g, name, name);
      var settled := set n | n in Universe(g) && (n in black || n !in g);
      assert b in Universe(g);
      StaysInside(g, settled, b, name);
      assert false;
    }
  }

  /** The task check adds a cycle error exactly if the task graph has a cycle, and reports only real cycles. */
  method CheckTaskCycles(tasks: Edges, order: seq<Name>) returns (errors: seq<seq<Name>>)
    requires forall n :: n in order <==> n in tasks
    ensures errors == [] <==> Acyclic(tasks)
    ensures forall c :: c in errors ==> IsCycle(tasks, c)
  {
    var search := new TaskSearch(tasks);
    for k := 0 to |order|
      invariant search.tasks == tasks && search.Valid()
      invariant search.errors == [] ==> forall j :: 0 <= j < k ==> order[j] in search.black
    {
      search.Visit(order[k], []);
    }
    errors := search.errors;
    if errors == [] {
      forall a ensures !Reaches(tasks, a, a) {
        if a !in tasks && Reaches(tasks, a, a) {
          var b := FirstStep(tasks, a, a);
        }
      }
    } else {
      CycleReaches(tasks, errors[0]);
    }
  }

  /** Everything a task depends on, directly or not. */
  method TaskDependencyClosure(tasks: Edges, name: Name) returns (seen: set<Name>)
    ensures forall x :: x in seen <==> Reaches(tasks, name, x)
  {
    var pending := if name in tasks then tasks[name] else [];
    seen := {};
    ghost var all := Universe(tasks);
    forall x | x in pending ensures Reaches(tasks, name, x) {
      EdgeReaches(tasks, name, x);
    }
    while pending != []
      invariant seen <= all && forall x :: x in pending ==> x in all
      invariant forall x :: x in seen || x in pending ==> Reaches(tasks, name, x)
      invariant forall y :: Edge(tasks, name, y) ==> y in seen || y in pending
      invariant forall x, y :: x in seen && Edge(tasks, x, y) ==> y in seen || y in pending
      decreases all - seen, |pending|
    {
      ghost var before := pending;
      var next := pending[|pending| - 1];
      pending := pending[..|pending| - 1];
      assert forall x :: x in before ==> x in pending || x == next;
      if next in seen {
        continue;
      }
      seen := seen + {next};
      if next in tasks {
        forall x | x in tasks[next] ensures Reaches(tasks, name, x) {
          EdgeReaches(tasks, next, x);
          ReachesTransitive(tasks, name, next, x);
        }
        pending := pending + tasks[next];
      }
    }
    forall x | Reaches(tasks, name, x) ensures x in seen {
      var b := FirstStep(tasks, name, x);
      if b != x {
        StaysInside(tasks, seen, b, x);
      }
    }
  }

  // ----- the targets of dependencies

  /** The unknown targets among a node's dependencies, in order. */
  function Unknown(from: Name, dependencies: seq<Dependency>, known: set<Name>): seq<(Name, Name)> {
    if dependencies == [] then []
    else
      var last := dependencies[|dependencies| - 1];
      Unknown(from, dependencies[..|dependencies| - 1], known) + if last.name in known then [] else [(from, last.name)]
  }

  lemma {:induction false} UnknownMeans(from: Name, dependencies: seq<Dependency>, known: set<Name>)
    ensures forall e :: e in Unknown(from, dependencies, known) <==>
                          e.0 == from && e.1 !in known && exists d :: d in dependencies && d.name == e.1
  {
    if dependencies != [] {
      var front, last := dependencies[..|dependencies| - 1], dependencies[|dependencies| - 1];
      assert dependencies == front + [last];
      UnknownMeans(from, front, known);
      forall e: (Name, Name)
        ensures e in Unknown(from, dependencies, known) <==>
                e in Unknown(from, front, known) || (e == (from, last.name) && last.name !in known)
      {
      }
    }
  }

  /** `from` lists a target that is not known. */
  ghost predicate Missing(g: Graph, from: Name, to: Name) {
    to !in g.edges && exists d :: d in DependenciesOf(g, from) && d.name == to
  }

  /** The errors so far are the unknown targets of the nodes so far. */
  ghost predicate TargetsTo(g: Graph, k: nat, errors: seq<(Name, Name)>)
    requires k <= |g.nodes|
  {
    forall e :: e in errors <==> e.0 in g.nodes[..k] && Missing(g, e.0, e.1)
  }

  lemma TargetsOneMore(g: Graph, k: nat, errors: seq<(Name, Name)>)
    requires Formed(g) && k < |g.nodes| && TargetsTo(g, k, errors)
    ensures TargetsTo(g, k + 1, errors + Unknown(g.nodes[k], DependenciesOf(g, g.nodes[k]), g.edges.Keys))
  {
    hide Unknown, Formed;
    var from := g.nodes[k];
    var more := Unknown(from, DependenciesOf(g, from), g.edges.Keys);
    UnknownMeans(from, DependenciesOf(g, from), g.edges.Keys);
    assert g.nodes[..k + 1] == g.nodes[..k] + [from];
    forall e: (Name, Name) ensures e in more <==> e.0 == from && Missing(g, e.0, e.1) {
      assert e == (e.0, e.1);
    }
  }

  /** The check reports exactly the unknown targets of each node, and so nothing exactly if every target exists. */
  method CheckDependencyTargetsExist(g: Graph) returns (errors: seq<(Name, Name)>)
    requires Formed(g)
    ensures forall e :: e in errors <==> e.0 in g.nodes && Missing(g, e.0, e.1)
    ensures errors == [] <==> Complete(g)
  {
    errors := [];
    for k := 0 to |g.nodes|
      invariant TargetsTo(g, k, errors)
    {
      TargetsOneMore(g, k, errors);
      errors := errors + Unknown(g.nodes[k], DependenciesOf(g, g.nodes[k]), g.edges.Keys);
    }
    assert g.nodes[..|g.nodes|] == g.nodes;
    CompleteMeans(g, errors);
  }

  lemma CompleteMeans(g: Graph, errors: seq<(Name, Name)>)
    requires Formed(g) && forall e :: e in errors <==> e.0 in g.nodes && Missing(g, e.0, e.1)
    ensures errors == [] <==> Complete(g)
  {
    assert forall n :: n in g.nodes <==> n in NodeSet(g.nodes);
    if errors != [] {
      assert errors[0] in errors;
    } else {
      forall n, d | n in g.edges && d in g.edges[n] ensures d.name in g.edges {
        assert (n, d.name) !in errors;
      }
    }
  }
}
