/** The executor object: its methods are the steps of the state machine. */
module Executor {
  import opened Wrappers
  import opened Names
  import opened Reachability
  import opened DependencyGraph
  import opened ExecutorModel
  import opened ExecutorRuns

  // ----- the required closure, collected depth first

  /** The members of `out` that are new since `seen`: their required dependencies are in `out`. */
  ghost predicate ClosedSince(e: Edges, seen: set<Name>, out: set<Name>) {
    forall x, y :: x in out && x !in seen && Edge(e, x, y) ==> y in out
  }

  ghost predicate ReachedSince(e: Edges, seen: set<Name>, out: set<Name>, name: Name) {
    forall x :: x in out && x !in seen ==> x == name || Reaches(e, name, x)
  }

  lemma ReachedThrough(e: Edges, seen: set<Name>, before: set<Name>, out: set<Name>, name: Name, d: Name)
    requires ReachedSince(e, seen, before, name) && ReachedSince(e, before, out, d) && Edge(e, name, d)
    ensures ReachedSince(e, seen, out, name)
  {
    EdgeReaches(e, name, d);
    forall x | x in out && x !in before && x != d ensures Reaches(e, name, x) {
      ReachesTransitive(e, name, d, x);
    }
  }

  /** Adds `name` and everything it requires that is not collected yet. */
  method CollectRequired(g: Graph, name: Name, seen: set<Name>, ghost all: set<Name>) returns (out: set<Name>)
    requires seen <= all && name in all && Universe(Needs(g)) <= all
    ensures seen <= out <= all && name in out
    ensures ClosedSince(Needs(g), seen, out) && ReachedSince(Needs(g), seen, out, name)
    decreases all - seen
  {
    if name in seen {
      return seen;
    }
    out := seen + {name};
    var deps := DependenciesOf(g, name);
    ghost var e := Needs(g);
    for k := 0 to |deps|
      invariant seen + {name} <= out <= all
      invariant ClosedSince(e, seen + {name}, out) && ReachedSince(e, seen, out, name)
      invariant forall j :: 0 <= j < k && deps[j].required ==> deps[j].name in out
    {
      if deps[k].required {
        ghost var before := out;
        NeedsMean(g, name, deps[k].name);
        assert deps[k] == Dependency(deps[k].name, true);
        out := CollectRequired(g, deps[k].name, out, all);
        ReachedThrough(e, seen, before, out, name, deps[k].name);
      }
    }
    forall y | Edge(e, name, y) ensures y in out {
      NeedsMean(g, name, y);
      var j :| 0 <= j < |deps| && deps[j] == Dependency(y, true);
    }
  }

  /** The closure of a start event, one target after the other. */
  method CollectAll(g: Graph, names: seq<Name>) returns (closure: set<Name>)
    ensures closure == Closure(g, names)
  {
    closure := {};
    ghost var e := Needs(g);
    ghost var all := Universe(e) + NodeSet(names);
    for k := 0 to |names|
      invariant closure <= all && ClosedSince(e, {}, closure)
      invariant forall j :: 0 <= j < k ==> names[j] in closure
      invariant forall x :: x in closure ==> InClosure(g, names, x)
    {
      ghost var before := closure;
      closure := CollectRequired(g, names[k], closure, all);
      forall x | x in closure && x !in before ensures InClosure(g, names, x) {
        assert names[k] in names;
      }
    }
    forall x | x in Closure(g, names) ensures x in closure {
      if x !in names {
        var n :| n in names && Reaches(e, n, x);
        StaysInside(e, closure, n, x);
      }
    }
  }

  /** What a node's required dependencies come to, whatever order they are listed in: one that failed decides, and
      else one that is pending; optional ones do not matter. */
  method DepsSatisfied(g: Graph, nodes: map<Name, NodeStatus>, n: Name) returns (outcome: SatisfactionOutcome)
    ensures outcome == DependencyFailed <==>
            exists d :: d in DependenciesOf(g, n) && d.required && StatusOf(nodes, d.name) == Failed
    ensures outcome == Ready <==> DepsReady(g, nodes, n)
  {
    var allRequiredOk, anyFailed := true, false;
    var deps := DependenciesOf(g, n);
    for k := 0 to |deps|
      invariant anyFailed <==> exists j :: 0 <= j < k && deps[j].required && StatusOf(nodes, deps[j].name) == Failed
      invariant allRequiredOk <==>
                forall j :: 0 <= j < k && deps[j].required ==> StatusOf(nodes, deps[j].name) != Pending
    {
      if deps[k].required {
        match StatusOf(nodes, deps[k].name)
        case Satisfied =>
        case Pending => allRequiredOk := false;
        case Failed => anyFailed := true;
      }
    }
    outcome := if anyFailed then DependencyFailed else if allRequiredOk then Ready else Waiting;
  }

  // ----- a pass, node by node

  lemma {:induction false} StartActionsSnoc(g: Graph, s: State, names: seq<Name>, n: Name)
    ensures StartActions(g, s, names + [n]) ==
            StartActions(g, s, names) + if Startable(g, s, n) then [FirstAction(g, n)] else []
  {
    if names == [] {
      assert names + [n] == [n];
    } else {
      assert (names + [n])[1..] == names[1..] + [n];
      StartActionsSnoc(g, s, names[1..], n);
    }
  }

  /** The pass so far: the nodes before position `k` have had their turn. */
  ghost function PassTo(g: Graph, s: State, k: nat): (State, seq<Action>)
    requires k <= |g.nodes|
  {
    (Started(g, s, NodeSet(g.nodes[..k])), StartActions(g, s, g.nodes[..k]))
  }

  lemma PassStep(g: Graph, s: State, k: nat)
    requires Formed(g) && k < |g.nodes|
    ensures var (t, actions) := PassTo(g, s, k);
            var n := g.nodes[k];
            PassTo(g, s, k + 1) ==
            if Startable(g, t, n) then (t.(nodes := t.nodes[n := FirstStatus(g, n)]), actions + [FirstAction(g, n)])
            else (t, actions)
  {
    hide Startable, FirstStatus, FirstAction, StartActions;
    var n, names := g.nodes[k], NodeSet(g.nodes[..k]);
    TakeOne(g.nodes, k);
    StartableLater(g, s, names, n);
    StartActionsSnoc(g, s, g.nodes[..k], n);
    StartedSnoc(g, s, names, n);
    assert StartActions(g, s, g.nodes[..k]) + [] == StartActions(g, s, g.nodes[..k]);
  }

  /** The nodes started so far do not change whether a later one can start. */
  lemma StartableLater(g: Graph, s: State, names: set<Name>, n: Name)
    requires n !in names
    ensures Startable(g, Started(g, s, names), n) <==> Startable(g, s, n)
    ensures Startable(g, s, n) ==> n in g.kinds
  {
    StartingKeepsReady(g, s, names, n);
  }

  lemma StartedSnoc(g: Graph, s: State, names: set<Name>, n: Name)
    ensures Started(g, s, names + {n}).nodes ==
            if Startable(g, s, n) then Started(g, s, names).nodes[n := FirstStatus(g, n)]
              else Started(g, s, names).nodes
  {
  }

  lemma PassDone(g: Graph, s: State)
    ensures PassTo(g, s, 0) == (s, []) && PassTo(g, s, |g.nodes|) == (Advanced(g, s), StartActions(g, s, g.nodes))
  {
    assert g.nodes[..|g.nodes|] == g.nodes;
    assert Started(g, s, NodeSet(g.nodes[..0])).nodes == s.nodes;
  }

  lemma RunOneMore(g: Graph, inputs: seq<Input>, input: Input)
    ensures Run(g, inputs + [input]) == Next(g, Run(g, inputs), input)
  {
    assert (inputs + [input])[..|inputs|] == inputs;
  }

  predicate RunInFlight(nodes: map<Name, NodeStatus>) {
    exists n | n in nodes :: IsInFlight(nodes[n])
  }

  /** The dependency at position `k` is required and unsatisfied, and no listed before it is. */
  predicate HoldsBackFirst(g: Graph, nodes: map<Name, NodeStatus>, n: Name, k: nat, d: Name) {
    var deps := DependenciesOf(g, n);
    && k < |deps| && deps[k] == Dependency(d, true) && StatusOf(nodes, d) != Satisfied
    && forall j | 0 <= j < k && deps[j].required :: StatusOf(nodes, deps[j].name) == Satisfied
  }

  class Executor {
    const graph: Graph
    var nodes: map<Name, NodeStatus>
    var active: Option<set<Name>>
    ghost var history: seq<Input>

    constructor (g: Graph)
      requires Formed(g)
      ensures graph == g && Now() == FRESH && history == [] && Valid()
    {
      graph := g;
      nodes := map[];
      active := None;
      history := [];
    }

    /** The object is where the run of everything it was told has brought it. */
    ghost predicate Valid()
      reads this
    {
      Formed(graph) && Now() == Run(graph, history)
    }

    function Now(): State
      reads this
    {
      State(nodes, active)
    }

    /** One pass: every node that can move is started, in declaration order. */
    method Advance() returns (actions: seq<Action>)
      requires Formed(graph)
      modifies `nodes
      ensures Now() == Advanced(graph, old(Now()))
      ensures actions == StartActions(graph, old(Now()), graph.nodes)
    {
      hide Started, StartActions, Advanced, DepsReady, FirstStatus, FirstAction;
      actions := [];
      ghost var s := Now();
      var names := graph.nodes;
      PassDone(graph, s);
      for k := 0 to |names|
        invariant (Now(), actions) == PassTo(graph, s, k)
      {
        var name := names[k];
        PassStep(graph, s, k);
        if active.Some? && name !in active.value {
          continue;
        }
        if name in nodes {
          continue;
        }
        var outcome := DepsSatisfied(graph, nodes, name);
        if outcome != Ready {
          continue;
        }
        if name in graph.kinds {
          actions := actions + [FirstAction(graph, name)];
          nodes := nodes[name := FirstStatus(graph, name)];
        }
      }
    }

    /** Forgets a node, so that the pass may start it again. */
    method Forget(name: Name) returns (actions: seq<Action>)
      requires Valid()
      modifies this
      ensures Valid() && history == old(history) + [Reset(name)]
      ensures Now() == Next(graph, old(Now()), Reset(name)) && actions == Out(graph, old(Now()), Reset(name))
    {
      hide Run, StartActions, Started, Startable;
      RunOneMore(graph, history, Reset(name));
      history := history + [Reset(name)];
      nodes := nodes - {name};
      actions := Advance();
    }

    method Handle(event: Event) returns (actions: seq<Action>)
      requires Valid()
      modifies this
      ensures Valid() && history == old(history) + [Input.Handle(event)]
      ensures Now() == Next(graph, old(Now()), Input.Handle(event))
      ensures actions == Out(graph, old(Now()), Input.Handle(event))
    {
      hide Run, StartActions, Started, Startable, Closure, InClosure, Forgotten;
      RunOneMore(graph, history, Input.Handle(event));
      history := history + [Input.Handle(event)];
      match event
      case Start =>
        active := Some(set n | n in graph.nodes && n !in graph.sessionScoped);
        actions := Advance();
      case StartTargets(names) =>
        var closure := CollectAll(graph, names);
        active := Some(closure);
        actions := Advance();
      case StartSessionTargets(names) =>
        var closure := CollectAll(graph, names);
        nodes := map n | n in nodes && !Forgotten(graph, closure, nodes, n) :: nodes[n];
        active := Some(closure);
        actions := Advance();
      case StepCheckCompleted(name, passed) =>
        if passed {
          nodes := nodes[name := StepNode(Passed)];
          actions := Advance();
        } else if name in graph.hasProvision {
          nodes := nodes[name := StepNode(Unknown)];
          actions := [RunProvision(name)];
        } else {
          nodes := nodes[name := StepNode(CheckFailed)];
          actions := Advance();
        }
      case UserStop(name) =>
        nodes := nodes[name := ServiceNode(Stopped)];
        actions := [StopService(name)];
      case UserOverride(name) =>
        nodes := nodes[name := StepNode(Overridden)];
        actions := Advance();
      case ServiceExited(name, exitCode) =>
        nodes := nodes[name := ServiceNode(Exited(exitCode))];
        actions := Advance();
      case ServiceCrashLooped(name, restartCount, reason) =>
        nodes := nodes[name := ServiceNode(CrashLoop(restartCount, reason))];
        actions := Advance();
      case ServiceHealthy(name) =>
        nodes := nodes[name := ServiceNode(Running(false, []))];
        actions := Advance();
      case ExternalHealthy(name) =>
        nodes := nodes[name := ServiceNode(External(true))];
        actions := Advance();
      case StepProvisionCompleted(name, passed) =>
        if passed {
          nodes := nodes[name := StepNode(Unknown)];
          actions := [RunCheck(name)];
        } else {
          nodes := nodes[name := StepNode(ProvisionFailed)];
          actions := Advance();
        }
    }

    /** What holds an unreached node back: in a settled state every waiting node has an
        answer while the run is in flight, and the answer is its first unsatisfied requirement. */
    method BlockedBy(name: Name) returns (blocker: Option<Name>)
      ensures blocker.Some? ==>
                && RunInFlight(nodes) && name !in nodes
                && Edge(Needs(graph), name, blocker.value) && StatusOf(nodes, blocker.value) != Satisfied
      ensures RunInFlight(nodes) && Settled(graph, Now()) && IsWaiting(graph, Now(), name) ==> blocker.Some?
      ensures RunInFlight(nodes) && name !in nodes ==>
                (blocker.None? <==> DepsReady(graph, nodes, name))
      ensures blocker.Some? ==> exists k :: HoldsBackFirst(graph, nodes, name, k, blocker.value)
    {
      if name in nodes || !RunInFlight(nodes) {
        return None;
      }
      var deps := DependenciesOf(graph, name);
      for k := 0 to |deps|
        invariant forall j :: 0 <= j < k && deps[j].required ==> StatusOf(nodes, deps[j].name) == Satisfied
      {
        if deps[k].required && StatusOf(nodes, deps[k].name) != Satisfied {
          assert deps[k] == Dependency(deps[k].name, true);
          NeedsMean(graph, name, deps[k].name);
          assert HoldsBackFirst(graph, nodes, name, k, deps[k].name);
          return Some(deps[k].name);
        }
      }
      return None;
    }
  }

  lemma TakeOne(names: seq<Name>, k: nat)
    requires k < |names|
    ensures names[..k + 1] == names[..k] + [names[k]]
    ensures NodeSet(names[..k + 1]) == NodeSet(names[..k]) + {names[k]}
    ensures (forall i, j :: 0 <= i < j < |names| ==> names[i] != names[j]) ==> names[k] !in NodeSet(names[..k])
  {
    assert names[..k + 1] == names[..k] + [names[k]];
  }
}
