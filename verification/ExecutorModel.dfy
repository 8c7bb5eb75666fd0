/** The executor as a state machine on values: what each event and each pass over
    the graph does to the tracked nodes, and what the supervisor is told to do. */
module ExecutorModel {
  import opened Wrappers
  import opened Names
  import opened Reachability
  import opened DependencyGraph

  datatype StepState = Unknown | Passed | CheckFailed | SkippedThisRun | Overridden | ProvisionFailed

  datatype ServiceState =
    | Stopped
    | Starting
    | Running(degraded: bool, startedWithout: seq<Name>)
    | WaitingOnDependency(blockedBy: Name)
    | Restarting(attempt: nat)
    | CrashLoop(restartCount: nat, reason: Option<string>)
    | Exited(exitCode: Option<int>)
    | External(healthy: bool)

  datatype NodeStatus = StepNode(step: StepState) | ServiceNode(service: ServiceState)

  datatype Action =
    | RunCheck(name: Name)
    | RunProvision(name: Name)
    | StartService(name: Name)
    | ProbeExternal(name: Name)
    | StopService(name: Name)

  datatype Event =
    | Start
    | StartTargets(names: seq<Name>)
    | StartSessionTargets(names: seq<Name>)
    | StepCheckCompleted(name: Name, passed: bool)
    | StepProvisionCompleted(name: Name, passed: bool)
    | ServiceHealthy(name: Name)
    | ExternalHealthy(name: Name)
    | ServiceExited(name: Name, exitCode: Option<int>)
    | ServiceCrashLooped(name: Name, restartCount: nat, reason: Option<string>)
    | UserStop(name: Name)
    | UserOverride(name: Name)

  /** What drives the machine: an event, or the supervisor forgetting a node. */
  datatype Input = Handle(event: Event) | Reset(forgotten: Name)

  datatype DepStatus = Satisfied | Pending | Failed

  datatype SatisfactionOutcome = Ready | Waiting | DependencyFailed

  /** The tracked nodes, and the targets of the latest start event, if there was one. */
  datatype State = State(nodes: map<Name, NodeStatus>, active: Option<set<Name>>)

  predicate IsSatisfied(s: StepState) {
    s.Passed? || s.SkippedThisRun? || s.Overridden?
  }

  predicate IsUp(s: ServiceState) {
    s.Running? || s == External(true)
  }

  function StatusOf(nodes: map<Name, NodeStatus>, n: Name): DepStatus {
    if n !in nodes then Pending
    else match nodes[n]
         case StepNode(s) => if IsSatisfied(s) then Satisfied else if s.CheckFailed? || s.ProvisionFailed? then Failed
           else Pending
         case ServiceNode(s) => if IsUp(s) then Satisfied else if s.Exited? || s.CrashLoop? then Failed else Pending
  }

  predicate IsInFlight(status: NodeStatus) {
    match status
    case StepNode(s) => s.Unknown?
    case ServiceNode(s) => s.Starting? || s.Restarting? || s == External(false)
  }

  /** Every required dependency is satisfied. */
  predicate DepsReady(g: Graph, nodes: map<Name, NodeStatus>, n: Name) {
    forall d :: d in DependenciesOf(g, n) && d.required ==> StatusOf(nodes, d.name) == Satisfied
  }

  predicate IsActive(s: State, n: Name) {
    s.active.Some? ==> n in s.active.value
  }

  predicate Startable(g: Graph, s: State, n: Name) {
    IsActive(s, n) && n !in s.nodes && n in g.kinds && DepsReady(g, s.nodes, n)
  }

  /** The first status of a started node. */
  function FirstStatus(g: Graph, n: Name): NodeStatus
    requires n in g.kinds
  {
    match g.kinds[n]
    case Step => StepNode(Unknown)
    case Service => if n in g.external then ServiceNode(External(false)) else ServiceNode(Starting)
  }

  function FirstAction(g: Graph, n: Name): Action
    requires n in g.kinds
  {
    match g.kinds[n]
    case Step => RunCheck(n)
    case Service => if n in g.external then ProbeExternal(n) else StartService(n)
  }

  /** One pass: every startable node among `names` is started, and nothing else moves. */
  function Started(g: Graph, s: State, names: set<Name>): State {
    s.(nodes := s.nodes + map n | n in names && Startable(g, s, n) :: FirstStatus(g, n))
  }

  function StartActions(g: Graph, s: State, names: seq<Name>): seq<Action> {
    if names == [] then []
    else if Startable(g, s, names[0]) then [FirstAction(g, names[0])] + StartActions(g, s, names[1..])
    else StartActions(g, s, names[1..])
  }

  function Advanced(g: Graph, s: State): State {
    Started(g, s, NodeSet(g.nodes))
  }

  /** The required edges, to known and unknown names alike. */
  function RequiredNames(deps: seq<Dependency>): seq<Name> {
    if deps == [] then []
    else if deps[0].required then [deps[0].name] + RequiredNames(deps[1..]) else RequiredNames(deps[1..])
  }

  lemma {:induction false} RequiredNamesMean(deps: seq<Dependency>, n: Name)
    ensures n in RequiredNames(deps) <==> Dependency(n, true) in deps
  {
    if deps != [] {
      RequiredNamesMean(deps[1..], n);
      assert deps == [deps[0]] + deps[1..];
      assert deps[0].required ==> deps[0] == Dependency(deps[0].name, true);
    }
  }

  function Needs(g: Graph): Edges {
    map n | n in g.edges :: RequiredNames(g.edges[n])
  }

  lemma NeedsMean(g: Graph, n: Name, d: Name)
    ensures Edge(Needs(g), n, d) <==> Dependency(d, true) in DependenciesOf(g, n)
  {
    if n in g.edges {
      RequiredNamesMean(g.edges[n], d);
    }
  }

  ghost predicate InClosure(g: Graph, names: seq<Name>, x: Name) {
    x in names || exists n :: n in names && Reaches(Needs(g), n, x)
  }

  /** The names themselves and everything they require, transitively. */
  ghost function Closure(g: Graph, names: seq<Name>): set<Name> {
    set x | x in Universe(Needs(g)) + NodeSet(names) && InClosure(g, names, x)
  }

  predicate SessionOver(status: NodeStatus) {
    status.ServiceNode? && (status.service.Stopped? || status.service.Exited? || status.service.CrashLoop?)
  }

  /** A session start forgets its own services that have ended. */
  predicate Forgotten(g: Graph, closure: set<Name>, nodes: map<Name, NodeStatus>, n: Name) {
    n in nodes && n in closure && n in g.sessionScoped && SessionOver(nodes[n])
  }

  /** What an input changes before any pass over the graph. */
  ghost function Applied(g: Graph, s: State, input: Input): State {
    match input
    case Reset(n) => s.(nodes := s.nodes - {n})
    case Handle(event) =>
      match event
      case Start => s.(active := Some(set n | n in g.nodes && n !in g.sessionScoped))
      case StartTargets(names) => s.(active := Some(Closure(g, names)))
      case StartSessionTargets(names) =>
        State(map n | n in s.nodes
          && !Forgotten(g, Closure(g, names), s.nodes, n) :: s.nodes[n], Some(Closure(g, names)))
      case StepCheckCompleted(n, passed) =>
        s.(nodes := s.nodes[n :=
          StepNode(if passed then Passed else if n in g.hasProvision then Unknown else CheckFailed)])
      case StepProvisionCompleted(n, passed) =>
        s.(nodes := s.nodes[n := StepNode(if passed then Unknown else ProvisionFailed)])
      case ServiceHealthy(n) => s.(nodes := s.nodes[n := ServiceNode(Running(false, []))])
      case ExternalHealthy(n) => s.(nodes := s.nodes[n := ServiceNode(External(true))])
      case ServiceExited(n, code) => s.(nodes := s.nodes[n := ServiceNode(Exited(code))])
      case ServiceCrashLooped(n, count, reason) => s.(nodes := s.nodes[n := ServiceNode(CrashLoop(count, reason))])
      case UserStop(n) => s.(nodes := s.nodes[n := ServiceNode(Stopped)])
      case UserOverride(n) => s.(nodes := s.nodes[n := StepNode(Overridden)])
  }

  /** The inputs that are answered with one fixed action instead of a pass over the graph. */
  function Direct(g: Graph, input: Input): Option<Action> {
    match input
    case Handle(StepCheckCompleted(n, passed)) => if !passed && n in g.hasProvision then Some(RunProvision(n)) else None
    case Handle(StepProvisionCompleted(n, passed)) => if passed then Some(RunCheck(n)) else None
    case Handle(UserStop(n)) => Some(StopService(n))
    case _ => None
  }

  ghost function Next(g: Graph, s: State, input: Input): State {
    if Direct(g, input).Some? then Applied(g, s, input) else Advanced(g, Applied(g, s, input))
  }

  ghost function Out(g: Graph, s: State, input: Input): seq<Action> {
    match Direct(g, input)
    case Some(action) => [action]
    case None => StartActions(g, Applied(g, s, input), g.nodes)
  }

  const FRESH: State := State(map[], None)

  ghost function Run(g: Graph, inputs: seq<Input>): State
    decreases |inputs|
  {
    if inputs == [] then FRESH
    else Next(g, Run(g, inputs[..|inputs| - 1]), inputs[|inputs| - 1])
  }

  // ----- one pass

  lemma {:induction false} StartActionsMean(g: Graph, s: State, names: seq<Name>, a: Action)
    ensures a in StartActions(g, s, names) <==> exists n :: n in names && Startable(g, s, n) && a == FirstAction(g, n)
  {
    if names != [] {
      StartActionsMean(g, s, names[1..], a);
      assert names == [names[0]] + names[1..];
    }
  }

  /** Starting nodes does not change what any node can count on. */
  lemma StartingIsNeutral(g: Graph, s: State, names: set<Name>, n: Name)
    ensures StatusOf(Started(g, s, names).nodes, n) == StatusOf(s.nodes, n)
  {
  }

  lemma StartingKeepsReady(g: Graph, s: State, names: set<Name>, n: Name)
    ensures DepsReady(g, Started(g, s, names).nodes, n) <==> DepsReady(g, s.nodes, n)
  {
    forall m ensures StatusOf(Started(g, s, names).nodes, m) == StatusOf(s.nodes, m) {
      StartingIsNeutral(g, s, names, m);
    }
  }

  /** Nothing is left to start. */
  ghost predicate Settled(g: Graph, s: State) {
    forall n :: n in g.nodes ==> !Startable(g, s, n)
  }

  lemma SettledEmitsNothing(g: Graph, s: State)
    ensures Settled(g, s) <==> StartActions(g, s, g.nodes) == []
  {
    var actions := StartActions(g, s, g.nodes);
    if Settled(g, s) && actions != [] {
      StartActionsMean(g, s, g.nodes, actions[0]);
    }
    forall n | n in g.nodes && Startable(g, s, n) ensures FirstAction(g, n) in actions {
      StartActionsMean(g, s, g.nodes, FirstAction(g, n));
    }
  }

  /** One pass is enough: a second would start nothing. */
  lemma AdvancedIsSettled(g: Graph, s: State)
    ensures Settled(g, Advanced(g, s)) && Advanced(g, Advanced(g, s)) == Advanced(g, s)
  {
    var t := Advanced(g, s);
    forall n | n in g.nodes ensures !Startable(g, t, n) {
      StartingKeepsReady(g, s, NodeSet(g.nodes), n);
    }
    assert Advanced(g, t).nodes == t.nodes;
  }
}
