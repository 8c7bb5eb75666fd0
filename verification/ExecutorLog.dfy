/** What the executor emits over whole runs, counted against what it was told; which nodes a start brings in; and
    what the reports make of a node. */
module ExecutorLog {
  import opened Wrappers
  import opened Names
  import opened Reachability
  import opened DependencyGraph
  import opened ExecutorModel
  import opened ExecutorRuns
  import opened CycleCheck

  /** Everything emitted over a run. */
  ghost function Log(g: Graph, inputs: seq<Input>): seq<Action>
    decreases |inputs|
  {
    if inputs == [] then [] else Log(g, inputs[..|inputs| - 1]) + Answered(g, inputs)
  }

  /** How often a pass has started the node. */
  ghost function StartCount(g: Graph, inputs: seq<Input>, n: Name): nat
    decreases |inputs|
  {
    if inputs == [] then 0
    else StartCount(g, inputs[..|inputs| - 1], n) + if Starts(g, inputs, n) then 1 else 0
  }

  lemma {:induction false} StartCounts(g: Graph, s: State, names: seq<Name>, n: Name)
    requires Distinct(names) && n in g.kinds
    ensures multiset(StartActions(g, s, names))[FirstAction(g, n)] == if n in names && Startable(g, s, n) then 1 else 0
  {
    if names != [] {
      var rest := names[1..];
      StartCounts(g, s, rest, n);
      assert names == [names[0]] + rest && names[0] !in rest;
      if Startable(g, s, names[0]) {
        var first, others := FirstAction(g, names[0]), StartActions(g, s, rest);
        assert multiset([first] + others) == multiset{first} + multiset(others);
      }
    }
  }

  /** A pass emits nothing but first actions. */
  lemma PassEmits(g: Graph, s: State, a: Action)
    requires !(exists n :: n in g.kinds && a == FirstAction(g, n))
    ensures multiset(StartActions(g, s, g.nodes))[a] == 0
  {
    StartActionsMean(g, s, g.nodes, a);
  }

  lemma LogGrows(g: Graph, inputs: seq<Input>, a: Action)
    requires inputs != []
    ensures multiset(Log(g, inputs))[a] ==
            multiset(Log(g, inputs[..|inputs| - 1]))[a] + multiset(Answered(g, inputs))[a]
  {
    hide Run, Out;
    assert Log(g, inputs) == Log(g, inputs[..|inputs| - 1]) + Answered(g, inputs);
  }

  lemma InputsGrow(inputs: seq<Input>, i: Input)
    requires inputs != []
    ensures multiset(inputs)[i] ==
            multiset(inputs[..|inputs| - 1])[i] + if inputs[|inputs| - 1] == i then 1 else 0
  {
    assert inputs == inputs[..|inputs| - 1] + [inputs[|inputs| - 1]];
  }

  /** An input is answered with its one action, or with first actions of the nodes it lets start. */
  lemma AnswerCounts(g: Graph, inputs: seq<Input>, a: Action)
    requires Formed(g) && inputs != []
    ensures var direct := Direct(g, inputs[|inputs| - 1]);
            && (direct.Some? ==> multiset(Answered(g, inputs))[a] == if a == direct.value then 1 else 0)
            && (direct.None? ==>
                  (forall n :: n in g.kinds && a == FirstAction(g, n) ==>
                     multiset(Answered(g, inputs))[a] == if Starts(g, inputs, n) then 1 else 0)
                  && ((forall n :: n in g.kinds ==> a != FirstAction(g, n)) ==> multiset(Answered(g, inputs))[a] == 0))
  {
    hide Run, Applied, FirstAction, Direct;
    if Direct(g, inputs[|inputs| - 1]).None? {
      forall n | n in g.kinds && a == FirstAction(g, n)
        ensures multiset(Answered(g, inputs))[a] == if Starts(g, inputs, n) then 1 else 0
      {
        PassStarts(g, inputs, n);
      }
      if forall n :: n in g.kinds ==> a != FirstAction(g, n) {
        PassEmits(g, Applied(g, Run(g, inputs[..|inputs| - 1]), inputs[|inputs| - 1]), a);
      }
    }
  }

  lemma PassStarts(g: Graph, inputs: seq<Input>, n: Name)
    requires Formed(g) && inputs != [] && n in g.kinds && Direct(g, inputs[|inputs| - 1]).None?
    ensures multiset(Answered(g, inputs))[FirstAction(g, n)] == if Starts(g, inputs, n) then 1 else 0
  {
    hide Run, Applied;
    StartCounts(g, Applied(g, Run(g, inputs[..|inputs| - 1]), inputs[|inputs| - 1]), g.nodes, n);
  }

  lemma DirectStartsNothing(g: Graph, inputs: seq<Input>, n: Name)
    requires inputs != [] && Starts(g, inputs, n)
    ensures n in g.kinds && Direct(g, inputs[|inputs| - 1]).None?
  {
  }

  /** A provision is run for each failed check of a step that has one, and never otherwise. */
  lemma {:induction false} ProvisionsAreFailedChecks(g: Graph, inputs: seq<Input>, n: Name)
    requires Formed(g)
    ensures multiset(Log(g, inputs))[RunProvision(n)] ==
            if n in g.hasProvision then multiset(inputs)[Handle(StepCheckCompleted(n, false))] else 0
    decreases |inputs|
  {
    hide Run, Applied, Answered, Starts, Formed;
    if inputs != [] {
      ProvisionsAreFailedChecks(g, inputs[..|inputs| - 1], n);
      LogGrows(g, inputs, RunProvision(n));
      InputsGrow(inputs, Handle(StepCheckCompleted(n, false)));
      AnswerCounts(g, inputs, RunProvision(n));
    }
  }

  /** A service is stopped for each time the user asks, and never otherwise. */
  lemma {:induction false} StopsAreAsked(g: Graph, inputs: seq<Input>, n: Name)
    requires Formed(g)
    ensures multiset(Log(g, inputs))[StopService(n)] == multiset(inputs)[Handle(UserStop(n))]
    decreases |inputs|
  {
    hide Run, Applied, Answered, Starts, Formed;
    if inputs != [] {
      StopsAreAsked(g, inputs[..|inputs| - 1], n);
      LogGrows(g, inputs, StopService(n));
      InputsGrow(inputs, Handle(UserStop(n)));
      AnswerCounts(g, inputs, StopService(n));
    }
  }

  lemma ChecksGrow(g: Graph, inputs: seq<Input>, n: Name)
    requires Formed(g) && inputs != []
    ensures multiset(Answered(g, inputs))[RunCheck(n)] ==
            (if n in g.kinds && g.kinds[n] == Step && Starts(g, inputs, n) then 1 else 0)
              + if inputs[|inputs| - 1] == Handle(StepProvisionCompleted(n, true)) then 1 else 0
  {
    hide Run, Applied, Answered, Starts, Formed;
    AnswerCounts(g, inputs, RunCheck(n));
    if Starts(g, inputs, n) {
      DirectStartsNothing(g, inputs, n);
    }
  }

  /** A check is run for each start of a step and for each provision that succeeded, and never otherwise. */
  lemma {:induction false} ChecksAreStartsAndProvisions(g: Graph, inputs: seq<Input>, n: Name)
    requires Formed(g)
    ensures multiset(Log(g, inputs))[RunCheck(n)] ==
            (if n in g.kinds && g.kinds[n] == Step then StartCount(g, inputs, n) else 0)
              + multiset(inputs)[Handle(StepProvisionCompleted(n, true))]
    decreases |inputs|
  {
    hide Run, Answered, Starts, Formed;
    if inputs != [] {
      ChecksAreStartsAndProvisions(g, inputs[..|inputs| - 1], n);
      LogGrows(g, inputs, RunCheck(n));
      InputsGrow(inputs, Handle(StepProvisionCompleted(n, true)));
      ChecksGrow(g, inputs, n);
    }
  }

  lemma SpawnsGrow(g: Graph, inputs: seq<Input>, n: Name)
    requires Formed(g) && inputs != []
    ensures multiset(Answered(g, inputs))[StartService(n)] ==
            if n in g.kinds && g.kinds[n] == Service && n !in g.external && Starts(g, inputs, n) then 1 else 0
    ensures multiset(Answered(g, inputs))[ProbeExternal(n)] ==
            if n in g.kinds && g.kinds[n] == Service && n in g.external && Starts(g, inputs, n) then 1 else 0
  {
    hide Run, Applied, Answered, Starts, Formed;
    AnswerCounts(g, inputs, StartService(n));
    AnswerCounts(g, inputs, ProbeExternal(n));
    if Starts(g, inputs, n) {
      DirectStartsNothing(g, inputs, n);
    }
  }

  /** A service is spawned for each start of it, and an external one probed instead, and never otherwise. */
  lemma {:induction false} SpawnsAreStarts(g: Graph, inputs: seq<Input>, n: Name)
    requires Formed(g)
    ensures multiset(Log(g, inputs))[StartService(n)] ==
            if n in g.kinds && g.kinds[n] == Service && n !in g.external then StartCount(g, inputs, n) else 0
    ensures multiset(Log(g, inputs))[ProbeExternal(n)] ==
            if n in g.kinds && g.kinds[n] == Service && n in g.external then StartCount(g, inputs, n) else 0
    decreases |inputs|
  {
    hide Run, Answered, Starts, Formed;
    if inputs != [] {
      SpawnsAreStarts(g, inputs[..|inputs| - 1], n);
      LogGrows(g, inputs, StartService(n));
      LogGrows(g, inputs, ProbeExternal(n));
      SpawnsGrow(g, inputs, n);
    }
  }

  // ----- which nodes a start brings in

  /** The nodes a start event is about: all that are not bound to a session, or the named ones and what they require. */
  ghost predicate InScope(g: Graph, input: Input, n: Name)
    requires IsStart(input)
  {
    match input.event
    case Start => n !in g.sessionScoped
    case StartTargets(names) => n in names || exists m :: m in names && Reaches(Needs(g), m, n)
    case StartSessionTargets(names) => n in names || exists m :: m in names && Reaches(Needs(g), m, n)
    case _ => true
  }

  lemma ClosureIsScope(g: Graph, names: seq<Name>, n: Name)
    ensures n in Closure(g, names) <==> n in names || exists m :: m in names && Reaches(Needs(g), m, n)
  {
    if m :| m in names && Reaches(Needs(g), m, n) {
      var b := LastStep(Needs(g), m, n);
      assert n in Universe(Needs(g));
    }
  }

  /** The last start event decides who may be started. */
  lemma {:induction false} LastStartDecides(g: Graph, inputs: seq<Input>, k: nat, n: Name)
    requires k < |inputs| && IsStart(inputs[k]) && forall j :: k < j < |inputs| ==> !IsStart(inputs[j])
    requires n in g.nodes
    ensures IsActive(Run(g, inputs), n) <==> InScope(g, inputs[k], n)
    decreases |inputs|
  {
    hide Reaches, Closure;
    var last := |inputs| - 1;
    if k < last {
      LastStartDecides(g, inputs[..last], k, n);
      OnlyStartsActivate(g, Run(g, inputs[..last]), inputs[last]);
    } else {
      StartActivates(g, Run(g, inputs[..last]), inputs[last], n);
    }
  }

  lemma OnlyStartsActivate(g: Graph, s: State, input: Input)
    requires !IsStart(input)
    ensures Next(g, s, input).active == s.active
  {
  }

  lemma StartActivates(g: Graph, s: State, input: Input, n: Name)
    requires IsStart(input) && n in g.nodes
    ensures IsActive(Next(g, s, input), n) <==> InScope(g, input, n)
  {
    match input.event
    case Start =>
    case StartTargets(names) => ClosureIsScope(g, names, n);
    case StartSessionTargets(names) => ClosureIsScope(g, names, n);
    case _ =>
  }

  /** Whoever is started is in the scope of the last start event. */
  lemma StartsAreInScope(g: Graph, inputs: seq<Input>, k: nat, n: Name)
    requires k < |inputs| && IsStart(inputs[k]) && forall j :: k < j < |inputs| ==> !IsStart(inputs[j])
    requires Starts(g, inputs, n)
    ensures InScope(g, inputs[k], n)
  {
    hide InScope;
    LastStartDecides(g, inputs, k, n);
  }

  /** A start event keeps every status there is, except that a session start forgets, of the services in its scope
      that are bound to a session, those stopped, exited or in a crash loop. */
  lemma StartsKeepStatus(g: Graph, s: State, input: Input, n: Name)
    requires IsStart(input)
    ensures Get(Applied(g, s, input).nodes, n) ==
            if input.event.StartSessionTargets? && n in g.sessionScoped && InScope(g, input, n) && n in s.nodes
                 && s.nodes[n].ServiceNode?
                 && (s.nodes[n].service.Stopped? || s.nodes[n].service.Exited? || s.nodes[n].service.CrashLoop?)
            then None else Get(s.nodes, n)
  {
    if input.event.StartSessionTargets? {
      ClosureIsScope(g, input.event.names, n);
    }
  }

  // ----- what the reports make of a node

  /** The report says that the node cannot be counted on. */
  predicate Fails(g: Graph, input: Input, d: Name) {
    || (input == Handle(StepCheckCompleted(d, false)) && d !in g.hasProvision)
    || input == Handle(StepProvisionCompleted(d, false))
    || (input.Handle? && input.event.ServiceExited? && input.event.name == d)
    || (input.Handle? && input.event.ServiceCrashLooped? && input.event.name == d)
  }

  /** The last change to `d` was by an input of this kind. */
  ghost predicate LastBy(g: Graph, inputs: seq<Input>, d: Name, says: Input -> bool) {
    exists k :: 0 <= k < |inputs| && says(inputs[k]) && QuietAfter(g, inputs, k, d)
  }

  lemma FailedStep(g: Graph, s: State, input: Input, d: Name)
    ensures StatusOf(Next(g, s, input).nodes, d) == Failed <==>
            Fails(g, input, d) || (!Changes(g, s, input, d) && StatusOf(s.nodes, d) == Failed)
  {
    StartingIsNeutral(g, Applied(g, s, input), NodeSet(g.nodes), d);
  }

  lemma LastByStep(g: Graph, inputs: seq<Input>, d: Name, says: Input -> bool)
    requires inputs != []
    ensures var last := |inputs| - 1;
            LastBy(g, inputs, d, says) <==>
              says(inputs[last]) || (LastBy(g, inputs[..last], d, says) && !ChangesAt(g, inputs, last, d))
  {
    hide ChangesAt;
    var last := |inputs| - 1;
    if says(inputs[last]) {
      assert QuietAfter(g, inputs, last, d);
    }
    forall k | 0 <= k < last
      ensures QuietAfter(g, inputs, k, d) <==> QuietAfter(g, inputs[..last], k, d) && !ChangesAt(g, inputs, last, d)
    {
      QuietOneMore(g, inputs, k, d);
    }
    assert forall k | 0 <= k < last :: inputs[k] == inputs[..last][k];
  }

  /** A node counts as failed exactly while its last change failed it: a failed check that nothing can provide for, a
      failed provision, an exit or a crash loop. */
  lemma {:induction false} FailedIffFailedLast(g: Graph, inputs: seq<Input>, d: Name)
    ensures StatusOf(Run(g, inputs).nodes, d) == Failed <==> LastBy(g, inputs, d, input => Fails(g, input, d))
    decreases |inputs|
  {
    hide Fails;
    if inputs != [] {
      var last := |inputs| - 1;
      FailedIffFailedLast(g, inputs[..last], d);
      FailedStep(g, Run(g, inputs[..last]), inputs[last], d);
      LastByStep(g, inputs, d, input => Fails(g, input, d));
    }
  }

  /** The report that leaves a node in this status. Nothing reports a skipped step, a service that waits for another
      or one that restarts, and no service runs degraded or without one of its dependencies. */
  predicate Reports(g: Graph, input: Input, d: Name, status: NodeStatus) {
    match status
    case StepNode(Passed) => input == Handle(StepCheckCompleted(d, true))
    case StepNode(CheckFailed) => input == Handle(StepCheckCompleted(d, false)) && d !in g.hasProvision
    case StepNode(ProvisionFailed) => input == Handle(StepProvisionCompleted(d, false))
    case StepNode(Overridden) => input == Handle(UserOverride(d))
    case ServiceNode(Stopped) => input == Handle(UserStop(d))
    case ServiceNode(Running(degraded, without)) => !degraded && without == [] && input == Handle(ServiceHealthy(d))
    case ServiceNode(CrashLoop(count, reason)) => input == Handle(ServiceCrashLooped(d, count, reason))
    case ServiceNode(Exited(code)) => input == Handle(ServiceExited(d, code))
    case ServiceNode(External(healthy)) => healthy && input == Handle(ExternalHealthy(d))
    case _ => false
  }

  /** The status of a node that has been started and of which nothing has been reported yet. */
  predicate IsFresh(status: NodeStatus) {
    status == StepNode(Unknown) || status == ServiceNode(Starting) || status == ServiceNode(External(false))
  }

  lemma PassesReportNothing(g: Graph, s: State, d: Name, status: NodeStatus)
    requires !IsFresh(status)
    ensures Get(Advanced(g, s).nodes, d) == Some(status) <==> Get(s.nodes, d) == Some(status)
  {
  }

  lemma InputsReport(g: Graph, s: State, input: Input, d: Name, status: NodeStatus)
    requires !IsFresh(status)
    ensures Named(input) == Some(d) ==> (Get(Applied(g, s, input).nodes, d) == Some(status) <==>
                                         Reports(g, input, d, status))
    ensures Named(input) != Some(d) ==> !Reports(g, input, d, status)
    ensures Named(input) != Some(d) && Get(Applied(g, s, input).nodes, d) == Some(status) ==>
              Get(s.nodes, d) == Some(status)
  {
    hide Closure, Forgotten;
  }

  lemma ReportStep(g: Graph, s: State, input: Input, d: Name, status: NodeStatus)
    requires !IsFresh(status)
    ensures Get(Next(g, s, input).nodes, d) == Some(status) <==>
            Reports(g, input, d, status) || (!Changes(g, s, input, d) && Get(s.nodes, d) == Some(status))
  {
    hide Applied, Advanced, Reports, Named, IsFresh;
    PassesReportNothing(g, Applied(g, s, input), d, status);
    InputsReport(g, s, input, d, status);
  }

  /** A node has a status other than a fresh one exactly while its last change was the report of that very status. */
  lemma {:induction false} StatusIsLastReport(g: Graph, inputs: seq<Input>, d: Name, status: NodeStatus)
    requires !IsFresh(status)
    ensures Get(Run(g, inputs).nodes, d) == Some(status) <==>
            LastBy(g, inputs, d, input => Reports(g, input, d, status))
    decreases |inputs|
  {
    hide Reports, IsFresh;
    if inputs != [] {
      var last := |inputs| - 1;
      StatusIsLastReport(g, inputs[..last], d, status);
      ReportStep(g, Run(g, inputs[..last]), inputs[last], d, status);
      LastByStep(g, inputs, d, input => Reports(g, input, d, status));
    }
  }

  /** The report ends a service: the user stops it, it exits, or it is taken out of a crash loop. */
  predicate Ends(input: Input, d: Name) {
    input.Handle? && (input.event.UserStop? || input.event.ServiceExited? || input.event.ServiceCrashLooped?)
      && input.event.name == d
  }

  ghost predicate Over(s: State, d: Name) {
    d in s.nodes && SessionOver(s.nodes[d])
  }

  lemma OverStep(g: Graph, s: State, input: Input, d: Name)
    ensures Over(Next(g, s, input), d) <==> Ends(input, d) || (!Changes(g, s, input, d) && Over(s, d))
  {
  }

  /** A service has ended exactly while its last change ended it. */
  lemma {:induction false} OverIffEndedLast(g: Graph, inputs: seq<Input>, d: Name)
    ensures Over(Run(g, inputs), d) <==> LastBy(g, inputs, d, input => Ends(input, d))
    decreases |inputs|
  {
    hide Ends, Over;
    if inputs != [] {
      var last := |inputs| - 1;
      OverIffEndedLast(g, inputs[..last], d);
      OverStep(g, Run(g, inputs[..last]), inputs[last], d);
      LastByStep(g, inputs, d, input => Ends(input, d));
    } else {
      assert !Over(FRESH, d) by {
        NothingOver(d);
      }
    }
  }

  lemma NothingOver(d: Name)
    ensures !Over(FRESH, d)
  {
  }

  /** The input has the node started, or leaves it to a provision or another check. */
  ghost predicate Begins(g: Graph, inputs: seq<Input>, k: nat, d: Name)
    requires k < |inputs|
  {
    || Starts(g, inputs[..k + 1], d)
    || inputs[k] == Handle(StepProvisionCompleted(d, true))
    || (inputs[k] == Handle(StepCheckCompleted(d, false)) && d in g.hasProvision)
  }

  ghost predicate BegunLast(g: Graph, inputs: seq<Input>, d: Name) {
    exists k :: 0 <= k < |inputs| && Begins(g, inputs, k, d) && QuietAfter(g, inputs, k, d)
  }

  ghost predicate Underway(s: State, d: Name) {
    d in s.nodes && IsInFlight(s.nodes[d])
  }

  lemma BeginStep(g: Graph, inputs: seq<Input>, d: Name)
    requires inputs != []
    ensures var last := |inputs| - 1;
            Underway(Run(g, inputs), d) <==>
              Begins(g, inputs, last, d) || (!ChangesAt(g, inputs, last, d) && Underway(Run(g, inputs[..last]), d))
  {
    var last := |inputs| - 1;
    var s, input := Run(g, inputs[..last]), inputs[last];
    assert inputs[..last + 1] == inputs;
    assert Run(g, inputs) == Next(g, s, input);
    hide Run;
    OneBegins(g, s, input, d);
    assert Starts(g, inputs, d) <==>
             d in g.nodes && Direct(g, input).None? && Startable(g, Applied(g, s, input), d);
  }

  lemma OneBegins(g: Graph, s: State, input: Input, d: Name)
    ensures Underway(Next(g, s, input), d) <==>
            || (d in g.nodes && Direct(g, input).None? && Startable(g, Applied(g, s, input), d))
            || input == Handle(StepProvisionCompleted(d, true))
            || (input == Handle(StepCheckCompleted(d, false)) && d in g.hasProvision)
            || (!Changes(g, s, input, d) && Underway(s, d))
  {
  }

  lemma BegunStep(g: Graph, inputs: seq<Input>, d: Name)
    requires inputs != []
    ensures var last := |inputs| - 1;
            BegunLast(g, inputs, d) <==>
              Begins(g, inputs, last, d) || (BegunLast(g, inputs[..last], d) && !ChangesAt(g, inputs, last, d))
  {
    hide ChangesAt, Starts;
    var last := |inputs| - 1;
    if Begins(g, inputs, last, d) {
      assert QuietAfter(g, inputs, last, d);
    }
    forall k | 0 <= k < last
      ensures QuietAfter(g, inputs, k, d) <==> QuietAfter(g, inputs[..last], k, d) && !ChangesAt(g, inputs, last, d)
      ensures Begins(g, inputs, k, d) <==> Begins(g, inputs[..last], k, d)
    {
      QuietOneMore(g, inputs, k, d);
      assert inputs[..last][..k + 1] == inputs[..k + 1] && inputs[..last][k] == inputs[k];
    }
  }

  /** A node is in flight exactly while its last change was a start of it, a provision that succeeded, or a failed
      check that a provision is to mend. */
  lemma {:induction false} InFlightIffBegunLast(g: Graph, inputs: seq<Input>, d: Name)
    ensures Underway(Run(g, inputs), d) <==> BegunLast(g, inputs, d)
    decreases |inputs|
  {
    hide Begins, Underway, ChangesAt, BegunLast;
    if inputs != [] {
      InFlightIffBegunLast(g, inputs[..|inputs| - 1], d);
      BeginStep(g, inputs, d);
      BegunStep(g, inputs, d);
    } else {
      NothingBegun(g, d);
    }
  }

  lemma NothingBegun(g: Graph, d: Name)
    ensures !Underway(Run(g, []), d) && !BegunLast(g, [], d)
  {
  }
}
