/** On a validated stack a targeted start is carried to its end, though checks may fail first where a provision can
    mend them: while anything of the required closure is unsatisfied there is an action to answer, every node of
    the closure is started exactly once, and no other node is acted on. */
module ExecutorProgress {
  import opened Wrappers
  import opened Names
  import opened Reachability
  import opened DependencyGraph
  import opened ExecutorModel
  import opened ExecutorRuns
  import opened ExecutorLog
  import opened CycleCheck
  import opened TaskCheck

  /** What the name, target and cycle checks of a stack establish. */
  ghost predicate Validated(g: Graph) {
    Formed(g) && Complete(g) && Acyclic(Known(g))
  }

  /** The checks decide it. */
  method IsValidated(g: Graph) returns (valid: bool)
    requires Formed(g)
    ensures valid <==> Validated(g)
  {
    forall a, b | Edge(Known(g), a, b) ensures b in Known(g) {
      TargetsMean(g.edges[a], g.edges.Keys, false, b);
    }
    assert forall n :: n in g.nodes <==> n in NodeSet(g.nodes);
    var targets := CheckDependencyTargetsExist(g);
    var cycles := CheckNoCycles(Known(g), g.nodes);
    valid := targets == [] && cycles == [];
  }

  lemma ValidatedNeedsAcyclic(g: Graph, n: Name)
    requires Validated(g)
    ensures !MeetsCycle(Needs(g), n)
  {
    forall x, y | Edge(Needs(g), x, y) ensures Edge(Known(g), x, y) {
      NeedsMean(g, x, y);
      TargetsMean(g.edges[x], g.edges.Keys, false, y);
    }
    forall c | Reaches(Needs(g), c, c) ensures false {
      SubgraphReaches(Needs(g), Known(g), c, c);
    }
  }

  // ----- the closure

  /** The nodes a targeted start has to bring up. */
  ghost function Wanted(g: Graph, names: seq<Name>): set<Name> {
    set n | n in g.nodes && n in Closure(g, names)
  }

  lemma ClosureIsClosed(g: Graph, names: seq<Name>, n: Name, d: Name)
    requires n in Closure(g, names) && Edge(Needs(g), n, d)
    ensures d in Closure(g, names)
  {
    EdgeReaches(Needs(g), n, d);
    if m :| m in names && Reaches(Needs(g), m, n) {
      ReachesTransitive(Needs(g), m, n, d);
    }
  }

  lemma {:induction false} ClosureHoldsWalk(g: Graph, names: seq<Name>, w: seq<Name>, k: nat)
    requires IsWalk(Needs(g), w) && w[0] in Closure(g, names) && k < |w|
    ensures w[k] in Closure(g, names)
    decreases k
  {
    if k > 0 {
      ClosureHoldsWalk(g, names, w, k - 1);
      assert Edge(Needs(g), w[k - 1], w[k]);
      ClosureIsClosed(g, names, w[k - 1], w[k]);
    }
  }

  // ----- the answers

  /** The action that a report is the answer to. */
  function Answers(input: Input): Option<Action> {
    match input
    case Handle(StepCheckCompleted(n, _)) => Some(RunCheck(n))
    case Handle(StepProvisionCompleted(n, _)) => Some(RunProvision(n))
    case Handle(ServiceHealthy(n)) => Some(StartService(n))
    case Handle(ExternalHealthy(n)) => Some(ProbeExternal(n))
    case _ => None
  }

  /** Nothing goes wrong for good: a check fails only where a provision can mend it, and provisions succeed. */
  predicate Mendable(g: Graph, input: Input) {
    match input
    case Handle(StepCheckCompleted(n, passed)) => passed || n in g.hasProvision
    case Handle(StepProvisionCompleted(n, passed)) => passed
    case Handle(ServiceHealthy(n)) => true
    case Handle(ExternalHealthy(n)) => true
    case _ => false
  }

  function Replied(inputs: seq<Input>): seq<Action> {
    if inputs == [] then []
    else Replied(inputs[..|inputs| - 1]) +
         match Answers(inputs[|inputs| - 1]) case Some(a) => [a] case None => []
  }

  /** The action has been emitted more often than it was answered. */
  ghost predicate Owed(g: Graph, inputs: seq<Input>, a: Action) {
    multiset(Log(g, inputs))[a] > multiset(Replied(inputs))[a]
  }

  /** A targeted start on a fresh executor, and then answers, each to an action of its kind that was owed one. */
  ghost predicate Answering(g: Graph, names: seq<Name>, inputs: seq<Input>) {
    && inputs != []
    && if |inputs| == 1 then inputs == [Handle(StartTargets(names))]
       else
         var before, last := inputs[..|inputs| - 1], inputs[|inputs| - 1];
         && Answering(g, names, before) && Mendable(g, last)
         && Answers(last).Some? && Owed(g, before, Answers(last).value)
  }

  /** The nodes that were reported up. */
  function Done(inputs: seq<Input>): set<Name> {
    if inputs == [] then {}
    else
      var done := Done(inputs[..|inputs| - 1]);
      match inputs[|inputs| - 1]
      case Handle(StepCheckCompleted(n, true)) => done + {n}
      case Handle(ServiceHealthy(n)) => done + {n}
      case Handle(ExternalHealthy(n)) => done + {n}
      case _ => done
  }

  /** The steps whose provision is being run. */
  function Mending(inputs: seq<Input>): set<Name> {
    if inputs == [] then {}
    else
      var mending := Mending(inputs[..|inputs| - 1]);
      match inputs[|inputs| - 1]
      case Handle(StepCheckCompleted(n, false)) => mending + {n}
      case Handle(StepProvisionCompleted(n, _)) => mending - {n}
      case _ => mending
  }

  predicate IsFailure(input: Input) {
    input.Handle? && input.event.StepCheckCompleted? && !input.event.passed
  }

  function Failures(inputs: seq<Input>): nat {
    if inputs == [] then 0
    else Failures(inputs[..|inputs| - 1]) + if IsFailure(inputs[|inputs| - 1]) then 1 else 0
  }

  // ----- one step

  /** What is owed to the node: nothing before it starts and once it is up, and else one answer of its kind. */
  ghost predicate InBalance(
      g: Graph, s: State, done: set<Name>, mending: set<Name>, log: seq<Action>, answers: seq<Action>, n: Name)
  {
    var open := n in s.nodes && n in g.kinds && n !in done;
    var step, external := n in g.kinds && g.kinds[n] == Step, n in g.external;
    && multiset(log)[RunCheck(n)] ==
       multiset(answers)[RunCheck(n)] + (if open && step && n !in mending then 1 else 0)
    && multiset(log)[RunProvision(n)] == multiset(answers)[RunProvision(n)] + (if n in mending then 1 else 0)
    && multiset(log)[StartService(n)] ==
       multiset(answers)[StartService(n)] + (if open && !step && !external then 1 else 0)
    && multiset(log)[ProbeExternal(n)] ==
       multiset(answers)[ProbeExternal(n)] + (if open && !step && external then 1 else 0)
    && multiset(log)[StopService(n)] == 0
  }

  /** How far the run has come: who is tracked, who is up and what is owed. */
  ghost predicate Sound(g: Graph, names: seq<Name>, done: set<Name>, mending: set<Name>, s: State, log: seq<Action>,
      answers: seq<Action>)
  {
    && s.active == Some(Closure(g, names))
    && done <= s.nodes.Keys <= Wanted(g, names)
    && mending <= s.nodes.Keys - done && (forall n :: n in mending ==> n in g.kinds && g.kinds[n] == Step)
    && (forall n :: StatusOf(s.nodes, n) == Satisfied <==> n in done)
    && (forall n :: InBalance(g, s, done, mending, log, answers, n))
  }

  lemma PassCounts(g: Graph, s: State, n: Name)
    requires Formed(g)
    ensures var starts, actions := n in g.nodes && Startable(g, s, n), multiset(StartActions(g, s, g.nodes));
            && actions[RunCheck(n)] == (if starts && FirstAction(g, n) == RunCheck(n) then 1 else 0)
            && actions[StartService(n)] == (if starts && FirstAction(g, n) == StartService(n) then 1 else 0)
            && actions[ProbeExternal(n)] == (if starts && FirstAction(g, n) == ProbeExternal(n) then 1 else 0)
            && actions[RunProvision(n)] == 0 == actions[StopService(n)]
  {
    hide Startable, Formed;
    if n in g.kinds {
      FormedIsDistinct(g);
      StartCounts(g, s, g.nodes, n);
    }
    forall a | a in {RunCheck(n), StartService(n), ProbeExternal(n), RunProvision(n), StopService(n)}
        && !(exists m :: m in g.kinds && a == FirstAction(g, m))
      ensures multiset(StartActions(g, s, g.nodes))[a] == 0
    {
      PassEmits(g, s, a);
    }
    StartableIsKnown(g, s, n);
  }

  lemma FormedIsDistinct(g: Graph)
    requires Formed(g)
    ensures Distinct(g.nodes)
  {
  }

  lemma StartableIsKnown(g: Graph, s: State, n: Name)
    ensures Startable(g, s, n) ==> n in g.kinds && n !in s.nodes
  {
  }

  lemma JoinCounts(log: seq<Action>, more: seq<Action>, a: Action)
    ensures multiset(log + more)[a] == multiset(log)[a] + multiset(more)[a]
  {
    assert multiset(log + more) == multiset(log) + multiset(more);
  }

  lemma PassBalances(g: Graph, s: State, done: set<Name>, mending: set<Name>, log: seq<Action>, answers: seq<Action>,
      n: Name)
    requires Formed(g) && InBalance(g, s, done, mending, log, answers, n)
    requires done <= s.nodes.Keys && mending <= s.nodes.Keys
    ensures InBalance(g, Advanced(g, s), done, mending, log + StartActions(g, s, g.nodes), answers, n)
  {
    hide Formed, StartActions, Startable;
    var actions := StartActions(g, s, g.nodes);
    PassCounts(g, s, n);
    StartableIsKnown(g, s, n);
    JoinCounts(log, actions, RunCheck(n));
    JoinCounts(log, actions, RunProvision(n));
    JoinCounts(log, actions, StartService(n));
    JoinCounts(log, actions, ProbeExternal(n));
    JoinCounts(log, actions, StopService(n));
    AdvancedTracks(g, s, n);
  }

  lemma AdvancedTracks(g: Graph, s: State, n: Name)
    ensures n in Advanced(g, s).nodes <==> n in s.nodes || (n in g.nodes && Startable(g, s, n))
  {
    hide Startable;
    assert n in NodeSet(g.nodes) <==> n in g.nodes;
  }

  /** A pass starts wanted nodes and logs each of them once. */
  lemma PassKeepsSound(g: Graph, names: seq<Name>, done: set<Name>, mending: set<Name>, s: State, log: seq<Action>,
      answers: seq<Action>)
    requires Formed(g) && Sound(g, names, done, mending, s, log, answers)
    ensures Sound(g, names, done, mending, Advanced(g, s), log + StartActions(g, s, g.nodes), answers)
  {
    hide InBalance, Formed, Closure;
    var t := Advanced(g, s);
    forall n ensures StatusOf(t.nodes, n) == Satisfied <==> n in done {
      StartingIsNeutral(g, s, NodeSet(g.nodes), n);
    }
    forall n ensures InBalance(g, t, done, mending, log + StartActions(g, s, g.nodes), answers, n) {
      PassBalances(g, s, done, mending, log, answers, n);
    }
  }

  function After(input: Input, done: set<Name>, mending: set<Name>): (set<Name>, set<Name>) {
    match input
    case Handle(StepCheckCompleted(n, true)) => (done + {n}, mending)
    case Handle(StepCheckCompleted(n, false)) => (done, mending + {n})
    case Handle(StepProvisionCompleted(n, _)) => (done, mending - {n})
    case Handle(ServiceHealthy(n)) => (done + {n}, mending)
    case Handle(ExternalHealthy(n)) => (done + {n}, mending)
    case _ => (done, mending)
  }

  /** What is answered at once. */
  function AtOnce(g: Graph, input: Input): seq<Action> {
    match Direct(g, input) case Some(a) => [a] case None => []
  }

  lemma OneCounts(log: seq<Action>, b: Action, a: Action)
    ensures multiset(log + [b])[a] == multiset(log)[a] + if a == b then 1 else 0
  {
  }

  /** What an owed answer finds. */
  lemma OwedIsOpen(g: Graph, names: seq<Name>, done: set<Name>, mending: set<Name>, s: State, log: seq<Action>,
      answers: seq<Action>, input: Input)
    requires Sound(g, names, done, mending, s, log, answers) && Answers(input).Some? && Mendable(g, input)
    requires multiset(log)[Answers(input).value] > multiset(answers)[Answers(input).value]
    ensures var n := input.event.name;
            && n in s.nodes && n in g.kinds && n !in done
            && (input.event.StepCheckCompleted? ==> g.kinds[n] == Step && n !in mending)
            && (input.event.StepProvisionCompleted? ==> g.kinds[n] == Step && n in mending)
            && (input.event.ServiceHealthy? ==> g.kinds[n] != Step && n !in g.external)
            && (input.event.ExternalHealthy? ==> g.kinds[n] != Step && n in g.external)
  {
    assert InBalance(g, s, done, mending, log, answers, input.event.name);
  }

  /** What the answer changes of the balance. */
  lemma AnswerCounts(g: Graph, log: seq<Action>, answers: seq<Action>, input: Input, b: Action)
    requires Answers(input).Some?
    ensures multiset(answers + [Answers(input).value])[b] ==
            multiset(answers)[b] + if b == Answers(input).value then 1 else 0
    ensures multiset(log + AtOnce(g, input))[b] == multiset(log)[b] + if Direct(g, input) == Some(b) then 1 else 0
  {
    OneCounts(answers, Answers(input).value, b);
    assert log + [] == log;
    if Direct(g, input).Some? {
      OneCounts(log, Direct(g, input).value, b);
    }
  }

  lemma AnswerBalances(g: Graph, s: State, done: set<Name>, mending: set<Name>, log: seq<Action>,
      answers: seq<Action>, input: Input, m: Name)
    requires InBalance(g, s, done, mending, log, answers, m)
    requires Answers(input).Some? && Mendable(g, input)
    requires var n := input.event.name;
             && n in s.nodes && n in g.kinds && n !in done
             && (input.event.StepCheckCompleted? ==> g.kinds[n] == Step && n !in mending)
             && (input.event.StepProvisionCompleted? ==> g.kinds[n] == Step && n in mending)
             && (input.event.ServiceHealthy? ==> g.kinds[n] != Step && n !in g.external)
             && (input.event.ExternalHealthy? ==> g.kinds[n] != Step && n in g.external)
    requires mending <= s.nodes.Keys - done && Applied(g, s, input).nodes.Keys == s.nodes.Keys
    ensures var (d, f) := After(input, done, mending);
            InBalance(g, Applied(g, s, input), d, f, log + AtOnce(g, input), answers + [Answers(input).value], m)
  {
    hide Applied, AtOnce;
    AnswerCounts(g, log, answers, input, RunCheck(m));
    AnswerCounts(g, log, answers, input, RunProvision(m));
    AnswerCounts(g, log, answers, input, StartService(m));
    AnswerCounts(g, log, answers, input, ProbeExternal(m));
    AnswerCounts(g, log, answers, input, StopService(m));
    assert m in Applied(g, s, input).nodes <==> m in s.nodes;
  }

  /** An answer brings its node up, or hands it from check to provision and back. */
  lemma AnswerKeepsSound(g: Graph, names: seq<Name>, done: set<Name>, mending: set<Name>, s: State, log: seq<Action>,
      answers: seq<Action>, input: Input)
    requires Sound(g, names, done, mending, s, log, answers) && Answers(input).Some? && Mendable(g, input)
    requires multiset(log)[Answers(input).value] > multiset(answers)[Answers(input).value]
    ensures var (d, f) := After(input, done, mending);
            Sound(
              g, names, d, f, Applied(g, s, input), log + AtOnce(g, input), answers + [Answers(input).value])
  {
    hide InBalance, Applied, AtOnce, Closure;
    OwedIsOpen(g, names, done, mending, s, log, answers, input);
    var (d, f) := After(input, done, mending);
    var t := Applied(g, s, input);
    StatusAfter(g, s, done, mending, input);
    forall m ensures InBalance(g, t, d, f, log + AtOnce(g, input), answers + [Answers(input).value], m) {
      AnswerBalances(g, s, done, mending, log, answers, input, m);
    }
  }

  lemma StatusAfter(g: Graph, s: State, done: set<Name>, mending: set<Name>, input: Input)
    requires Answers(input).Some? && Mendable(g, input)
    requires input.event.name in s.nodes && input.event.name !in done
    requires forall n :: StatusOf(s.nodes, n) == Satisfied <==> n in done
    ensures var (d, f) := After(input, done, mending); var t := Applied(g, s, input);
            && t.active == s.active && t.nodes.Keys == s.nodes.Keys
            && forall n :: StatusOf(t.nodes, n) == Satisfied <==> n in d
  {
  }

  // ----- whole runs

  lemma FrontOf(inputs: seq<Input>)
    requires inputs != []
    ensures Done(inputs) ==
            After(inputs[|inputs| - 1], Done(inputs[..|inputs| - 1]), Mending(inputs[..|inputs| - 1])).0
    ensures Mending(inputs) ==
            After(inputs[|inputs| - 1], Done(inputs[..|inputs| - 1]), Mending(inputs[..|inputs| - 1])).1
  {
  }

  lemma RunStep(g: Graph, inputs: seq<Input>)
    requires inputs != []
    ensures var before, last := inputs[..|inputs| - 1], inputs[|inputs| - 1];
            && Run(g, inputs) == Next(g, Run(g, before), last)
            && Log(g, inputs) == Log(g, before) + Out(g, Run(g, before), last)
            && Replied(inputs) ==
               Replied(before) + (match Answers(last) case Some(a) => [a] case None => [])
  {
    hide Next, Out;
  }

  ghost predicate SoundAt(g: Graph, names: seq<Name>, inputs: seq<Input>) {
    Sound(g, names, Done(inputs), Mending(inputs), Run(g, inputs), Log(g, inputs), Replied(inputs))
  }

  lemma FirstPassIsSound(g: Graph, names: seq<Name>)
    requires Formed(g)
    ensures SoundAt(g, names, [Handle(StartTargets(names))])
  {
    hide Formed, Closure, StartActions;
    var start := [Handle(StartTargets(names))];
    var s := Applied(g, FRESH, start[0]);
    assert start[..0] == [];
    RunStep(g, start);
    FrontOf(start);
    NothingOwed(g, s, names);
    PassKeepsSound(g, names, {}, {}, s, [], []);
    assert [] + StartActions(g, s, g.nodes) == StartActions(g, s, g.nodes);
  }

  lemma NothingOwed(g: Graph, s: State, names: seq<Name>)
    requires s == State(map[], Some(Closure(g, names)))
    ensures Sound(g, names, {}, {}, s, [], [])
  {
    hide Closure;
  }

  lemma NextKeepsSound(g: Graph, names: seq<Name>, done: set<Name>, mending: set<Name>, s: State, log: seq<Action>,
      answers: seq<Action>, input: Input)
    requires Formed(g) && Sound(g, names, done, mending, s, log, answers) && Answers(input).Some? && Mendable(g, input)
    requires multiset(log)[Answers(input).value] > multiset(answers)[Answers(input).value]
    ensures var (d, f) := After(input, done, mending);
            Sound(g, names, d, f, Next(g, s, input), log + Out(g, s, input), answers + [Answers(input).value])
  {
    hide Sound, Formed, Applied, Advanced, Answers, Mendable, StartActions;
    var (d, f) := After(input, done, mending);
    var more := answers + [Answers(input).value];
    AnswerKeepsSound(g, names, done, mending, s, log, answers, input);
    if Direct(g, input).None? {
      assert log + [] == log;
      PassKeepsSound(g, names, d, f, Applied(g, s, input), log, more);
    }
  }

  lemma {:induction false} RunIsSound(g: Graph, names: seq<Name>, inputs: seq<Input>)
    requires Formed(g) && Answering(g, names, inputs)
    ensures SoundAt(g, names, inputs)
    decreases |inputs|
  {
    hide Sound, Formed, Next, Out, Mendable, Log, Run, Done, Mending, Replied, Answers, After;
    if |inputs| == 1 {
      FirstPassIsSound(g, names);
    } else {
      var before, last := inputs[..|inputs| - 1], inputs[|inputs| - 1];
      RunIsSound(g, names, before);
      RunStep(g, inputs);
      FrontOf(inputs);
      NextKeepsSound(g, names, Done(before), Mending(before), Run(g, before), Log(g, before), Replied(before), last);
    }
  }

  lemma {:induction false} BeginsWithStart(g: Graph, names: seq<Name>, inputs: seq<Input>)
    requires Answering(g, names, inputs)
    ensures inputs[0] == Handle(StartTargets(names)) && Settled(g, Run(g, inputs))
    decreases |inputs|
  {
    hide Mendable, Owed, Answers, Run, Settled;
    if |inputs| > 1 {
      BeginsWithStart(g, names, inputs[..|inputs| - 1]);
    }
    SettledAfterStart(g, inputs, 0);
  }

  /** Every answer brings a node up, fails a check or mends one. */
  lemma {:induction false} AnswersCount(g: Graph, names: seq<Name>, inputs: seq<Input>)
    requires Formed(g) && Answering(g, names, inputs)
    ensures |inputs| - 1 + |Mending(inputs)| == |Done(inputs)| + 2 * Failures(inputs)
    decreases |inputs|
  {
    hide Sound, Formed, Log, Run, Replied;
    if |inputs| == 1 {
      assert inputs[..0] == [];
    } else {
      var before, last := inputs[..|inputs| - 1], inputs[|inputs| - 1];
      AnswersCount(g, names, before);
      RunIsSound(g, names, before);
      OwedIsOpen(g, names, Done(before), Mending(before), Run(g, before), Log(g, before), Replied(before), last);
    }
  }

  // ----- progress

  /** In a settled state an untracked wanted node waits, directly or not, for a tracked one. */
  lemma SomethingIsTracked(g: Graph, names: seq<Name>, s: State, n: Name) returns (x: Name)
    requires Validated(g) && Settled(g, s) && s.active == Some(Closure(g, names))
    requires n in Wanted(g, names) && n !in s.nodes
    ensures x in s.nodes && x in g.kinds && StatusOf(s.nodes, x) != Satisfied
  {
    assert n in NodeSet(g.nodes);
    ValidatedNeedsAcyclic(g, n);
    var v := WaitingEnds(g, s, [n]);
    var k := |v| - 1;
    x := v[k];
    assert n == [n][0] == v[0];
    ClosureHoldsWalk(g, names, v, k);
    assert 0 < k && Edge(Needs(g), v[k - 1], v[k]);
    NeedsMean(g, v[k - 1], v[k]);
    assert x in NodeSet(g.nodes);
  }

  /** While a wanted node is not up, an answer is owed. */
  lemma SomethingIsOwed(g: Graph, names: seq<Name>, inputs: seq<Input>) returns (a: Action)
    requires Validated(g) && SoundAt(g, names, inputs) && Settled(g, Run(g, inputs))
    requires Done(inputs) != Wanted(g, names)
    ensures Owed(g, inputs, a)
  {
    hide Validated, Settled, Run, Log, Done, Mending, Replied, InBalance, Wanted;
    var s := Run(g, inputs);
    var x :| x in Wanted(g, names) && x !in Done(inputs);
    if x !in s.nodes {
      x := SomethingIsTracked(g, names, s, x);
    }
    WantedIsKnown(g, names, x);
    a := OpenIsOwed(g, s, Done(inputs), Mending(inputs), Log(g, inputs), Replied(inputs), x);
  }

  lemma WantedIsKnown(g: Graph, names: seq<Name>, n: Name)
    requires Validated(g) && n in Wanted(g, names)
    ensures n in g.kinds
  {
    assert n in NodeSet(g.nodes);
  }

  lemma OpenIsOwed(g: Graph, s: State, done: set<Name>, mending: set<Name>, log: seq<Action>, answers: seq<Action>,
      n: Name)
    returns (a: Action)
    requires InBalance(g, s, done, mending, log, answers, n) && n in s.nodes && n in g.kinds && n !in done
    ensures multiset(log)[a] > multiset(answers)[a]
  {
    a := if n in mending then RunProvision(n) else FirstAction(g, n);
  }

  /** Once all wanted nodes are up nothing is owed. */
  lemma NothingIsOwed(g: Graph, names: seq<Name>, inputs: seq<Input>, a: Action)
    requires SoundAt(g, names, inputs) && Done(inputs) == Wanted(g, names)
    ensures !Owed(g, inputs, a) && Mending(inputs) == {}
  {
    hide Run, Log, Done, Mending, Replied, Wanted;
    assert InBalance(g, Run(g, inputs), Done(inputs), Mending(inputs), Log(g, inputs), Replied(inputs), a.name);
  }

  /** Each emitted action is about a wanted node, and is its first, or the next of a step whose check has failed. */
  ghost predicate OnlyWanted(g: Graph, names: seq<Name>, inputs: seq<Input>) {
    forall a :: a in Log(g, inputs) ==>
                  && a.name in Wanted(g, names) && a.name in g.kinds
                  && (a == FirstAction(g, a.name) || a == RunProvision(a.name))
  }

  lemma LogIsWanted(g: Graph, names: seq<Name>, inputs: seq<Input>, a: Action)
    requires Validated(g) && SoundAt(g, names, inputs) && Answering(g, names, inputs) && a in Log(g, inputs)
    ensures a.name in Wanted(g, names) && a.name in g.kinds
    ensures a == FirstAction(g, a.name) || a == RunProvision(a.name)
  {
    hide Run, Log, Done, Mending, Replied, Wanted, InBalance;
    LoggedIsTracked(g, names, inputs, a);
  }

  /** What has been emitted so far was about nodes that are tracked. */
  ghost predicate Tracked(g: Graph, s: State, a: Action) {
    a.name in s.nodes && a.name in g.kinds && (a == FirstAction(g, a.name) || a == RunProvision(a.name))
  }

  lemma {:induction false} LoggedIsTracked(g: Graph, names: seq<Name>, inputs: seq<Input>, a: Action)
    requires Validated(g) && Answering(g, names, inputs) && a in Log(g, inputs)
    ensures Tracked(g, Run(g, inputs), a) && a.name in Wanted(g, names)
    decreases |inputs|
  {
    hide Validated, Sound, Next, Out, Mendable, Log, Run, Done, Mending, Replied, Answers, Wanted;
    var before, last := inputs[..|inputs| - 1], inputs[|inputs| - 1];
    FormedOf(g);
    RunIsSound(g, names, inputs);
    RunStep(g, inputs);
    TrackedIsWanted(g, names, inputs);
    if a in Log(g, before) && |inputs| > 1 {
      LoggedIsTracked(g, names, before, a);
      StaysTracked(g, Run(g, before), last, a.name);
    } else if |inputs| == 1 {
      NothingLogged(g, before);
      FirstIsTracked(g, Run(g, before), last, a);
    } else {
      RunIsSound(g, names, before);
      OwedIsOpen(g, names, Done(before), Mending(before), Run(g, before), Log(g, before), Replied(before), last);
      EmittedIsTracked(g, Run(g, before), last, a);
    }
  }

  lemma FormedOf(g: Graph)
    requires Validated(g)
    ensures Formed(g)
  {
  }

  lemma NothingLogged(g: Graph, inputs: seq<Input>)
    requires inputs == []
    ensures Log(g, inputs) == []
  {
  }

  lemma TrackedIsWanted(g: Graph, names: seq<Name>, inputs: seq<Input>)
    requires SoundAt(g, names, inputs)
    ensures forall n :: n in Run(g, inputs).nodes ==> n in Wanted(g, names)
  {
    hide InBalance, Log, Run, Done, Mending, Replied, Wanted;
  }

  lemma StaysTracked(g: Graph, s: State, input: Input, n: Name)
    requires n in s.nodes && Answers(input).Some?
    ensures n in Next(g, s, input).nodes
  {
  }

  lemma FirstIsTracked(g: Graph, s: State, input: Input, a: Action)
    requires a in Out(g, s, input) && Direct(g, input).None?
    ensures Tracked(g, Next(g, s, input), a)
  {
    var t := Applied(g, s, input);
    StartActionsMean(g, t, g.nodes, a);
    var n :| n in g.nodes && Startable(g, t, n) && a == FirstAction(g, n);
    assert n in NodeSet(g.nodes);
  }

  lemma EmittedIsTracked(g: Graph, s: State, input: Input, a: Action)
    requires a in Out(g, s, input) && Answers(input).Some? && Mendable(g, input)
    requires input.event.name in s.nodes && input.event.name in g.kinds
    requires input.event.StepProvisionCompleted? ==> g.kinds[input.event.name] == Step
    ensures Tracked(g, Next(g, s, input), a)
  {
    if Direct(g, input).None? {
      FirstIsTracked(g, s, input, a);
    }
  }

  /** Each node is started at most once, and each wanted one that is up exactly once. */
  lemma StartedOnce(g: Graph, names: seq<Name>, inputs: seq<Input>, n: Name)
    requires Formed(g) && Answering(g, names, inputs)
    ensures StartCount(g, inputs, n) == if n in Run(g, inputs).nodes && n in g.kinds then 1 else 0
  {
    StartsTrackOnce(g, names, inputs, n);
  }

  lemma {:induction false} StartsTrackOnce(g: Graph, names: seq<Name>, inputs: seq<Input>, n: Name)
    requires Formed(g) && Answering(g, names, inputs)
    ensures StartCount(g, inputs, n) == if n in Run(g, inputs).nodes && n in g.kinds then 1 else 0
    decreases |inputs|
  {
    hide Formed, Mendable, Replied, Log, Sound;
    var before, last := inputs[..|inputs| - 1], inputs[|inputs| - 1];
    RunStep(g, inputs);
    if |inputs| == 1 {
      assert before == [];
      OneStart(g, Run(g, before), last, n);
    } else {
      StartsTrackOnce(g, names, before, n);
      RunIsSound(g, names, before);
      OwedIsOpen(g, names, Done(before), Mending(before), Run(g, before), Log(g, before), Replied(before), last);
      OneStart(g, Run(g, before), last, n);
    }
  }

  /** An input that brings no new name in tracks just what its pass starts. */
  lemma OneStart(g: Graph, s: State, input: Input, n: Name)
    requires input.Handle? && (input.event.StartTargets? || (Answers(input).Some? && input.event.name in s.nodes))
    ensures n in Next(g, s, input).nodes <==>
            n in s.nodes || (n in g.nodes && Direct(g, input).None? && Startable(g, Applied(g, s, input), n))
    ensures n in s.nodes ==> !Startable(g, Applied(g, s, input), n)
  {
    assert n in NodeSet(g.nodes) <==> n in g.nodes;
  }

  /** Executor progress, whatever the order of the answers and however often checks fail that a provision mends: only
      wanted nodes are acted on and each is started at most once; the satisfied nodes are those reported up; while
      some wanted node is not up some action is owed an answer; and after one answer for each wanted node and two for
      each failed check all are up and nothing is owed. */
  lemma StartRunsToCompletion(g: Graph, names: seq<Name>, inputs: seq<Input>)
    requires Validated(g) && Answering(g, names, inputs)
    ensures OnlyWanted(g, names, inputs) && forall n :: StartCount(g, inputs, n) <= 1
    ensures forall n :: StatusOf(Run(g, inputs).nodes, n) == Satisfied <==> n in Done(inputs)
    ensures Done(inputs) <= Wanted(g, names) && |inputs| - 1 <= |Wanted(g, names)| + 2 * Failures(inputs)
    ensures Done(inputs) != Wanted(g, names) ==> exists a :: Owed(g, inputs, a)
    ensures Done(inputs) == Wanted(g, names) ==>
              && (forall a :: !Owed(g, inputs, a)) && |inputs| - 1 == |Wanted(g, names)| + 2 * Failures(inputs)
              && forall n :: n in Wanted(g, names) ==> n in g.kinds && StartCount(g, inputs, n) == 1
  {
    hide Run, Log, Done, Mending, Replied, Wanted, Validated, InBalance, Answering, Settled, Closure;
    FormedOf(g);
    RunIsSound(g, names, inputs);
    BeginsWithStart(g, names, inputs);
    AnswersCount(g, names, inputs);
    CardinalityUpTo(Done(inputs), Wanted(g, names));
    forall a | a in Log(g, inputs)
      ensures a.name in Wanted(g, names) && a.name in g.kinds
      ensures a == FirstAction(g, a.name) || a == RunProvision(a.name)
    {
      LogIsWanted(g, names, inputs, a);
    }
    forall n ensures StartCount(g, inputs, n) == if n in Run(g, inputs).nodes && n in g.kinds then 1 else 0 {
      StartedOnce(g, names, inputs, n);
    }
    if Done(inputs) != Wanted(g, names) {
      var a := SomethingIsOwed(g, names, inputs);
    } else {
      forall a ensures !Owed(g, inputs, a) && Mending(inputs) == {} {
        NothingIsOwed(g, names, inputs, a);
      }
      assert Mending(inputs) == {} by {
        NothingIsOwed(g, names, inputs, RunCheck(""));
      }
      forall n | n in Wanted(g, names) ensures n in g.kinds {
        WantedIsKnown(g, names, n);
      }
    }
  }
}
