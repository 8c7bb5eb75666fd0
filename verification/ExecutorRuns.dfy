/** Whole runs of the executor: nothing waits without a cause, nothing starts on a
    dependency that was not confirmed last, nothing starts twice, and on a
    validated stack a start is answered to the end. */
module ExecutorRuns {
  import opened Wrappers
  import opened Names
  import opened Reachability
  import opened DependencyGraph
  import opened ExecutorModel

  // ----- nothing waits on nothing

  /** The inputs that are answered directly start nothing and make nothing startable. */
  lemma DirectKeepsSettled(g: Graph, s: State, input: Input)
    requires Settled(g, s) && Direct(g, input).Some?
    ensures Settled(g, Next(g, s, input))
  {
    var t := Next(g, s, input);
    forall m ensures StatusOf(t.nodes, m) == Satisfied ==> StatusOf(s.nodes, m) == Satisfied {
    }
    forall n | n in g.nodes ensures !Startable(g, t, n) {
      if Startable(g, t, n) {
        assert DepsReady(g, s.nodes, n);
        assert Startable(g, s, n);
      }
    }
  }

  lemma NextIsSettled(g: Graph, s: State, input: Input)
    requires Direct(g, input).Some? ==> Settled(g, s)
    ensures Settled(g, Next(g, s, input))
  {
    if Direct(g, input).Some? {
      DirectKeepsSettled(g, s, input);
    } else {
      AdvancedIsSettled(g, Applied(g, s, input));
    }
  }

  predicate IsStart(input: Input) {
    input.Handle? && (input.event.Start? || input.event.StartTargets? || input.event.StartSessionTargets?)
  }

  /** From the first start event on, a further pass would emit nothing, whatever happens. */
  lemma {:induction false} SettledAfterStart(g: Graph, inputs: seq<Input>, i: nat)
    requires i < |inputs| && IsStart(inputs[i])
    ensures Settled(g, Run(g, inputs)) && StartActions(g, Run(g, inputs), g.nodes) == []
    ensures Advanced(g, Run(g, inputs)) == Run(g, inputs)
    decreases |inputs|
  {
    var last := |inputs| - 1;
    if i < last {
      SettledAfterStart(g, inputs[..last], i);
    }
    NextIsSettled(g, Run(g, inputs[..last]), inputs[last]);
    SettledEmitsNothing(g, Run(g, inputs));
    assert Advanced(g, Run(g, inputs)).nodes == Run(g, inputs).nodes;
  }

  /** A node that could be started as soon as what it requires is satisfied. */
  predicate IsWaiting(g: Graph, s: State, n: Name) {
    n in g.nodes && n in g.kinds && n !in s.nodes && IsActive(s, n)
  }

  /** A walk along unsatisfied required dependencies of waiting nodes. */
  ghost predicate WaitsAlong(g: Graph, s: State, w: seq<Name>) {
    && IsWalk(Needs(g), w)
    && (forall i :: 0 <= i < |w| - 1 ==> IsWaiting(g, s, w[i]))
    && (forall i :: 0 < i < |w| ==> StatusOf(s.nodes, w[i]) != Satisfied)
  }

  /** In a settled state a waiting node has an unsatisfied required dependency. */
  lemma WaitingHasCause(g: Graph, s: State, n: Name) returns (d: Name)
    requires Settled(g, s) && IsWaiting(g, s, n)
    ensures Edge(Needs(g), n, d) && StatusOf(s.nodes, d) != Satisfied
  {
    assert !Startable(g, s, n);
    var dep :| dep in DependenciesOf(g, n) && dep.required && StatusOf(s.nodes, dep.name) != Satisfied;
    d := dep.name;
    assert dep == Dependency(d, true);
    NeedsMean(g, n, d);
  }

  /** Away from cycles such a walk is short. */
  lemma WaitingIsShort(g: Graph, s: State, w: seq<Name>)
    requires WaitsAlong(g, s, w) && !MeetsCycle(Needs(g), w[0])
    ensures |w| <= |Below(Needs(g), w[0])| + 2
  {
    var e, k := Needs(g), |Below(Needs(g), w[0])| + 2;
    ChainIsWalk(e, w[0], |w| - 1);
    NoCycleBounds(e, w[0]);
    if k < |w| {
      ChainShorter(e, w[0], k, |w| - 1);
    }
  }

  lemma WaitsOneMore(g: Graph, s: State, w: seq<Name>, d: Name)
    requires WaitsAlong(g, s, w) && IsWaiting(g, s, w[|w| - 1])
    requires Edge(Needs(g), w[|w| - 1], d) && StatusOf(s.nodes, d) != Satisfied
    ensures WaitsAlong(g, s, w + [d])
  {
    var u := w + [d];
    forall i | 0 <= i < |u| - 1 ensures Edge(Needs(g), u[i], u[i + 1]) {
      assert i < |w| - 1 ==> Edge(Needs(g), w[i], w[i + 1]);
    }
  }

  /** However the unsatisfied dependencies are chosen, the walk can be carried on until
      it meets a node that is tracked, inactive or outside the graph. */
  lemma {:induction false} WaitingEnds(g: Graph, s: State, w: seq<Name>) returns (v: seq<Name>)
    requires Settled(g, s) && WaitsAlong(g, s, w) && !MeetsCycle(Needs(g), w[0])
    ensures WaitsAlong(g, s, v) && w <= v && !IsWaiting(g, s, v[|v| - 1])
    decreases |Below(Needs(g), w[0])| + 2 - |w|
  {
    v := w;
    if IsWaiting(g, s, w[|w| - 1]) {
      var d := WaitingHasCause(g, s, w[|w| - 1]);
      WaitsOneMore(g, s, w, d);
      WaitingIsShort(g, s, w + [d]);
      v := WaitingEnds(g, s, w + [d]);
    }
  }

  // ----- a start rests on confirmed dependencies

  /** The node an input reports on. */
  function Named(input: Input): Option<Name> {
    match input
    case Reset(n) => Some(n)
    case Handle(Start) => None
    case Handle(StartTargets(_)) => None
    case Handle(StartSessionTargets(_)) => None
    case Handle(e) => Some(e.name)
  }

  /** The input reports on the node, or its tracked status moves. */
  ghost predicate Changes(g: Graph, s: State, input: Input, d: Name) {
    Named(input) == Some(d) || Get(Next(g, s, input).nodes, d) != Get(s.nodes, d)
  }

  /** A passed check, an override, a healthy service or a healthy external. */
  predicate Confirms(input: Input, d: Name) {
    || input == Handle(StepCheckCompleted(d, true))
    || input == Handle(UserOverride(d))
    || input == Handle(ServiceHealthy(d))
    || input == Handle(ExternalHealthy(d))
  }

  ghost predicate ChangesAt(g: Graph, inputs: seq<Input>, j: nat, d: Name)
    requires j < |inputs|
  {
    Changes(g, Run(g, inputs[..j]), inputs[j], d)
  }

  /** The last change to `d` in the run confirmed it. */
  ghost predicate ConfirmedLast(g: Graph, inputs: seq<Input>, d: Name) {
    exists k :: 0 <= k < |inputs| && Confirms(inputs[k], d) && QuietAfter(g, inputs, k, d)
  }

  ghost predicate QuietAfter(g: Graph, inputs: seq<Input>, k: nat, d: Name) {
    forall j :: k < j < |inputs| ==> !ChangesAt(g, inputs, j, d)
  }

  /** One input confirms, disturbs or leaves alone what a dependency counts as. */
  lemma SatisfiedStep(g: Graph, s: State, input: Input, d: Name)
    ensures StatusOf(Next(g, s, input).nodes, d) == Satisfied <==>
            Confirms(input, d) || (!Changes(g, s, input, d) && StatusOf(s.nodes, d) == Satisfied)
  {
    StartingIsNeutral(g, Applied(g, s, input), NodeSet(g.nodes), d);
  }

  lemma ChangesAtPrefix(g: Graph, inputs: seq<Input>, m: nat, j: nat, d: Name)
    requires j < m <= |inputs|
    ensures ChangesAt(g, inputs[..m], j, d) == ChangesAt(g, inputs, j, d)
  {
    assert inputs[..m][..j] == inputs[..j];
  }

  lemma QuietOneMore(g: Graph, inputs: seq<Input>, k: nat, d: Name)
    requires k < |inputs| - 1
    ensures QuietAfter(g, inputs, k, d) <==>
            QuietAfter(g, inputs[..|inputs| - 1], k, d) && !ChangesAt(g, inputs, |inputs| - 1, d)
  {
    var last := |inputs| - 1;
    forall j | k < j < last ensures ChangesAt(g, inputs[..last], j, d) == ChangesAt(g, inputs, j, d) {
      ChangesAtPrefix(g, inputs, last, j, d);
    }
    if QuietAfter(g, inputs, k, d) {
      assert !ChangesAt(g, inputs, last, d);
    }
  }

  lemma ConfirmedStep(g: Graph, inputs: seq<Input>, d: Name)
    requires inputs != []
    ensures var last := |inputs| - 1;
            ConfirmedLast(g, inputs, d) <==>
            Confirms(inputs[last], d) || (!ChangesAt(g, inputs, last, d) && ConfirmedLast(g, inputs[..last], d))
  {
    var last := |inputs| - 1;
    if Confirms(inputs[last], d) {
      assert QuietAfter(g, inputs, last, d);
    }
    forall k | 0 <= k < last
      ensures QuietAfter(g, inputs, k, d) <==> QuietAfter(g, inputs[..last], k, d) && !ChangesAt(g, inputs, last, d)
    {
      QuietOneMore(g, inputs, k, d);
    }
    assert forall k | 0 <= k < last :: inputs[k] == inputs[..last][k];
  }

  /** A node counts as satisfied exactly while its last change confirmed it. */
  lemma {:induction false} SatisfiedIffConfirmed(g: Graph, inputs: seq<Input>, d: Name)
    ensures StatusOf(Run(g, inputs).nodes, d) == Satisfied <==> ConfirmedLast(g, inputs, d)
    decreases |inputs|
  {
    if inputs != [] {
      var last := |inputs| - 1;
      SatisfiedIffConfirmed(g, inputs[..last], d);
      SatisfiedStep(g, Run(g, inputs[..last]), inputs[last], d);
      ConfirmedStep(g, inputs, d);
    }
  }

  /** The pass that closes the run starts `n`. */
  ghost predicate Starts(g: Graph, inputs: seq<Input>, n: Name) {
    && inputs != [] && n in g.nodes && Direct(g, inputs[|inputs| - 1]).None?
    && Startable(g, Applied(g, Run(g, inputs[..|inputs| - 1]), inputs[|inputs| - 1]), n)
  }

  /** What the last input of a run is answered with. */
  ghost function Answered(g: Graph, inputs: seq<Input>): seq<Action>
    requires inputs != []
  {
    Out(g, Run(g, inputs[..|inputs| - 1]), inputs[|inputs| - 1])
  }

  /** Trace safety: what a pass emits starts a node whose every required dependency was confirmed last. */
  lemma StartsAreSafe(g: Graph, inputs: seq<Input>, a: Action)
    requires inputs != [] && Direct(g, inputs[|inputs| - 1]).None? && a in Answered(g, inputs)
    ensures exists n :: Starts(g, inputs, n) && a == FirstAction(g, n) &&
                        forall d :: Edge(Needs(g), n, d) ==> ConfirmedLast(g, inputs, d)
  {
    var last := |inputs| - 1;
    var applied := Applied(g, Run(g, inputs[..last]), inputs[last]);
    StartActionsMean(g, applied, g.nodes, a);
    var n :| n in g.nodes && Startable(g, applied, n) && a == FirstAction(g, n);
    forall d | Edge(Needs(g), n, d) ensures ConfirmedLast(g, inputs, d) {
      NeedsMean(g, n, d);
      StartingIsNeutral(g, applied, NodeSet(g.nodes), d);
      SatisfiedIffConfirmed(g, inputs, d);
    }
    assert Starts(g, inputs, n);
  }

  /** A service is started by passes only, and never by an input that is answered directly. */
  lemma StartServiceIsStart(g: Graph, inputs: seq<Input>, n: Name)
    requires inputs != [] && (StartService(n) in Answered(g, inputs) || ProbeExternal(n) in Answered(g, inputs))
    ensures Starts(g, inputs, n) && g.kinds[n] == Service
  {
    var last := |inputs| - 1;
    var applied := Applied(g, Run(g, inputs[..last]), inputs[last]);
    var a := if StartService(n) in Answered(g, inputs) then StartService(n) else ProbeExternal(n);
    StartActionsMean(g, applied, g.nodes, a);
  }

  /** The input that closes the run makes the machine forget `n`. */
  ghost predicate Forgets(g: Graph, inputs: seq<Input>, n: Name) {
    && inputs != []
    && var s, input := Run(g, inputs[..|inputs| - 1]), inputs[|inputs| - 1];
    && n in s.nodes
    && (|| input == Reset(n)
        || (&& input.Handle? && input.event.StartSessionTargets?
            && Forgotten(g, Closure(g, input.event.names), s.nodes, n)))
  }

  lemma OnlyForgettingUntracks(g: Graph, inputs: seq<Input>, n: Name)
    requires inputs != [] && n in Run(g, inputs[..|inputs| - 1]).nodes && !Forgets(g, inputs, n)
    ensures n in Applied(g, Run(g, inputs[..|inputs| - 1]), inputs[|inputs| - 1]).nodes
    ensures n in Run(g, inputs).nodes
  {
  }

  lemma {:induction false} TrackedUntilForgotten(g: Graph, inputs: seq<Input>, i: nat, k: nat, n: Name)
    requires i <= k <= |inputs| && n in Run(g, inputs[..i]).nodes
    requires forall m :: i < m <= k ==> !Forgets(g, inputs[..m], n)
    ensures n in Run(g, inputs[..k]).nodes
    decreases k
  {
    if i < k {
      TrackedUntilForgotten(g, inputs, i, k - 1, n);
      assert inputs[..k][..k - 1] == inputs[..k - 1];
      OnlyForgettingUntracks(g, inputs[..k], n);
    }
  }

  /** A start takes an untracked node and tracks it. */
  lemma StartTracks(g: Graph, inputs: seq<Input>, n: Name)
    requires Starts(g, inputs, n)
    ensures inputs != [] && n in Run(g, inputs).nodes
    ensures n !in Applied(g, Run(g, inputs[..|inputs| - 1]), inputs[|inputs| - 1]).nodes
  {
  }

  /** Two starts of a node are separated by a reset of it, or by a session start
      that removed it as an ended session service. */
  lemma StartsAreSeparated(g: Graph, inputs: seq<Input>, i: nat, j: nat, n: Name)
    requires i < j <= |inputs| && Starts(g, inputs[..i], n) && Starts(g, inputs[..j], n)
    ensures exists k :: i < k <= j && Forgets(g, inputs[..k], n)
  {
    hide Starts, Forgets, Run, Applied;
    StartTracks(g, inputs[..i], n);
    StartTracks(g, inputs[..j], n);
    if forall k :: i < k <= j ==> !Forgets(g, inputs[..k], n) {
      TrackedUntilForgotten(g, inputs, i, j - 1, n);
      assert inputs[..j][..j - 1] == inputs[..j - 1];
      OnlyForgettingUntracks(g, inputs[..j], n);
    }
  }
}
