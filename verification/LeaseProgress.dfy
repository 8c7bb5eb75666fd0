/** Leases never starve each other: an attempt never waits, and among attempts that
    start together not all can end blocked. */
module LeaseProgress {
  import opened Wrappers
  import opened Names
  import opened Leases

  /** `a` has locked a unit of `r`, and has not been turned away before or at `r`. */
  predicate Past(a: Attempt, stage: Stage, r: Name) {
    match stage
    case Trying(files, _) => Passed(files, r)
    case Checking(files, _) => Passed(files, r) || (|files| < |a.names| && a.names[|files|] == r)
    case Writing(files, _) => Passed(files, r) || (|files| < |a.names| && a.names[|files|] == r)
    case Acquired(_) => true
    case Releasing(_, _, outcome) => outcome.BlockedOn? ==> Less(r, outcome.resource)
    case Ended(outcome) => outcome.BlockedOn? ==> Less(r, outcome.resource)
    case Dead => true
  }

  predicate Passed(files: seq<Unit>, r: Name) {
    exists j | 0 <= j < |files| :: files[j].name == r
  }

  /** The resource of which the attempt has met a unit it could not take. */
  function WaitedFor(a: Attempt, stage: Stage): Option<Name> {
    match stage
    case Trying(files, id) => if 0 < id && |files| < |a.names| then Some(a.names[|files|]) else None
    case Releasing(_, _, BlockedOn(r)) => Some(r)
    case Ended(BlockedOn(r)) => Some(r)
    case _ => None
  }

  /** An attempt that is certain not to end blocked. */
  predicate Escaped(stage: Stage) {
    match stage
    case Acquired(_) => true
    case Releasing(_, _, outcome) => !outcome.BlockedOn?
    case Ended(outcome) => !outcome.BlockedOn?
    case Dead => true
    case _ => false
  }

  ghost predicate SomeEscaped(s: State) {
    exists a :: 0 <= a < |s.stages| && Escaped(s.stages[a])
  }

  ghost predicate NoLiveChildren(s: State) {
    forall u :: RecordAt(s, u).children <= s.dead
  }

  ghost predicate Overtaken(c: seq<Attempt>, s: State, a: nat, r: Name)
    requires |s.stages| == |c|
  {
    exists b :: 0 <= b < |c| && b != a && Past(c[b], s.stages[b], r)
  }

  /** Whoever met a taken unit was overtaken by someone further on. */
  ghost predicate Orderly(c: seq<Attempt>, s: State)
    requires |s.stages| == |c|
  {
    && NoLiveChildren(s)
    && forall a :: 0 <= a < |c| && WaitedFor(c[a], s.stages[a]).Some? ==>
         Overtaken(c, s, a, WaitedFor(c[a], s.stages[a]).value)
  }

  lemma EscapedStays(c: seq<Attempt>, s: State, m: Move)
    requires Invariant(c, s) && Enabled(c, s, m) && SomeEscaped(s)
    ensures SomeEscaped(After(c, s, m))
  {
    var a :| 0 <= a < |s.stages| && Escaped(s.stages[a]);
    assert Escaped(After(c, s, m).stages[a]);
  }

  lemma NoneIsAcquired(s: State, a: nat)
    requires a < |s.stages| && !SomeEscaped(s)
    ensures !s.stages[a].Acquired?
  {
    assert s.stages[a].Acquired? ==> Escaped(s.stages[a]);
  }

  lemma NoChildIsBorn(c: seq<Attempt>, s: State, m: Move)
    requires Invariant(c, s) && Enabled(c, s, m) && NoLiveChildren(s) && !SomeEscaped(s)
    ensures NoLiveChildren(After(c, s, m))
  {
    forall a | 0 <= a < |s.stages| ensures !s.stages[a].Acquired? {
      NoneIsAcquired(s, a);
    }
    var t := After(c, s, m);
    forall u ensures RecordAt(t, u).children <= t.dead {
      assert RecordAt(s, u).children <= s.dead;
    }
  }

  lemma OwnPastStays(c: seq<Attempt>, s: State, m: Move, b: nat, r: Name)
    requires Invariant(c, s) && Enabled(c, s, m) && (forall u :: Recoverable(s, u))
    requires b < |c| && Moves(m, b) && Past(c[b], s.stages[b], r)
    ensures Past(c[b], After(c, s, m).stages[b], r)
  {
    var stage, names := s.stages[b], c[b].names;
    assert StageOk(c[b], stage);
    if m.Try? && Passed(stage.files, r) && |stage.files| < |names| {
      var j :| 0 <= j < |stage.files| && stage.files[j].name == r;
      assert Less(names[j], names[|stage.files|]);
    }
    if m.Write? {
      var u := Next(c[b], stage);
      var files := stage.files + [u];
      assert files[|stage.files|] == u;
      assert forall j | 0 <= j < |stage.files| :: files[j] == stage.files[j];
    }
  }

  lemma AllRecoverable(s: State)
    requires NoLiveChildren(s)
    ensures forall u :: Recoverable(s, u)
  {
    forall u ensures Recoverable(s, u) {
      assert RecordAt(s, u).children <= s.dead;
    }
  }

  /** An attempt goes forward only. */
  lemma PastStays(c: seq<Attempt>, s: State, m: Move, b: nat, r: Name)
    requires Invariant(c, s) && Enabled(c, s, m) && NoLiveChildren(s)
    requires b < |c| && Past(c[b], s.stages[b], r)
    ensures |After(c, s, m).stages| == |c| && Past(c[b], After(c, s, m).stages[b], r)
  {
    if Moves(m, b) {
      AllRecoverable(s);
      OwnPastStays(c, s, m, b, r);
    }
  }

  /** Whoever holds a unit of a resource is past it. */
  lemma HolderIsPast(a: Attempt, stage: Stage, u: Unit)
    requires Ascending(a.names) && StageOk(a, stage) && Holds(a, stage, u)
    ensures Past(a, stage, u.name)
  {
    if stage.Releasing? && stage.outcome.BlockedOn? {
      var j :| stage.next <= j < |stage.files| && stage.files[j] == u;
      assert Less(a.names[j], a.names[|stage.files|]);
    }
  }

  /** A taken unit is held by another attempt, which is past its resource. */
  lemma TakenIsOvertaken(c: seq<Attempt>, s: State, a: nat, u: Unit)
    requires Invariant(c, s) && a < |c| && !s.stages[a].Dead? && u in s.locks && !Holds(c[a], s.stages[a], u)
    ensures Overtaken(c, s, a, u.name)
  {
    var b := s.locks[u];
    assert Get(s.locks, u) == Some(b);
    assert Holds(c[a], s.stages[a], u) <==> Get(s.locks, u) == Some(a);
    if !s.stages[b].Dead? {
      assert Holds(c[b], s.stages[b], u) <==> Get(s.locks, u) == Some(b);
      HolderIsPast(c[b], s.stages[b], u);
    }
    assert Past(c[b], s.stages[b], u.name);
  }

  /** An attempt begins to wait for a resource only by finding one of its units taken. */
  lemma WaitBegins(c: seq<Attempt>, s: State, m: Move, a: nat, r: Name)
    requires |s.stages| == |c| && Enabled(c, s, m) && a < |c| && StageOk(c[a], s.stages[a])
    requires |After(c, s, m).stages| == |c| && WaitedFor(c[a], After(c, s, m).stages[a]) == Some(r)
    requires WaitedFor(c[a], s.stages[a]) != Some(r) && forall u :: Recoverable(s, u)
    ensures var stage := s.stages[a];
            && stage.Trying? && |stage.files| < |c[a].names| && r == c[a].names[|stage.files|]
            && UnitOf(c[a], r, stage.id) in s.locks
  {
    hide Placed, OutcomeOk, Recoverable;
  }

  /** What an attempt waits for after a step it waited for before, or has just found taken. */
  lemma NewWait(c: seq<Attempt>, s: State, m: Move, a: nat, r: Name)
    requires Invariant(c, s) && Enabled(c, s, m) && NoLiveChildren(s) && a < |c|
    requires |After(c, s, m).stages| == |c| && WaitedFor(c[a], After(c, s, m).stages[a]) == Some(r)
    requires forall b :: 0 <= b < |c| && WaitedFor(c[b], s.stages[b]).Some? ==>
                           Overtaken(c, s, b, WaitedFor(c[b], s.stages[b]).value)
    ensures Overtaken(c, s, a, r)
  {
    hide LocksAgree, RecordOk, ChildrenKept, OwnersFirst, Overtaken, After, WaitedFor, Recoverable;
    AllRecoverable(s);
    if WaitedFor(c[a], s.stages[a]) != Some(r) {
      var stage := s.stages[a];
      WaitBegins(c, s, m, a, r);
      NextIsNotGranted(c[a], stage.files, stage.id);
      TakenIsOvertaken(c, s, a, UnitOf(c[a], r, stage.id));
    }
  }

  lemma MoveKeepsOrder(c: seq<Attempt>, s: State, m: Move)
    requires Invariant(c, s) && Enabled(c, s, m) && Orderly(c, s) && !SomeEscaped(s)
    ensures |After(c, s, m).stages| == |c| && Orderly(c, After(c, s, m))
  {
    MoveKeepsInvariant(c, s, m);
    NoChildIsBorn(c, s, m);
    var t := After(c, s, m);
    forall a | 0 <= a < |c| && WaitedFor(c[a], t.stages[a]).Some?
      ensures Overtaken(c, t, a, WaitedFor(c[a], t.stages[a]).value)
    {
      var r := WaitedFor(c[a], t.stages[a]).value;
      NewWait(c, s, m, a, r);
      var b :| 0 <= b < |c| && b != a && Past(c[b], s.stages[b], r);
      PastStays(c, s, m, b, r);
    }
  }

  lemma {:induction false} RunKeepsOrder(c: seq<Attempt>, s: State, run: seq<Move>)
    requires Initial(c, s) && NoLiveChildren(s) && CanRun(c, s, run)
    ensures |Led(c, s, run).stages| == |c|
    ensures SomeEscaped(Led(c, s, run)) || Orderly(c, Led(c, s, run))
    decreases |run|
  {
    RunKeepsInvariant(c, s, run);
    if run != [] {
      var before := run[..|run| - 1];
      RunKeepsOrder(c, s, before);
      RunKeepsInvariant(c, s, before);
      var t := Led(c, s, before);
      if SomeEscaped(t) {
        EscapedStays(c, t, run[|run| - 1]);
      } else {
        MoveKeepsOrder(c, t, run[|run| - 1]);
      }
    }
  }

  /** A non-empty list of names has one that none exceeds. */
  lemma {:induction false} TopName(names: seq<Name>) returns (top: nat)
    requires names != []
    ensures top < |names| && forall j :: 0 <= j < |names| ==> !Less(names[top], names[j])
  {
    var last := |names| - 1;
    if last == 0 {
      top := 0;
      LessTotal(names[0], names[0]);
    } else {
      top := TopName(names[..last]);
      forall j | 0 <= j < last ensures !Less(names[top], names[j]) {
        assert names[..last][j] == names[j];
      }
      if Less(names[top], names[last]) {
        forall j | 0 <= j < |names| ensures !Less(names[last], names[j]) {
          if Less(names[last], names[j]) {
            LessTotal(names[last], names[last]);
            LessTransitive(names[top], names[last], names[j]);
          }
        }
        top := last;
      }
    }
  }

  predicate EndedBlocked(stage: Stage) {
    stage.Ended? && stage.outcome.BlockedOn?
  }

  /** Concurrent lease progress: when attempts interleave from a state with nothing
      locked and no orphan child alive, they cannot all end blocked. */
  lemma NotAllBlocked(c: seq<Attempt>, s: State, run: seq<Move>)
    requires Initial(c, s) && NoLiveChildren(s) && CanRun(c, s, run) && c != []
    ensures exists a :: 0 <= a < |c| && a < |Led(c, s, run).stages| && !EndedBlocked(Led(c, s, run).stages[a])
  {
    RunKeepsOrder(c, s, run);
    var t := Led(c, s, run);
    if forall a :: 0 <= a < |c| ==> EndedBlocked(t.stages[a]) {
      var names := seq(|c|, a requires 0 <= a < |c| => t.stages[a].outcome.resource);
      var top := TopName(names);
      assert WaitedFor(c[top], t.stages[top]) == Some(names[top]);
      var b :| 0 <= b < |c| && b != top && Past(c[b], t.stages[b], names[top]);
      assert !Less(names[top], names[b]);
    }
  }

  /** Every requested resource is configured. */
  predicate Configured(c: seq<Attempt>) {
    forall a, j | 0 <= a < |c| && 0 <= j < |c[a].names| :: Leases.Known(c[a], c[a].names[j])
  }

  lemma FailedIsMisconfigured(c: seq<Attempt>, a: nat)
    requires a < |c| && Configured(c)
    ensures !OutcomeOk(c[a], Failed)
  {
    forall r | r in c[a].names ensures Leases.Known(c[a], r) {
      var j :| 0 <= j < |c[a].names| && c[a].names[j] == r;
    }
  }

  /** The attempt holds its whole set, or has held it and given it back. */
  predicate HasAcquired(stage: Stage) {
    stage.Acquired? || stage == Ended(Dropped)
  }

  lemma NotBlockedHasAcquired(c: seq<Attempt>, s: State, a: nat)
    requires Invariant(c, s) && Configured(c) && a < |c|
    requires (s.stages[a].Ended? || s.stages[a].Acquired?) && !EndedBlocked(s.stages[a])
    ensures HasAcquired(s.stages[a])
  {
    assert StageOk(c[a], s.stages[a]);
    FailedIsMisconfigured(c, a);
  }

  /** If nobody dies and everything requested is configured, then once all have ended
      someone has had its whole set. */
  lemma SomeoneAcquires(c: seq<Attempt>, s: State, run: seq<Move>)
    requires Initial(c, s) && NoLiveChildren(s) && CanRun(c, s, run) && c != [] && Configured(c)
    requires forall stage :: stage in Led(c, s, run).stages ==> stage.Ended? || stage.Acquired?
    ensures exists stage :: stage in Led(c, s, run).stages && HasAcquired(stage)
  {
    NotAllBlocked(c, s, run);
    RunKeepsInvariant(c, s, run);
    var t := Led(c, s, run);
    var a :| 0 <= a < |c| && !EndedBlocked(t.stages[a]);
    assert t.stages[a] in t.stages;
    NotBlockedHasAcquired(c, t, a);
  }

  // ----- no attempt waits

  predicate Underway(stage: Stage) {
    stage.Trying? || stage.Checking? || stage.Writing? || stage.Releasing?
  }

  /** The step an attempt can always take by itself. */
  function OwnMove(stage: Stage, a: nat): Move
    requires Underway(stage)
  {
    match stage
    case Trying(_, _) => Try(a)
    case Checking(_, _) => Recover(a)
    case Writing(_, _) => Write(a)
    case Releasing(_, _, _) => Unlock(a)
  }

  /** The units an attempt may look at for its `k`-th resource. */
  function Cap(a: Attempt, k: nat): nat
    requires k < |a.names|
  {
    if Leases.Known(a, a.names[k]) then a.capacity[a.names[k]] else 0
  }

  /** The steps it may need for the resources from the `k`-th on: two at each unit and one beside them. */
  function Ahead(a: Attempt, k: nat): nat
    decreases |a.names| - k
  {
    if k >= |a.names| then 0 else 2 * Cap(a, k) + 1 + Ahead(a, k + 1)
  }

  /** The most steps an attempt may still need from where it stands: to search, to be granted, to drop, to unlock. */
  function Budget(a: Attempt, stage: Stage): nat {
    match stage
    case Trying(files, id) => Searching(a, |files|, id)
    case Checking(files, id) => Minus(Searching(a, |files|, id), 1)
    case Writing(files, id) => Minus(Searching(a, |files|, id), 2)
    case Acquired(files) => |files| + 2
    case Releasing(files, next, _) => Minus(|files| + 1, next)
    case Ended(_) => 0
    case Dead => 0
  }

  /** The same while it looks at unit `id` of its `k`-th resource. */
  function Searching(a: Attempt, k: nat, id: nat): nat {
    (if k < |a.names| then 2 * Minus(Cap(a, k), id) + 1 + Ahead(a, k + 1) else 0) + |a.names| + 3
  }

  function Minus(x: nat, y: nat): nat {
    if x > y then x - y else 0
  }

  /** Whatever the others do, an attempt can go on, holding or not, and each of its steps leaves it less to do. */
  lemma AttemptsNeverWait(c: seq<Attempt>, s: State, a: nat)
    requires Invariant(c, s) && a < |c| && Underway(s.stages[a])
    ensures var m := OwnMove(s.stages[a], a);
            && Enabled(c, s, m) && |After(c, s, m).stages| == |c|
            && Budget(c[a], After(c, s, m).stages[a]) < Budget(c[a], s.stages[a])
  {
    InvariantAt(c, s, a);
    OwnStepCosts(c, s, OwnMove(s.stages[a], a), a);
  }

  /** What an attempt has left does not grow by what others do. */
  lemma OthersCostNothing(c: seq<Attempt>, s: State, m: Move, a: nat)
    requires Invariant(c, s) && Enabled(c, s, m) && a < |c| && !Moves(m, a)
    ensures |After(c, s, m).stages| == |c| && After(c, s, m).stages[a] in {s.stages[a], Dead}
  {
  }

  /** A step of the attempt on its way through its stages. To record a child takes it nowhere. */
  predicate Advances(m: Move, a: nat) {
    Moves(m, a) && !m.RecordChild?
  }

  lemma SearchGoesOn(a: Attempt, k: nat, id: nat)
    requires k < |a.names|
    ensures id < Cap(a, k) ==> Searching(a, k, id + 1) == Searching(a, k, id) - 2
    ensures id < Cap(a, k) ==> Searching(a, k + 1, 0) + 3 <= Searching(a, k, id)
    ensures Searching(a, k, id) >= |a.names| + 4
  {
  }

  lemma OwnStepCosts(c: seq<Attempt>, s: State, m: Move, a: nat)
    requires Invariant(c, s) && Enabled(c, s, m) && a < |c| && Advances(m, a)
    ensures |After(c, s, m).stages| == |c| && Budget(c[a], After(c, s, m).stages[a]) < Budget(c[a], s.stages[a])
  {
    hide Invariant, Ahead, Searching, Recoverable, Placed, OutcomeOk;
    InvariantAt(c, s, a);
    FilesAreNamed(c[a], s.stages[a]);
    var stage := s.stages[a];
    if (stage.Trying? || stage.Checking? || stage.Writing?) && |stage.files| < |c[a].names| {
      SearchGoesOn(c[a], |stage.files|, stage.id);
    } else if stage.Trying? {
      SearchIsOver(c[a], |stage.files|, stage.id);
    }
  }

  lemma SearchIsOver(a: Attempt, k: nat, id: nat)
    requires k >= |a.names|
    ensures Searching(a, k, id) == |a.names| + 3
  {
  }

  lemma FilesAreNamed(a: Attempt, stage: Stage)
    requires StageOk(a, stage) && !stage.Ended? && !stage.Dead?
    ensures |stage.files| <= |a.names|
  {
  }

  lemma MoveCosts(c: seq<Attempt>, s: State, m: Move, a: nat)
    requires Invariant(c, s) && Enabled(c, s, m) && a < |c|
    ensures |After(c, s, m).stages| == |c|
    ensures Budget(c[a], After(c, s, m).stages[a]) + (if Advances(m, a) then 1 else 0) <= Budget(c[a], s.stages[a])
  {
    hide Invariant, Budget;
    if Advances(m, a) {
      OwnStepCosts(c, s, m, a);
    } else if Moves(m, a) {
      assert After(c, s, m).stages == s.stages;
      InvariantAt(c, s, a);
    } else {
      OthersCostNothing(c, s, m, a);
      DeadNeedsNothing(c[a]);
    }
  }

  lemma DeadNeedsNothing(a: Attempt)
    ensures Budget(a, Dead) == 0
  {
  }

  /** The attempt's own steps in a run, records of children aside. */
  function StepsOf(run: seq<Move>, a: nat): nat {
    if run == [] then 0
    else StepsOf(run[..|run| - 1], a) + if Advances(run[|run| - 1], a) then 1 else 0
  }

  lemma {:induction false} RunCosts(c: seq<Attempt>, s: State, run: seq<Move>, a: nat)
    requires Invariant(c, s) && CanRun(c, s, run) && a < |c|
    ensures |Led(c, s, run).stages| == |c|
    ensures StepsOf(run, a) + Budget(c[a], Led(c, s, run).stages[a]) <= Budget(c[a], s.stages[a])
    decreases |run|
  {
    hide Invariant, After, Enabled, Budget, Advances;
    InvariantAt(c, s, a);
    if run != [] {
      var before := run[..|run| - 1];
      RunCosts(c, s, before, a);
      RunKeepsInvariant(c, s, before);
      MoveCosts(c, Led(c, s, before), run[|run| - 1], a);
    }
  }

  /** In every interleaving an attempt takes at most so many steps of its own: two at each unit of each resource
      it asks for, two more for each resource, and three. Until it has ended or died it has some left, and can
      take one. So an attempt that keeps moving ends, whatever the others do. */
  lemma AttemptsEnd(c: seq<Attempt>, s: State, run: seq<Move>, a: nat)
    requires Initial(c, s) && CanRun(c, s, run) && a < |c|
    ensures |Led(c, s, run).stages| == |c|
    ensures var stage := Led(c, s, run).stages[a];
            && StepsOf(run, a) + Budget(c[a], stage) <= Ahead(c[a], 0) + |c[a].names| + 3
            && (Budget(c[a], stage) == 0 <==> stage.Ended? || stage.Dead?)
            && (!stage.Ended? && !stage.Dead? ==>
                  exists m :: Enabled(c, Led(c, s, run), m) && Advances(m, a))
  {
    RunCosts(c, s, run, a);
    RunKeepsInvariant(c, s, run);
    var t := Led(c, s, run);
    InvariantAt(c, t, a);
    NeedsSomething(c[a], t.stages[a]);
    if Underway(t.stages[a]) {
      AttemptsNeverWait(c, t, a);
      assert Advances(OwnMove(t.stages[a], a), a);
    } else if t.stages[a].Acquired? {
      assert Enabled(c, t, Drop(a)) && Advances(Drop(a), a);
    }
  }

  lemma NeedsSomething(a: Attempt, stage: Stage)
    requires StageOk(a, stage)
    ensures Budget(a, stage) == 0 <==> stage.Ended? || stage.Dead?
    ensures stage == Trying([], 0) ==> Budget(a, stage) == Ahead(a, 0) + |a.names| + 3
  {
  }
}
