/** What a search for a unit has seen: an attempt passes a unit only because it is taken, so that one that ends
    blocked has found every unit of a pool taken, and one that is granted a unit has found those before it taken. */
module LeaseSearch {
  import opened Wrappers
  import opened Names
  import opened Leases

  /** Attempt `a` cannot have the unit: another has it locked, or it has locked it itself and finds a child of an
      earlier owner alive. */
  ghost predicate Refused(s: State, a: nat, u: Unit) {
    || (u in s.locks && s.locks[u] != a)
    || (&& Get(s.locks, u) == Some(a) && RecordAt(s, u).owner.Some?
        && exists p :: p in RecordAt(s, u).children && p !in s.dead)
  }

  /** The attempt is looking at unit `id` of resource `r`. */
  predicate Looking(a: Attempt, stage: Stage, r: Name, id: nat) {
    (stage.Trying? || stage.Checking?) && |stage.files| < |a.names| && a.names[|stage.files|] == r && stage.id == id
  }

  /** An attempt goes on to the next unit only from one that it is refused. */
  lemma PassesOnlyRefused(c: seq<Attempt>, s: State, m: Move, a: nat, r: Name, id: nat)
    requires Invariant(c, s) && Enabled(c, s, m) && a < |c| && Moves(m, a)
    requires Looking(c[a], s.stages[a], r, id) && After(c, s, m).stages[a] == Trying(s.stages[a].files, id + 1)
    ensures Refused(s, a, UnitOf(c[a], r, id)) && Known(c[a], r) && id < c[a].capacity[r]
  {
    hide StageOk, RecordOk, ChildrenKept, OwnersFirst;
    var u := UnitOf(c[a], r, id);
    InvariantAt(c, s, a);
    if m.Try? {
      NotOwnLock(c, s, a, u);
    } else {
      HeldIsLocked(c, s, a, u);
      CheckingIsKnown(c[a], s.stages[a]);
    }
  }

  lemma CheckingIsKnown(a: Attempt, stage: Stage)
    requires StageOk(a, stage) && stage.Checking?
    ensures |stage.files| < |a.names| && Known(a, a.names[|stage.files|])
    ensures stage.id < a.capacity[a.names[|stage.files|]]
  {
  }

  lemma NotOwnLock(c: seq<Attempt>, s: State, a: nat, u: Unit)
    requires Invariant(c, s) && a < |c| && s.stages[a].Trying? && |s.stages[a].files| < |c[a].names|
    requires u == UnitOf(c[a], c[a].names[|s.stages[a].files|], u.id)
    ensures Get(s.locks, u) != Some(a)
  {
    InvariantAt(c, s, a);
    NextIsNotGranted(c[a], s.stages[a].files, u.id);
    assert Holds(c[a], s.stages[a], u) <==> Get(s.locks, u) == Some(a);
  }

  // ----- what has been seen along a run

  /** At move `k` the attempt looked at that unit and could not have it. */
  ghost predicate RefusedAt(c: seq<Attempt>, s: State, run: seq<Move>, k: nat, a: nat, r: Name, id: nat) {
    && k < |run| && a < |c| && CanRun(c, s, run[..k])
    && var t := Led(c, s, run[..k]);
    |t.stages| == |c| && Looking(c[a], t.stages[a], r, id) && Refused(t, a, UnitOf(c[a], r, id))
  }

  /** So it was at some move since `from`. */
  ghost predicate Seen(c: seq<Attempt>, s: State, run: seq<Move>, from: nat, a: nat, r: Name, id: nat) {
    exists k: nat :: from <= k && RefusedAt(c, s, run, k, a, r, id)
  }

  ghost predicate SeenBelow(c: seq<Attempt>, s: State, run: seq<Move>, from: nat, a: nat, r: Name, n: nat) {
    forall id: nat :: id < n ==> Seen(c, s, run, from, a, r, id)
  }

  ghost predicate SeenForFiles(
      c: seq<Attempt>, s: State, run: seq<Move>, from: nat, base: nat, a: nat, files: seq<Unit>)
  {
    forall j :: base <= j < |files| ==> SeenBelow(c, s, run, from, a, files[j].name, files[j].id)
  }

  /** What an attempt at this stage has seen since it had its first `base` files. */
  ghost predicate SeenBy(
      c: seq<Attempt>, s: State, run: seq<Move>, from: nat, base: nat, a: nat, stage: Stage)
    requires a < |c|
  {
    match stage
    case Trying(files, id) =>
      SeenForFiles(c, s, run, from, base, a, files) && SeenForNext(c, s, run, from, a, files, id)
    case Checking(files, id) =>
      SeenForFiles(c, s, run, from, base, a, files) && SeenForNext(c, s, run, from, a, files, id)
    case Writing(files, id) =>
      SeenForFiles(c, s, run, from, base, a, files) && SeenForNext(c, s, run, from, a, files, id)
    case Acquired(files) => SeenForFiles(c, s, run, from, base, a, files)
    case Releasing(_, _, outcome) => SeenForOutcome(c, s, run, from, a, outcome)
    case Ended(outcome) => SeenForOutcome(c, s, run, from, a, outcome)
    case Dead => true
  }

  ghost predicate SeenForNext(
      c: seq<Attempt>, s: State, run: seq<Move>, from: nat, a: nat, files: seq<Unit>, id: nat)
    requires a < |c|
  {
    |files| < |c[a].names| ==> SeenBelow(c, s, run, from, a, c[a].names[|files|], id)
  }

  ghost predicate SeenForOutcome(c: seq<Attempt>, s: State, run: seq<Move>, from: nat, a: nat, outcome: Outcome)
    requires a < |c|
  {
    outcome.BlockedOn? ==>
      Known(c[a], outcome.resource)
      && SeenBelow(c, s, run, from, a, outcome.resource, c[a].capacity[outcome.resource])
  }

  lemma SeenStays(c: seq<Attempt>, s: State, run: seq<Move>, m: Move, from: nat, a: nat, r: Name, n: nat)
    requires SeenBelow(c, s, run, from, a, r, n)
    ensures SeenBelow(c, s, run + [m], from, a, r, n)
  {
    hide Refused, Looking;
    forall id: nat | id < n ensures Seen(c, s, run + [m], from, a, r, id) {
      assert Seen(c, s, run, from, a, r, id);
      var k: nat :| from <= k && RefusedAt(c, s, run, k, a, r, id);
      assert (run + [m])[..k] == run[..k];
      assert RefusedAt(c, s, run + [m], k, a, r, id);
    }
  }

  lemma SeenByStays(
      c: seq<Attempt>, s: State, run: seq<Move>, m: Move, from: nat, base: nat, a: nat, stage: Stage)
    requires a < |c| && SeenBy(c, s, run, from, base, a, stage)
    ensures SeenBy(c, s, run + [m], from, base, a, stage)
  {
    hide SeenBelow;
    forall r, n: nat | SeenBelow(c, s, run, from, a, r, n) ensures SeenBelow(c, s, run + [m], from, a, r, n) {
      SeenStays(c, s, run, m, from, a, r, n);
    }
  }

  lemma LedOn(c: seq<Attempt>, s: State, run: seq<Move>, m: Move)
    requires CanRun(c, s, run + [m])
    ensures CanRun(c, s, run) && Enabled(c, Led(c, s, run), m)
    ensures Led(c, s, run + [m]) == After(c, Led(c, s, run), m)
  {
    hide Enabled, After;
    assert (run + [m])[..|run|] == run;
  }

  lemma SeesOneMore(c: seq<Attempt>, s: State, run: seq<Move>, m: Move, from: nat, a: nat, r: Name, id: nat)
    requires CanRun(c, s, run) && from <= |run| && SeenBelow(c, s, run, from, a, r, id)
    requires a < |c| && |Led(c, s, run).stages| == |c|
    requires Looking(c[a], Led(c, s, run).stages[a], r, id) && Refused(Led(c, s, run), a, UnitOf(c[a], r, id))
    ensures SeenBelow(c, s, run + [m], from, a, r, id + 1)
  {
    hide Refused, Looking, Led, CanRun;
    SeenStays(c, s, run, m, from, a, r, id);
    assert (run + [m])[..|run|] == run;
    assert RefusedAt(c, s, run + [m], |run|, a, r, id);
  }

  /** A step of the attempt: it goes on from a refused unit, takes the one it looks at, or stops. */
  lemma OwnStepSees(c: seq<Attempt>, s: State, run: seq<Move>, m: Move, from: nat, base: nat, a: nat)
    requires CanRun(c, s, run + [m]) && CanRun(c, s, run) && from <= |run| && a < |c| && Moves(m, a)
    requires Invariant(c, Led(c, s, run)) && Enabled(c, Led(c, s, run), m)
    requires SeenBy(c, s, run, from, base, a, Led(c, s, run).stages[a])
    ensures var t := After(c, Led(c, s, run), m);
            |t.stages| == |c| && SeenBy(c, s, run + [m], from, base, a, t.stages[a])
  {
    hide SeenBelow, Led, CanRun, Invariant, Recoverable;
    var t := Led(c, s, run);
    var stage, next := t.stages[a], After(c, t, m).stages[a];
    InvariantAt(c, t, a);
    SeenByStays(c, s, run, m, from, base, a, stage);
    if (stage.Trying? || stage.Checking?) && |stage.files| < |c[a].names| && next == Trying(stage.files, stage.id + 1) {
      var r := c[a].names[|stage.files|];
      PassesOnlyRefused(c, t, m, a, r, stage.id);
      SeesOneMore(c, s, run, m, from, a, r, stage.id);
    } else if next.Releasing? && next.outcome.BlockedOn? && stage.Trying? {
      SeenFewer(c, s, run + [m], from, a, next.outcome.resource, stage.id, c[a].capacity[next.outcome.resource]);
    } else if next.Trying? && stage.Writing? {
      assert forall j :: 0 <= j < |stage.files| ==> next.files[j] == stage.files[j];
      if |next.files| < |c[a].names| {
        SeenNone(c, s, run + [m], from, a, c[a].names[|next.files|]);
      }
    }
  }

  lemma SeenNone(c: seq<Attempt>, s: State, run: seq<Move>, from: nat, a: nat, r: Name)
    ensures SeenBelow(c, s, run, from, a, r, 0)
  {
  }

  lemma SeenFewer(c: seq<Attempt>, s: State, run: seq<Move>, from: nat, a: nat, r: Name, n: nat, m: nat)
    requires SeenBelow(c, s, run, from, a, r, n) && m <= n
    ensures SeenBelow(c, s, run, from, a, r, m)
  {
  }

  lemma OthersLetBe(c: seq<Attempt>, s: State, m: Move, a: nat)
    requires Invariant(c, s) && Enabled(c, s, m) && a < |c| && !Moves(m, a)
    ensures |After(c, s, m).stages| == |c| && After(c, s, m).stages[a] in {s.stages[a], Dead}
  {
  }

  lemma {:induction false} SearchSees(c: seq<Attempt>, s: State, run: seq<Move>, from: nat, a: nat, files: seq<Unit>)
    requires Invariant(c, s) && CanRun(c, s, run) && a < |c| && from <= |run|
    requires CanRun(c, s, run[..from]) && |Led(c, s, run[..from]).stages| == |c|
    requires Led(c, s, run[..from]).stages[a] == Trying(files, 0)
    ensures |Led(c, s, run).stages| == |c| && SeenBy(c, s, run, from, |files|, a, Led(c, s, run).stages[a])
    decreases |run|
  {
    hide Invariant, After, Enabled, SeenBelow;
    if |run| == from {
      assert run[..from] == run;
      NothingSeen(c, s, run, from, a, files);
    } else {
      var before, m := run[..|run| - 1], run[|run| - 1];
      assert before + [m] == run && before[..from] == run[..from];
      LedOn(c, s, before, m);
      SearchSees(c, s, before, from, a, files);
      RunKeepsInvariant(c, s, before);
      if Moves(m, a) {
        OwnStepSees(c, s, before, m, from, |files|, a);
      } else {
        OthersLetBe(c, Led(c, s, before), m, a);
        SeenByStays(c, s, before, m, from, |files|, a, Led(c, s, before).stages[a]);
      }
    }
  }

  lemma NothingSeen(c: seq<Attempt>, s: State, run: seq<Move>, from: nat, a: nat, files: seq<Unit>)
    requires a < |c|
    ensures SeenBy(c, s, run, from, |files|, a, Trying(files, 0))
  {
  }

  /** An attempt that ends blocked on a resource was refused every one of its units, each at some step of its search. */
  lemma BlockedFoundAllTaken(c: seq<Attempt>, s: State, run: seq<Move>, a: nat, r: Name, id: nat)
    requires Initial(c, s) && CanRun(c, s, run) && a < |c|
    requires |Led(c, s, run).stages| == |c| && Led(c, s, run).stages[a] == Ended(BlockedOn(r))
    ensures Known(c[a], r) && (id < c[a].capacity[r] ==> Seen(c, s, run, 0, a, r, id))
  {
    hide Invariant, RefusedAt;
    InitialIsInvariant(c, s);
    assert run[..0] == [];
    SearchSees(c, s, run, 0, a, []);
  }

  /** An attempt that has its units was refused every lower unit of each of the resources. */
  lemma GrantedIsFirst(c: seq<Attempt>, s: State, run: seq<Move>, a: nat, j: nat, id: nat)
    requires Initial(c, s) && CanRun(c, s, run) && a < |c|
    requires |Led(c, s, run).stages| == |c| && Led(c, s, run).stages[a].Acquired?
    requires j < |Led(c, s, run).stages[a].files| && id < Led(c, s, run).stages[a].files[j].id
    ensures Seen(c, s, run, 0, a, Led(c, s, run).stages[a].files[j].name, id)
  {
    hide Invariant, RefusedAt;
    InitialIsInvariant(c, s);
    assert run[..0] == [];
    SearchSees(c, s, run, 0, a, []);
  }

  /** The record of an acquired unit names the process that holds it. */
  lemma RecordsNameHolders(c: seq<Attempt>, s: State, run: seq<Move>, a: nat, j: nat)
    requires Initial(c, s) && CanRun(c, s, run) && a < |c|
    requires |Led(c, s, run).stages| == |c| && Led(c, s, run).stages[a].Acquired?
    requires j < |Led(c, s, run).stages[a].files|
    ensures var t := Led(c, s, run); RecordAt(t, t.stages[a].files[j]).owner == Some(c[a].owner)
  {
    RunKeepsInvariant(c, s, run);
    InvariantAt(c, Led(c, s, run), a);
    var files := Led(c, s, run).stages[a].files;
    assert files[j] in files;
  }

  // ----- with nobody else about

  ghost predicate Free(s: State, u: Unit) {
    u !in s.locks && (RecordAt(s, u).owner == None || RecordAt(s, u).children <= s.dead)
  }

  /** The unit the attempt has locked beside those it was granted. */
  predicate Pending(a: Attempt, stage: Stage, u: Unit) {
    (stage.Checking? || stage.Writing?) && |stage.files| < |a.names| && u == UnitOf(a, a.names[|stage.files|], stage.id)
  }

  /** What an attempt that moves alone has left as it was, and what it has taken. */
  ghost predicate LeftAlone(c: seq<Attempt>, s: State, t: State, a: nat)
    requires a < |c| && |t.stages| == |c|
  {
    var stage := t.stages[a];
    stage.Trying? || stage.Checking? || stage.Writing? || stage.Acquired? ==>
      && t.dead == s.dead
      && (forall u :: Get(t.locks, u) != Some(a) ==> Get(t.locks, u) == Get(s.locks, u))
      && (forall u :: Get(t.locks, u) == Some(a) ==> u !in s.locks)
      && (forall u :: u !in stage.files && !(stage.Writing? && Pending(c[a], stage, u)) ==>
                        RecordAt(t, u) == RecordAt(s, u))
      && (forall u :: u in stage.files || (stage.Writing? && Pending(c[a], stage, u)) ==> Free(s, u))
  }

  lemma OwnStepLeavesAlone(c: seq<Attempt>, s: State, t: State, m: Move, a: nat)
    requires Invariant(c, t) && a < |c| && Moves(m, a) && Enabled(c, t, m) && LeftAlone(c, s, t, a)
    ensures |After(c, t, m).stages| == |c| && LeftAlone(c, s, After(c, t, m), a)
  {
    hide StageOk, RecordOk, ChildrenKept, OwnersFirst;
    InvariantAt(c, t, a);
    match m
    case Try(_) => TryLeavesAlone(c, s, t, a);
    case Recover(_) => RecoverLeavesAlone(c, s, t, a);
    case Write(_) => WriteLeavesAlone(c, s, t, a);
    case RecordChild(_, _, _) =>
    case Drop(_) =>
    case Unlock(_) =>
  }

  lemma TryLeavesAlone(c: seq<Attempt>, s: State, t: State, a: nat)
    requires Invariant(c, t) && a < |c| && Enabled(c, t, Try(a)) && LeftAlone(c, s, t, a)
    ensures |After(c, t, Try(a)).stages| == |c| && LeftAlone(c, s, After(c, t, Try(a)), a)
  {
    hide StageOk, RecordOk, ChildrenKept, OwnersFirst, LocksAgree, Free;
  }

  lemma RecoverLeavesAlone(c: seq<Attempt>, s: State, t: State, a: nat)
    requires Invariant(c, t) && a < |c| && Enabled(c, t, Recover(a)) && LeftAlone(c, s, t, a)
    ensures |After(c, t, Recover(a)).stages| == |c| && LeftAlone(c, s, After(c, t, Recover(a)), a)
  {
    hide Invariant, RecordOk;
    var stage, u := t.stages[a], Next(c[a], t.stages[a]);
    InvariantAt(c, t, a);
    NextIsNotGranted(c[a], stage.files, stage.id);
    HeldIsLocked(c, t, a, u);
  }

  lemma WriteLeavesAlone(c: seq<Attempt>, s: State, t: State, a: nat)
    requires Invariant(c, t) && a < |c| && Enabled(c, t, Write(a)) && LeftAlone(c, s, t, a)
    ensures |After(c, t, Write(a)).stages| == |c| && LeftAlone(c, s, After(c, t, Write(a)), a)
  {
    hide Invariant, RecordOk, Free;
    var stage, u := t.stages[a], Next(c[a], t.stages[a]);
    InvariantAt(c, t, a);
    assert Pending(c[a], stage, u);
  }

  /** From move `from` on every move is the attempt's own. */
  ghost predicate Alone(run: seq<Move>, from: nat, a: nat) {
    forall k :: from <= k < |run| ==> Moves(run[k], a)
  }

  lemma {:induction false} AloneLeaves(c: seq<Attempt>, s: State, run: seq<Move>, from: nat, a: nat)
    requires Invariant(c, s) && CanRun(c, s, run) && a < |c| && from <= |run| && Alone(run, from, a)
    requires CanRun(c, s, run[..from]) && |Led(c, s, run[..from]).stages| == |c|
    requires Led(c, s, run[..from]).stages[a] == Trying([], 0)
    ensures |Led(c, s, run).stages| == |c| && LeftAlone(c, Led(c, s, run[..from]), Led(c, s, run), a)
    decreases |run|
  {
    hide Invariant, After, Enabled, LeftAlone;
    RunKeepsInvariant(c, s, run);
    if |run| == from {
      assert run[..from] == run;
      AtFirst(c, Led(c, s, run), a);
    } else {
      var before, m := run[..|run| - 1], run[|run| - 1];
      assert before + [m] == run && before[..from] == run[..from];
      LedOn(c, s, before, m);
      AloneLeaves(c, s, before, from, a);
      RunKeepsInvariant(c, s, before);
      OwnStepLeavesAlone(c, Led(c, s, run[..from]), Led(c, s, before), m, a);
    }
  }

  lemma AtFirst(c: seq<Attempt>, s: State, a: nat)
    requires Invariant(c, s) && a < |c| && s.stages[a] == Trying([], 0)
    ensures LeftAlone(c, s, s, a)
  {
    hide StageOk, RecordOk, ChildrenKept, OwnersFirst;
    forall u ensures Get(s.locks, u) != Some(a) {
      assert Holds(c[a], s.stages[a], u) <==> Get(s.locks, u) == Some(a);
    }
  }

  /** What is refused to an attempt that moves alone was not free when it began. */
  lemma RefusedWasTaken(c: seq<Attempt>, s: State, t: State, a: nat, r: Name, id: nat)
    requires Invariant(c, t) && a < |c| && LeftAlone(c, s, t, a)
    requires Looking(c[a], t.stages[a], r, id) && Refused(t, a, UnitOf(c[a], r, id))
    ensures !Free(s, UnitOf(c[a], r, id))
  {
    hide Invariant, RecordOk;
    InvariantAt(c, t, a);
    NextIsNotGranted(c[a], t.stages[a].files, id);
  }

  lemma SeenWasTaken(c: seq<Attempt>, s: State, run: seq<Move>, from: nat, a: nat, r: Name, n: nat, id: nat)
    requires Invariant(c, s) && CanRun(c, s, run) && a < |c| && from <= |run| && Alone(run, from, a)
    requires CanRun(c, s, run[..from]) && |Led(c, s, run[..from]).stages| == |c|
    requires Led(c, s, run[..from]).stages[a] == Trying([], 0)
    requires SeenBelow(c, s, run, from, a, r, n) && id < n
    ensures !Free(Led(c, s, run[..from]), UnitOf(c[a], r, id))
  {
    hide Invariant, LeftAlone, Refused, Looking, Free;
    assert Seen(c, s, run, from, a, r, id);
    var k: nat :| from <= k && RefusedAt(c, s, run, k, a, r, id);
    assert run[..k][..from] == run[..from];
    AloneLeaves(c, s, run[..k], from, a);
    RunKeepsInvariant(c, s, run[..k]);
    RefusedWasTaken(c, Led(c, s, run[..from]), Led(c, s, run[..k]), a, r, id);
  }

  /** With nobody else moving since it began, an attempt takes the lowest free unit of each resource, and ends
      blocked only on one that had none. */
  lemma AloneTakesLowest(c: seq<Attempt>, s: State, run: seq<Move>, from: nat, a: nat)
    requires Invariant(c, s) && CanRun(c, s, run) && a < |c| && from <= |run| && Alone(run, from, a)
    requires CanRun(c, s, run[..from]) && |Led(c, s, run[..from]).stages| == |c|
    requires Led(c, s, run[..from]).stages[a] == Trying([], 0)
    ensures |Led(c, s, run).stages| == |c|
    ensures var before, stage := Led(c, s, run[..from]), Led(c, s, run).stages[a];
            match stage
            case Acquired(files) =>
              forall j :: 0 <= j < |files| ==>
                && Free(before, files[j])
                && forall id: nat :: id < files[j].id ==> !Free(before, UnitOf(c[a], files[j].name, id))
            case Ended(BlockedOn(r)) =>
              Known(c[a], r) && forall id: nat :: id < c[a].capacity[r] ==> !Free(before, UnitOf(c[a], r, id))
            case _ => true
  {
    hide Invariant, SeenBelow, Free;
    SearchSees(c, s, run, from, a, []);
    AloneLeaves(c, s, run, from, a);
    var before, stage := Led(c, s, run[..from]), Led(c, s, run).stages[a];
    match stage
    case Acquired(files) =>
      forall j | 0 <= j < |files|
        ensures Free(before, files[j])
        ensures forall id: nat :: id < files[j].id ==> !Free(before, UnitOf(c[a], files[j].name, id))
      {
        assert files[j] in files;
        forall id: nat | id < files[j].id ensures !Free(before, UnitOf(c[a], files[j].name, id)) {
          SeenWasTaken(c, s, run, from, a, files[j].name, files[j].id, id);
        }
      }
    case Ended(BlockedOn(r)) =>
      forall id: nat | id < c[a].capacity[r] ensures !Free(before, UnitOf(c[a], r, id)) {
        SeenWasTaken(c, s, run, from, a, r, c[a].capacity[r], id);
      }
    case _ =>
  }

  /** Some unit of the pool could have been had at every move since `from`. */
  ghost predicate OpenThroughout(c: seq<Attempt>, s: State, run: seq<Move>, from: nat, a: nat, r: Name)
    requires a < |c| && Known(c[a], r)
  {
    exists id: nat :: id < c[a].capacity[r] && NeverRefused(c, s, run, from, a, UnitOf(c[a], r, id))
  }

  ghost predicate NeverRefused(c: seq<Attempt>, s: State, run: seq<Move>, from: nat, a: nat, u: Unit) {
    forall k: nat :: from <= k < |run| && CanRun(c, s, run[..k]) ==> !Refused(Led(c, s, run[..k]), a, u)
  }

  lemma OpenIsNotAllSeen(c: seq<Attempt>, s: State, run: seq<Move>, from: nat, a: nat, r: Name)
    requires a < |c| && Known(c[a], r) && SeenBelow(c, s, run, from, a, r, c[a].capacity[r])
    ensures !OpenThroughout(c, s, run, from, a, r)
  {
    hide Refused, Looking;
    forall id: nat | id < c[a].capacity[r] ensures !NeverRefused(c, s, run, from, a, UnitOf(c[a], r, id)) {
      assert Seen(c, s, run, from, a, r, id);
      var k: nat :| from <= k && RefusedAt(c, s, run, k, a, r, id);
    }
  }
}
