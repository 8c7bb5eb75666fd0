/** Resource leases: many attempts, in any number of processes, take their units one
    file lock at a time over shared lock and record files. */
module Leases {
  import opened Wrappers
  import opened Names

  /** A process identity: a process number together with its start time, so it never comes back. */
  type Process = nat

  /** One lease file: a resource, the place its scope puts its pool in, and the number of the unit. */
  datatype Unit = Unit(name: Name, place: string, id: nat)

  /** A call to acquire: who asks, for which resources, in the order they are taken, and
      what the caller's configuration says of each. */
  datatype Attempt = Attempt(owner: Process, names: seq<Name>, capacity: map<Name, nat>, places: map<Name, string>)

  function UnitOf(a: Attempt, name: Name, id: nat): Unit {
    Unit(name, if name in a.places then a.places[name] else "", id)
  }

  datatype Outcome = BlockedOn(resource: Name) | Failed | Dropped

  /** Where an attempt stands; `files` are the units it has been granted so far. */
  datatype Stage =
    | Trying(files: seq<Unit>, id: nat)
    | Checking(files: seq<Unit>, id: nat)
    | Writing(files: seq<Unit>, id: nat)
    | Acquired(files: seq<Unit>)
    | Releasing(files: seq<Unit>, next: nat, outcome: Outcome)
    | Ended(outcome: Outcome)
    | Dead

  /** What a lease file says. */
  datatype Record = Record(owner: Option<Process>, children: set<Process>)

  /** `recorded` remembers every child that was ever recorded under a unit. */
  datatype State = State(
    stages: seq<Stage>, locks: map<Unit, nat>, records: map<Unit, Record>,
    dead: set<Process>, recorded: set<(Unit, Process)>)

  /** One step of one attempt, or of the world around them. */
  datatype Move =
    | Try(attempt: nat)
    | Recover(attempt: nat)
    | Write(attempt: nat)
    | RecordChild(attempt: nat, file: nat, child: Process)
    | Drop(attempt: nat)
    | Unlock(attempt: nat)
    | Exit(process: Process)
    | Reap(unit: Unit)

  // ----- the order in which resources are taken

  predicate Ascending(names: seq<Name>) {
    forall i, j :: 0 <= i < j < |names| ==> Less(names[i], names[j])
  }

  function Insert(sorted: seq<Name>, name: Name): seq<Name> {
    if sorted == [] then [name]
    else if sorted[0] == name then sorted
    else if Less(sorted[0], name) then [sorted[0]] + Insert(sorted[1..], name)
    else [name] + sorted
  }

  /** The requested names, sorted and without repetition. */
  function InOrder(names: seq<Name>): seq<Name> {
    if names == [] then [] else Insert(InOrder(names[..|names| - 1]), names[|names| - 1])
  }

  lemma {:induction false} InsertAscends(sorted: seq<Name>, name: Name)
    requires Ascending(sorted)
    ensures Ascending(Insert(sorted, name))
    ensures forall n :: n in Insert(sorted, name) <==> n in sorted || n == name
  {
    if sorted != [] {
      var first, rest := sorted[0], sorted[1..];
      assert sorted == [first] + rest;
      LessTotal(first, name);
      InsertAscends(rest, name);
      if Less(first, name) {
        forall n | n in Insert(rest, name) ensures Less(first, n) {
          if n != name {
            var j :| 0 <= j < |rest| && rest[j] == n;
            assert Less(sorted[0], sorted[j + 1]);
          }
        }
      } else if first != name {
        forall n | n in sorted ensures Less(name, n) {
          var j :| 0 <= j < |sorted| && sorted[j] == n;
          if j > 0 {
            LessTransitive(name, first, n);
          }
        }
      }
    }
  }

  lemma {:induction false} InOrderAscends(names: seq<Name>)
    ensures Ascending(InOrder(names)) && forall n :: n in InOrder(names) <==> n in names
  {
    if names != [] {
      var before, last := names[..|names| - 1], names[|names| - 1];
      InOrderAscends(before);
      InsertAscends(InOrder(before), last);
      assert names == before + [last];
    }
  }

  // ----- the steps

  function RecordAt(s: State, u: Unit): Record {
    if u in s.records then s.records[u] else Record(None, {})
  }

  /** The unit an attempt is looking at. */
  function Next(a: Attempt, stage: Stage): Unit
    requires (stage.Trying? || stage.Checking? || stage.Writing?) && |stage.files| < |a.names|
  {
    UnitOf(a, a.names[|stage.files|], stage.id)
  }

  predicate Known(a: Attempt, name: Name) {
    name in a.capacity && 0 < a.capacity[name]
  }

  /** May the unit be taken over? Only if no recorded child is alive. */
  predicate Recoverable(s: State, u: Unit) {
    RecordAt(s, u).owner == None || RecordAt(s, u).children <= s.dead
  }

  predicate Enabled(c: seq<Attempt>, s: State, m: Move) {
    match m
    case Try(a) => a < |c| && a < |s.stages| && s.stages[a].Trying?
    case Recover(a) => a < |c| && a < |s.stages| && s.stages[a].Checking? && |s.stages[a].files| < |c[a].names|
    case Write(a) => a < |c| && a < |s.stages| && s.stages[a].Writing? && |s.stages[a].files| < |c[a].names|
    case RecordChild(a, j, p) => a < |c| && a < |s.stages| && s.stages[a].Acquired? && j < |s.stages[a].files|
    case Drop(a) => a < |c| && a < |s.stages| && s.stages[a].Acquired?
    case Unlock(a) => a < |c| && a < |s.stages| && s.stages[a].Releasing?
    case Exit(p) => |s.stages| == |c|
    case Reap(u) => u in s.locks && s.locks[u] < |s.stages| && s.stages[s.locks[u]].Dead?
  }

  function At(s: State, a: nat, stage: Stage): State
    requires a < |s.stages|
  {
    s.(stages := s.stages[a := stage])
  }

  /** One turn of the search for a free unit. */
  function Tried(c: seq<Attempt>, s: State, a: nat): State
    requires Enabled(c, s, Try(a))
  {
    var stage := s.stages[a];
    var files := stage.files;
    if |files| >= |c[a].names| then At(s, a, Acquired(files))
    else
      var name := c[a].names[|files|];
      if !Known(c[a], name) then At(s, a, Releasing(files, 0, Failed))
      else if stage.id >= c[a].capacity[name] then At(s, a, Releasing(files, 0, BlockedOn(name)))
      else if UnitOf(c[a], name, stage.id) in s.locks then At(s, a, Trying(files, stage.id + 1))
      else At(s, a, Checking(files, stage.id)).(locks := s.locks[UnitOf(c[a], name, stage.id) := a])
  }

  function After(c: seq<Attempt>, s: State, m: Move): State
    requires Enabled(c, s, m)
  {
    match m
    case Try(a) => Tried(c, s, a)
    case Recover(a) =>
      var stage, u := s.stages[a], Next(c[a], s.stages[a]);
      if Recoverable(s, u) then
        At(s, a, Writing(stage.files, stage.id)).(records := s.records[u := Record(None, {})])
      else
        At(s, a, Trying(stage.files, stage.id + 1)).(locks := s.locks - {u})
    case Write(a) =>
      var stage, u := s.stages[a], Next(c[a], s.stages[a]);
      At(s, a, Trying(stage.files + [u], 0)).(records := s.records[u := Record(Some(c[a].owner), {})])
    case RecordChild(a, j, p) =>
      var u := s.stages[a].files[j];
      s.(records := s.records[u := RecordAt(s, u).(children := RecordAt(s, u).children + {p})],
         recorded := s.recorded + {(u, p)})
    case Drop(a) => At(s, a, Releasing(s.stages[a].files, 0, Dropped))
    case Unlock(a) =>
      var stage := s.stages[a];
      if stage.next < |stage.files| then
        At(s, a, stage.(next := stage.next + 1)).(locks := s.locks - {stage.files[stage.next]})
      else At(s, a, Ended(stage.outcome))
    case Exit(p) =>
      s.(dead := s.dead + {p},
         stages := seq(|c|, a requires 0 <= a < |c| => if c[a].owner == p && !s.stages[a].Ended? then Dead
           else s.stages[a]))
    case Reap(u) => s.(locks := s.locks - {u})
  }

  // ----- what every step keeps

  /** The granted files are the first requested resources, each with a unit below the capacity. */
  predicate Placed(a: Attempt, files: seq<Unit>) {
    |files| <= |a.names| && forall j :: 0 <= j < |files| ==>
      files[j] == UnitOf(a, a.names[j], files[j].id) && Known(a, a.names[j]) && files[j].id < a.capacity[a.names[j]]
  }

  predicate StageOk(a: Attempt, stage: Stage) {
    match stage
    case Trying(files, id) => Placed(a, files)
    case Checking(files, id) => Placed(a, files) && |files| < |a.names| && Known(a, a.names[|files|])
      && id < a.capacity[a.names[|files|]]
    case Writing(files, id) => Placed(a, files) && |files| < |a.names| && Known(a, a.names[|files|])
      && id < a.capacity[a.names[|files|]]
    case Acquired(files) => Placed(a, files) && |files| == |a.names|
    case Releasing(files, next, outcome) =>
      Placed(a, files) && next <= |files| && OutcomeOk(a, outcome)
        && (outcome.BlockedOn? ==> |files| < |a.names| && outcome.resource == a.names[|files|])
    case Ended(outcome) => OutcomeOk(a, outcome)
    case Dead => true
  }

  /** An attempt fails only over a resource that is unknown or has no capacity. */
  predicate OutcomeOk(a: Attempt, outcome: Outcome) {
    match outcome
    case BlockedOn(r) => r in a.names
    case Failed => exists r :: r in a.names && !Known(a, r)
    case Dropped => true
  }

  /** The units an attempt has locked, according to where it stands. */
  predicate Holds(a: Attempt, stage: Stage, u: Unit) {
    match stage
    case Trying(files, _) => u in files
    case Checking(files, id) => u in files || (|files| < |a.names| && u == UnitOf(a, a.names[|files|], id))
    case Writing(files, id) => u in files || (|files| < |a.names| && u == UnitOf(a, a.names[|files|], id))
    case Acquired(files) => u in files
    case Releasing(files, next, _) => next <= |files| && u in files[next..]
    case _ => false
  }

  ghost predicate LocksAgree(c: seq<Attempt>, s: State)
    requires |s.stages| == |c|
  {
    && (forall u :: u in s.locks ==> s.locks[u] < |c|)
    && forall a, u :: 0 <= a < |c| && !s.stages[a].Dead? ==>
      (Holds(c[a], s.stages[a], u) <==> Get(s.locks, u) == Some(a))
  }

  /** Every child ever recorded under a unit is dead or still on its record. */
  ghost predicate ChildrenKept(s: State) {
    forall u, p :: (u, p) in s.recorded ==> p in s.dead || p in RecordAt(s, u).children
  }

  /** Children are recorded under an owner. */
  ghost predicate OwnersFirst(s: State) {
    forall u :: RecordAt(s, u).owner == None ==> RecordAt(s, u).children == {}
  }

  predicate IsActive(stage: Stage) {
    stage.Trying? || stage.Checking? || stage.Writing? || stage.Acquired?
  }

  /** A unit about to be granted has a blank record, a granted unit has an owner. */
  predicate RecordOk(a: Attempt, stage: Stage, s: State) {
    && (stage.Writing? && |stage.files| < |a.names| ==> RecordAt(s, Next(a, stage)) == Record(None, {}))
    && (IsActive(stage) ==> forall u :: u in stage.files ==> RecordAt(s, u).owner == Some(a.owner))
  }

  ghost predicate Invariant(c: seq<Attempt>, s: State) {
    && |s.stages| == |c|
    && (forall a :: 0 <= a < |c| ==> Ascending(c[a].names) && StageOk(c[a], s.stages[a]))
    && LocksAgree(c, s) && ChildrenKept(s) && OwnersFirst(s)
    && (forall a :: 0 <= a < |c| ==> RecordOk(c[a], s.stages[a], s))
  }

  /** Every attempt is about to begin, nothing is locked, and the files hold what earlier leases left. */
  ghost predicate Initial(c: seq<Attempt>, s: State) {
    && |s.stages| == |c|
    && (forall a :: 0 <= a < |c| ==> Ascending(c[a].names) && s.stages[a] == Trying([], 0))
    && s.locks == map[] && ChildrenKept(s) && OwnersFirst(s)
  }

  lemma InitialIsInvariant(c: seq<Attempt>, s: State)
    requires Initial(c, s)
    ensures Invariant(c, s)
  {
  }

  /** The granted files are distinct, and none belongs to the resource that comes next. */
  lemma FilesAreDistinct(a: Attempt, files: seq<Unit>, j: nat, name: Name)
    requires Ascending(a.names) && Placed(a, files) && j < |files|
    ensures forall k :: 0 <= k < |files| && k != j ==> files[k] != files[j]
    ensures |files| < |a.names| && name == a.names[|files|] ==> Less(files[j].name, name) && files[j].name != name
  {
    forall k | 0 <= k < |files| && k != j ensures files[k] != files[j] {
      LessTotal(a.names[j], a.names[k]);
    }
    LessTotal(name, name);
  }

  lemma NextIsNotGranted(a: Attempt, files: seq<Unit>, id: nat)
    requires Ascending(a.names) && Placed(a, files) && |files| < |a.names|
    ensures UnitOf(a, a.names[|files|], id) !in files
  {
    forall j | 0 <= j < |files| ensures files[j].name != a.names[|files|] {
      FilesAreDistinct(a, files, j, a.names[|files|]);
    }
  }

  /** One attempt's step touches no lock of another. */
  lemma LocksFrame(c: seq<Attempt>, s: State, t: State, a: nat)
    requires |s.stages| == |c| == |t.stages| && LocksAgree(c, s) && a < |c|
    requires forall b :: 0 <= b < |c| && b != a ==> t.stages[b] == s.stages[b]
    requires !t.stages[a].Dead?
    requires forall u :: Holds(c[a], t.stages[a], u) <==> Get(t.locks, u) == Some(a)
    requires forall u :: Get(t.locks, u) == Get(s.locks, u) ||
                         (Get(s.locks, u) in {None, Some(a)} && Get(t.locks, u) in {None, Some(a)})
    ensures LocksAgree(c, t)
  {
    forall u | u in t.locks ensures t.locks[u] < |c| {
      assert Get(t.locks, u) == Some(t.locks[u]);
      assert u in s.locks ==> Get(s.locks, u) == Some(s.locks[u]);
    }
    forall b, u | 0 <= b < |c| && b != a && !t.stages[b].Dead?
      ensures Holds(c[b], t.stages[b], u) <==> Get(t.locks, u) == Some(b)
    {
      assert Holds(c[b], s.stages[b], u) <==> Get(s.locks, u) == Some(b);
    }
  }

  lemma TryKeepsLocks(c: seq<Attempt>, s: State, a: nat)
    requires Invariant(c, s) && Enabled(c, s, Try(a))
    ensures LocksAgree(c, Tried(c, s, a))
  {
    var t, files := Tried(c, s, a), s.stages[a].files;
    forall u ensures Holds(c[a], t.stages[a], u) <==> Get(t.locks, u) == Some(a) {
      assert Holds(c[a], s.stages[a], u) <==> Get(s.locks, u) == Some(a);
      assert files[0..] == files;
    }
    LocksFrame(c, s, t, a);
  }

  lemma RecoverKeepsLocks(c: seq<Attempt>, s: State, a: nat)
    requires Invariant(c, s) && Enabled(c, s, Recover(a))
    ensures LocksAgree(c, After(c, s, Recover(a)))
  {
    var t := After(c, s, Recover(a));
    NextIsNotGranted(c[a], s.stages[a].files, s.stages[a].id);
    forall u ensures Holds(c[a], t.stages[a], u) <==> Get(t.locks, u) == Some(a) {
      assert Holds(c[a], s.stages[a], u) <==> Get(s.locks, u) == Some(a);
    }
    assert Holds(c[a], s.stages[a], Next(c[a], s.stages[a]));
    LocksFrame(c, s, t, a);
  }

  lemma WriteKeepsLocks(c: seq<Attempt>, s: State, a: nat)
    requires Invariant(c, s) && Enabled(c, s, Write(a))
    ensures LocksAgree(c, After(c, s, Write(a)))
  {
    var t := After(c, s, Write(a));
    forall u ensures Holds(c[a], t.stages[a], u) <==> Get(t.locks, u) == Some(a) {
      assert Holds(c[a], s.stages[a], u) <==> Get(s.locks, u) == Some(a);
    }
    LocksFrame(c, s, t, a);
  }

  lemma UnlockKeepsLocks(c: seq<Attempt>, s: State, a: nat)
    requires Invariant(c, s) && Enabled(c, s, Unlock(a))
    ensures LocksAgree(c, After(c, s, Unlock(a)))
  {
    var t, stage := After(c, s, Unlock(a)), s.stages[a];
    var files := stage.files;
    if stage.next < |files| {
      FilesAreDistinct(c[a], files, stage.next, []);
      assert files[stage.next..] == [files[stage.next]] + files[stage.next + 1..];
      assert Holds(c[a], stage, files[stage.next]);
    }
    forall u ensures Holds(c[a], t.stages[a], u) <==> Get(t.locks, u) == Some(a) {
      assert Holds(c[a], stage, u) <==> Get(s.locks, u) == Some(a);
    }
    LocksFrame(c, s, t, a);
  }

  lemma DropKeepsLocks(c: seq<Attempt>, s: State, a: nat)
    requires Invariant(c, s) && Enabled(c, s, Drop(a))
    ensures LocksAgree(c, After(c, s, Drop(a)))
  {
    var t, files := After(c, s, Drop(a)), s.stages[a].files;
    forall u ensures Holds(c[a], t.stages[a], u) <==> Get(t.locks, u) == Some(a) {
      assert Holds(c[a], s.stages[a], u) <==> Get(s.locks, u) == Some(a);
      assert files[0..] == files;
    }
    LocksFrame(c, s, t, a);
  }

  lemma WorldKeepsLocks(c: seq<Attempt>, s: State, m: Move)
    requires Invariant(c, s) && Enabled(c, s, m) && (m.Exit? || m.Reap? || m.RecordChild?)
    ensures LocksAgree(c, After(c, s, m))
  {
    var t := After(c, s, m);
    forall a, u | 0 <= a < |c| && !t.stages[a].Dead?
      ensures Holds(c[a], t.stages[a], u) <==> Get(t.locks, u) == Some(a)
    {
      assert Holds(c[a], s.stages[a], u) <==> Get(s.locks, u) == Some(a);
    }
  }

  lemma MoveKeepsLocks(c: seq<Attempt>, s: State, m: Move)
    requires Invariant(c, s) && Enabled(c, s, m)
    ensures LocksAgree(c, After(c, s, m))
  {
    match m
    case Try(a) => TryKeepsLocks(c, s, a);
    case Recover(a) => RecoverKeepsLocks(c, s, a);
    case Write(a) => WriteKeepsLocks(c, s, a);
    case Drop(a) => DropKeepsLocks(c, s, a);
    case Unlock(a) => UnlockKeepsLocks(c, s, a);
    case _ => WorldKeepsLocks(c, s, m);
  }

  predicate Moves(m: Move, a: nat) {
    (m.Try? || m.Recover? || m.Write? || m.RecordChild? || m.Drop? || m.Unlock?) && m.attempt == a
  }

  lemma OwnStage(c: seq<Attempt>, s: State, m: Move, a: nat)
    requires Invariant(c, s) && Enabled(c, s, m) && a < |c| && Moves(m, a)
    ensures StageOk(c[a], After(c, s, m).stages[a])
  {
    var stage := s.stages[a];
    assert StageOk(c[a], stage);
    if stage.Trying? && |stage.files| < |c[a].names| {
      assert c[a].names[|stage.files|] in c[a].names;
    }
  }

  lemma MoveKeepsStage(c: seq<Attempt>, s: State, m: Move, a: nat)
    requires Invariant(c, s) && Enabled(c, s, m) && a < |c|
    ensures |After(c, s, m).stages| == |c| && StageOk(c[a], After(c, s, m).stages[a])
  {
    if Moves(m, a) {
      OwnStage(c, s, m, a);
    } else {
      assert StageOk(c[a], s.stages[a]);
    }
  }

  lemma HeldIsLocked(c: seq<Attempt>, s: State, a: nat, u: Unit)
    requires Invariant(c, s) && a < |c| && !s.stages[a].Dead? && Holds(c[a], s.stages[a], u)
    ensures Get(s.locks, u) == Some(a)
  {
    hide Holds, StageOk, RecordOk, ChildrenKept, OwnersFirst;
  }

  /** A step that changes a record has its unit locked. */
  lemma TouchedIsLocked(c: seq<Attempt>, s: State, m: Move)
    requires Invariant(c, s) && Enabled(c, s, m)
    ensures m.Recover? || m.Write? ==> Get(s.locks, Next(c[m.attempt], s.stages[m.attempt])) == Some(m.attempt)
    ensures m.RecordChild? ==> Get(s.locks, s.stages[m.attempt].files[m.file]) == Some(m.attempt)
  {
    hide LocksAgree, StageOk, RecordOk, ChildrenKept, OwnersFirst;
    if m.Recover? || m.Write? {
      HeldIsLocked(c, s, m.attempt, Next(c[m.attempt], s.stages[m.attempt]));
    } else if m.RecordChild? {
      HeldIsLocked(c, s, m.attempt, s.stages[m.attempt].files[m.file]);
    }
  }

  /** No step changes the record of a unit that another attempt has locked. */
  lemma RecordsFrame(c: seq<Attempt>, s: State, m: Move, b: nat, u: Unit)
    requires Invariant(c, s) && Enabled(c, s, m) && b < |c| && !Moves(m, b)
    requires !s.stages[b].Dead? && Holds(c[b], s.stages[b], u)
    ensures RecordAt(After(c, s, m), u) == RecordAt(s, u)
  {
    hide Invariant, Holds, Recoverable;
    HeldIsLocked(c, s, b, u);
    TouchedIsLocked(c, s, m);
  }

  lemma MoveKeepsChildren(c: seq<Attempt>, s: State, m: Move)
    requires Invariant(c, s) && Enabled(c, s, m)
    ensures ChildrenKept(After(c, s, m))
  {
    var t := After(c, s, m);
    forall u, p | (u, p) in t.recorded ensures p in t.dead || p in RecordAt(t, u).children {
      if m.Write? {
        assert RecordOk(c[m.attempt], s.stages[m.attempt], s);
      }
    }
  }

  lemma MoveKeepsOwners(c: seq<Attempt>, s: State, m: Move)
    requires Invariant(c, s) && Enabled(c, s, m)
    ensures OwnersFirst(After(c, s, m))
  {
    if m.RecordChild? {
      assert RecordOk(c[m.attempt], s.stages[m.attempt], s);
      assert s.stages[m.attempt].files[m.file] in s.stages[m.attempt].files;
    }
    var t := After(c, s, m);
    forall u | RecordAt(t, u).owner == None ensures RecordAt(t, u).children == {} {
      assert RecordAt(s, u).owner == None ==> RecordAt(s, u).children == {};
    }
  }

  lemma InvariantAt(c: seq<Attempt>, s: State, a: nat)
    requires Invariant(c, s) && a < |c|
    ensures |s.stages| == |c|
    ensures Ascending(c[a].names) && StageOk(c[a], s.stages[a]) && RecordOk(c[a], s.stages[a], s)
  {
  }

  lemma OwnRecord(c: seq<Attempt>, s: State, m: Move, b: nat)
    requires Invariant(c, s) && Enabled(c, s, m) && b < |c| && Moves(m, b)
    ensures RecordOk(c[b], After(c, s, m).stages[b], After(c, s, m))
  {
    hide Invariant, Ascending, Placed, Recoverable, OutcomeOk;
    InvariantAt(c, s, b);
    var stage, t := s.stages[b], After(c, s, m);
    if stage.Checking? || stage.Writing? {
      NextIsNotGranted(c[b], stage.files, stage.id);
      forall u | u in stage.files ensures RecordAt(t, u) == RecordAt(s, u) {
      }
    }
  }

  lemma OthersRecord(c: seq<Attempt>, s: State, m: Move, b: nat)
    requires Invariant(c, s) && Enabled(c, s, m) && b < |c| && !Moves(m, b)
    ensures |After(c, s, m).stages| == |c| && RecordOk(c[b], After(c, s, m).stages[b], After(c, s, m))
  {
    var t, stage := After(c, s, m), s.stages[b];
    assert t.stages[b] == stage || t.stages[b].Dead?;
    if IsActive(stage) {
      assert RecordOk(c[b], stage, s);
      forall u | Holds(c[b], stage, u) ensures RecordAt(t, u) == RecordAt(s, u) {
        RecordsFrame(c, s, m, b, u);
      }
      assert stage.Writing? && |stage.files| < |c[b].names| ==> Holds(c[b], stage, Next(c[b], stage));
      assert forall u :: u in stage.files ==> Holds(c[b], stage, u);
    }
  }

  lemma MoveKeepsInvariant(c: seq<Attempt>, s: State, m: Move)
    requires Invariant(c, s) && Enabled(c, s, m)
    ensures Invariant(c, After(c, s, m))
  {
    MoveKeepsLocks(c, s, m);
    MoveKeepsChildren(c, s, m);
    MoveKeepsOwners(c, s, m);
    var t := After(c, s, m);
    forall a | 0 <= a < |c| ensures |t.stages| == |c| && StageOk(c[a], t.stages[a]) && RecordOk(c[a], t.stages[a], t) {
      MoveKeepsStage(c, s, m, a);
      if Moves(m, a) {
        OwnRecord(c, s, m, a);
      } else {
        OthersRecord(c, s, m, a);
      }
    }
  }

  // ----- whole interleavings

  /** A run from `s`: each move is enabled where the moves before it have led. */
  ghost predicate CanRun(c: seq<Attempt>, s: State, run: seq<Move>)
    decreases |run|, 0
  {
    run == [] || (CanRun(c, s, run[..|run| - 1]) && Enabled(c, Led(c, s, run[..|run| - 1]), run[|run| - 1]))
  }

  ghost function Led(c: seq<Attempt>, s: State, run: seq<Move>): State
    requires CanRun(c, s, run)
    decreases |run|, 1
  {
    if run == [] then s else After(c, Led(c, s, run[..|run| - 1]), run[|run| - 1])
  }

  lemma {:induction false} RunKeepsInvariant(c: seq<Attempt>, s: State, run: seq<Move>)
    requires Invariant(c, s) && CanRun(c, s, run)
    ensures Invariant(c, Led(c, s, run))
    decreases |run|
  {
    if run != [] {
      var before := run[..|run| - 1];
      RunKeepsInvariant(c, s, before);
      MoveKeepsInvariant(c, Led(c, s, before), run[|run| - 1]);
    }
  }

  /** Lease exclusion: in every interleaving, acquired leases are complete, hold units
      below the capacity, and no two of them hold the same unit. */
  lemma LeasesExclude(c: seq<Attempt>, s: State, run: seq<Move>, a: nat, j: nat, b: nat, k: nat)
    requires Initial(c, s) && CanRun(c, s, run)
    requires a < |c| && b < |c| && (a != b || j != k)
    requires |Led(c, s, run).stages| == |c|
    requires var t := Led(c, s, run); t.stages[a].Acquired? && t.stages[b].Acquired?
    requires j < |c[a].names| && k < |c[b].names|
    ensures var x, y := Led(c, s, run).stages[a].files, Led(c, s, run).stages[b].files;
            && |x| == |c[a].names| && |y| == |c[b].names|
            && x[j].name == c[a].names[j] && x[j].name in c[a].capacity && x[j].id < c[a].capacity[x[j].name]
            && (x[j].name == y[k].name && x[j].place == y[k].place ==> x[j].id != y[k].id)
  {
    RunKeepsInvariant(c, s, run);
    var t := Led(c, s, run);
    var x, y := t.stages[a].files, t.stages[b].files;
    assert StageOk(c[a], t.stages[a]) && StageOk(c[b], t.stages[b]);
    if x[j] == y[k] {
      if a == b {
        FilesAreDistinct(c[a], x, j, []);
      } else {
        OneHolder(c, t, a, b, x[j]);
      }
    }
  }

  lemma OneHolder(c: seq<Attempt>, s: State, a: nat, b: nat, u: Unit)
    requires Invariant(c, s) && a < |c| && b < |c| && a != b
    ensures !s.stages[a].Dead? && !s.stages[b].Dead? ==> !(Holds(c[a], s.stages[a], u) && Holds(c[b], s.stages[b], u))
  {
    if !s.stages[a].Dead? && !s.stages[b].Dead? {
      assert Holds(c[a], s.stages[a], u) <==> Get(s.locks, u) == Some(a);
      assert Holds(c[b], s.stages[b], u) <==> Get(s.locks, u) == Some(b);
    }
  }

  /** An attempt that ended, blocked or not, has left no lock behind. */
  lemma EndedHoldsNothing(c: seq<Attempt>, s: State, run: seq<Move>, a: nat, u: Unit)
    requires Initial(c, s) && CanRun(c, s, run) && a < |c|
    requires a < |Led(c, s, run).stages| && Led(c, s, run).stages[a].Ended?
    ensures Get(Led(c, s, run).locks, u) != Some(a)
  {
    RunKeepsInvariant(c, s, run);
    var t := Led(c, s, run);
    assert Holds(c[a], t.stages[a], u) <==> Get(t.locks, u) == Some(a);
  }

  /** The step writes `u` into the granted files of attempt `a`. */
  predicate Grants(c: seq<Attempt>, s: State, m: Move, a: nat, u: Unit) {
    m == Write(a) && Enabled(c, s, m) && u == Next(c[a], s.stages[a])
  }

  /** A unit is never granted while a child that was ever recorded under it is alive,
      whatever became of the leases that recorded it. */
  lemma GrantsNeedDeadChildren(c: seq<Attempt>, s: State, run: seq<Move>, m: Move, a: nat, u: Unit, p: Process)
    requires Initial(c, s) && CanRun(c, s, run) && Grants(c, Led(c, s, run), m, a, u)
    requires (u, p) in Led(c, s, run).recorded
    ensures p in Led(c, s, run).dead
  {
    RunKeepsInvariant(c, s, run);
    var t := Led(c, s, run);
    assert StageOk(c[a], t.stages[a]) && RecordOk(c[a], t.stages[a], t);
  }

  /** The files of an attempt grow by grants only. */
  lemma OnlyGrantsAdd(c: seq<Attempt>, s: State, m: Move, a: nat, u: Unit)
    requires Invariant(c, s) && Enabled(c, s, m) && a < |c|
    requires !s.stages[a].Ended? && !s.stages[a].Dead? && u !in s.stages[a].files
    requires |After(c, s, m).stages| == |c|
    requires !After(c, s, m).stages[a].Ended? && !After(c, s, m).stages[a].Dead? && u in After(c, s, m).stages[a].files
    ensures Grants(c, s, m, a, u)
  {
    hide LocksAgree, RecordOk, ChildrenKept, OwnersFirst, StageOk, Ascending, Recoverable;
  }
}
