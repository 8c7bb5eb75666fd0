/** Whole runs: any sequence of adds, removals and updates, each finished,
    refused, or stopped at any step and then aborted or resumed. */
module Runs {
  import opened Wrappers
  import opened Names
  import opened Reachability
  import opened Composition
  import opened Overlay
  import opened LockedLists
  import opened Checks

  /** The project as `create` leaves it before its first feature. */
  function Created(o: Origin, template: string, identity: Identity): Disk {
    Disk(o.base, Lock(template, identity, o.base - o.app, map[]), map[], None)
  }

  /** What a caller can check before the operation: an add covers as the locked lists allow; an update leaves the
      owners of each path related, and disturbs none called "base" that it does not reach. */
  ghost predicate RespectsStacks(d: Disk, operation: Operation, r: Recipe, f: Name) {
    PerformVerdict(d, operation, r, f).Proceed? ==>
      match operation
      case Add => CoversByLock(d, r, f)
      case Remove => true
      case Update => StillRelated(d, r, f) && LocalRespects(d, r, f)
  }

  ghost predicate LocalRespects(d: Disk, r: Recipe, f: Name)
    requires f in r.features && f in d.lock.features
  {
    LocalLists(d, r, f);
    UpdateRespects(Local(d, r, f), d, f)
  }

  /** An operation runs to its end or is refused, begins and stops somewhere after its journal appears, or an
      abort runs to its end, stops on the way, or is refused. */
  datatype Step =
    | Perform(operation: Operation, recipe: Recipe, feature: Name)
    | Stop(operation: Operation, recipe: Recipe, feature: Name)
    | Abort

  /** The disk once the journal is there. */
  ghost function Begun(d: Disk, operation: Operation, r: Recipe, f: Name): Disk
    requires PerformVerdict(d, operation, r, f).Proceed?
  {
    d.(journal := Some(Capture(d, operation, f, Desired(d, operation, r, f))))
  }

  /** Of the files the operation writes, some are written. */
  ghost predicate Underway(d: Disk, operation: Operation, r: Recipe, f: Name, e: Disk)
    requires PerformVerdict(d, operation, r, f).Proceed?
  {
    Toward(Begun(d, operation, r, f), f, Written(d, operation, r, f), e)
  }

  /** What the steps of the composer may leave, on any disk, trustworthy backups or not. */
  ghost predicate Takes(d: Disk, step: Step, e: Disk) {
    match step
    case Perform(operation, r, f) =>
      if PerformVerdict(d, operation, r, f).Refuse? then e == d
      else if Reliable(d, operation, r, f) then e == PerformedFrom(d, operation, r, f)
      else Underway(d, operation, r, f, e)
    case Stop(operation, r, f) => PerformVerdict(d, operation, r, f).Proceed? && Underway(d, operation, r, f, e)
    case Abort =>
      && d.journal.Some?
      && if Edited(d) != {} then e == d
         else
           Own(d.journal.value) ==>
             || (Copied(d.journal.value) && e == Restarted(d))
             || Toward(d, d.journal.value.feature, Copies(d.journal.value), e)
  }

  /** Each disk comes from the one before by its step. */
  ghost predicate IsRun(run: seq<Disk>, steps: seq<Step>) {
    |run| == |steps| + 1 && forall k :: 0 <= k < |steps| ==> Takes(run[k], steps[k], run[k + 1])
  }

  // ----- backups that can be trusted

  /** The backups of every installed feature hold what its lock entries say. */
  ghost predicate AllSound(d: Disk) {
    forall g :: Sound(d, g)
  }

  lemma CreatedIsSound(o: Origin, template: string, identity: Identity)
    ensures AllSound(Created(o, template, identity))
  {
  }

  lemma AddedIsSound(d: Disk, r: Recipe, f: Name)
    requires AllSound(d) && f in r.features && f !in d.lock.features
    ensures AllSound(Added(d, r, f))
  {
    hide Added;
    var e := Added(d, r, f);
    forall g | g in e.lock.features ensures BackupsHold(e.backups, g, e.lock.features[g].files) {
      assert Sound(d, g);
      forall p | p in e.lock.features[g].files && e.lock.features[g].files[p].previousExisted
        ensures e.lock.features[g].files[p].previous.Some?
        ensures Get(e.backups, (g, p)) == e.lock.features[g].files[p].previous
      {
        AddedReads(d, r, f, p);
        AddedKeeps(d, r, f, (g, p));
      }
    }
  }

  lemma RemovedIsSound(d: Disk, f: Name)
    requires AllSound(d) && f in d.lock.features
    ensures AllSound(Removed(d, f))
  {
    var e := Removed(d, f);
    forall g | g in e.lock.features ensures BackupsHold(e.backups, g, e.lock.features[g].files) {
      assert Sound(d, g);
      assert forall p :: Get(e.backups, (g, p)) == Get(d.backups, (g, p));
    }
  }

  lemma UpdatedIsSound(d: Disk, r: Recipe, f: Name)
    requires AllSound(d) && f in d.lock.features && f in r.features
    ensures AllSound(Updated(d, r, f))
  {
    hide Updated;
    var e := Updated(d, r, f);
    UpdatedFeatures(d, r, f);
    forall g | g in e.lock.features ensures BackupsHold(e.backups, g, e.lock.features[g].files) {
      assert Sound(d, g);
      forall p | p in e.lock.features[g].files && e.lock.features[g].files[p].previousExisted
        ensures e.lock.features[g].files[p].previous.Some?
        ensures Get(e.backups, (g, p)) == e.lock.features[g].files[p].previous
      {
        if g == f {
          UpdatedFilesAt(d, r, f, p);
          UpdatedKeeps(d, r, f, (f, p));
        } else {
          UpdatedKeeps(d, r, f, (g, p));
        }
      }
    }
  }

  /** No operation spoils the backups of any feature, whatever the features are called and list. */
  lemma PerformedIsSound(d: Disk, operation: Operation, r: Recipe, f: Name)
    requires AllSound(d)
    ensures AllSound(Performed(d, operation, r, f))
  {
    hide AllSound, Added, Removed, Updated;
    if PerformVerdict(d, operation, r, f).Proceed? {
      match operation {
        case Add => AddedIsSound(d, r, f);
        case Remove => RemovedIsSound(d, f);
        case Update => UpdatedIsSound(d, r, f);
      }
    }
  }

  /** A stop of an operation is undone by an abort wherever it falls, exactly if each file the operation writes
      becomes what the journal says or stays what it was. That is so where its backups can be trusted. */
  lemma StopsAreUndoneIff(d: Disk, operation: Operation, r: Recipe, f: Name)
    requires d.journal == None && PerformVerdict(d, operation, r, f).Proceed?
    ensures var desired, written := Desired(d, operation, r, f), Written(d, operation, r, f);
            (forall e :: Underway(d, operation, r, f, e) ==> Edited(e) == {} && RolledBack(e) == d) <==>
              forall p :: p in written ==> Get(desired, p) == Some(written[p]) || written[p] == Get(d.files, p)
    ensures Sound(d, f) ==> Written(d, operation, r, f) == Desired(d, operation, r, f)
  {
    hide PerformVerdict, Desired, Written, RolledBack, Edited, Sound, Patch;
    var desired, written := Desired(d, operation, r, f), Written(d, operation, r, f);
    if Sound(d, f) {
      SoundIsWritten(d, operation, r, f);
    }
    if forall p :: p in written ==> Get(desired, p) == Some(written[p]) || written[p] == Get(d.files, p) {
      forall e | Underway(d, operation, r, f, e) ensures Edited(e) == {} && RolledBack(e) == d {
        TowardEither(d, operation, f, desired, written, e);
        RollbackRestores(d, operation, f, desired, e);
      }
    }
    if forall e :: Underway(d, operation, r, f, e) ==> Edited(e) == {} && RolledBack(e) == d {
      SameWrites(d, operation, r, f);
      forall p | p in written ensures Get(desired, p) == Some(written[p]) || written[p] == Get(d.files, p) {
        var e := OneWritten(d, operation, f, desired, written, p);
        assert Underway(d, operation, r, f, e);
      }
    }
  }

  lemma SameWrites(d: Disk, operation: Operation, r: Recipe, f: Name)
    requires PerformVerdict(d, operation, r, f).Proceed?
    ensures Written(d, operation, r, f).Keys == Desired(d, operation, r, f).Keys
  {
  }

  lemma TowardEither(
      d: Disk, operation: Operation, f: Name, desired: map<Path, Option<Digest>>, written: map<Path, Option<Digest>>,
        e: Disk)
    requires Toward(d.(journal := Some(Capture(d, operation, f, desired))), f, written, e)
    requires forall p :: p in written ==> Get(desired, p) == Some(written[p]) || written[p] == Get(d.files, p)
    ensures InFlight(d, Capture(d, operation, f, desired), e)
  {
    TowardIsInFlight(d, operation, f, desired, e);
  }

  /** The stop after `p` alone is written: an abort takes it for an outside edit if it is neither. */
  lemma OneWritten(
      d: Disk, operation: Operation, f: Name, desired: map<Path, Option<Digest>>, written: map<Path, Option<Digest>>,
        p: Path)
    returns (e: Disk)
    requires p in written && p in desired
    ensures Toward(d.(journal := Some(Capture(d, operation, f, desired))), f, written, e)
    ensures e.journal.Some? && (p !in Edited(e) ==> written[p] == desired[p] || written[p] == Get(d.files, p))
  {
    e := d.(files := Patch(d.files, Only(written, {p})), journal := Some(Capture(d, operation, f, desired)));
    forall q ensures Get(e.files, q) == if q == p then written[p] else Get(d.files, q) {
      PatchAt(d.files, Only(written, {p}), q);
    }
  }

  /** A backup changed from outside: what the removal gives back is neither what it covered nor what it covered it
      with, and an abort that follows a stop refuses. */
  lemma SpoiltBackupBlocksAbort(was: PayloadFile, spoilt: PayloadFile, installed: PayloadFile)
    requires was != spoilt && spoilt != installed
    ensures var covered := LockedFile(installed, Some(was), true, false);
            var lock := Lock("t", Identity("t", "1", "d"), map["a.txt" := installed],
              map["f" := LockedFeature("1", map["a.txt" := covered], [])]);
            var d := Disk(map["a.txt" := installed], lock, map[("f", "a.txt") := spoilt], None);
            forall r :: PerformVerdict(d, Remove, r, "f").Proceed? &&
                        exists e :: Underway(d, Remove, r, "f", e) && Edited(e) != {}
  {
    var covered := LockedFile(installed, Some(was), true, false);
    var lock := Lock("t", Identity("t", "1", "d"), map["a.txt" := installed],
      map["f" := LockedFeature("1", map["a.txt" := covered], [])]);
    var d := Disk(map["a.txt" := installed], lock, map[("f", "a.txt") := spoilt], None);
    assert Dependents(lock, "f") == {};
    RemoveIsClear(d, "f");
    forall r ensures PerformVerdict(d, Remove, r, "f").Proceed? &&
                     exists e :: Underway(d, Remove, r, "f", e) && Edited(e) != {}
    {
      var desired, written := Desired(d, Remove, r, "f"), Written(d, Remove, r, "f");
      assert written["a.txt"] == Some(spoilt) && desired["a.txt"] == Some(was);
      var e := OneWritten(d, Remove, "f", desired, written, "a.txt");
      assert Underway(d, Remove, r, "f", e) && "a.txt" in Edited(e);
    }
  }

  // ----- steps where backups can be trusted

  /** What a step leaves where the backups can be trusted: the operation done, or a crash state of it, or
      the disk rolled back to, or a crash state of that. */
  ghost predicate Acts(d: Disk, step: Step, e: Disk) {
    match step
    case Perform(operation, r, f) => e == Performed(d, operation, r, f)
    case Stop(operation, r, f) =>
      && PerformVerdict(d, operation, r, f).Proceed?
      && InFlight(d, Capture(d, operation, f, Desired(d, operation, r, f)), e)
    case Abort => Aborts(d, e)
  }

  ghost predicate Aborts(d: Disk, e: Disk) {
    d.journal.Some? &&
    if Edited(d) != {} then e == d else e == RolledBack(d) || InFlight(RolledBack(d), d.journal.value, e)
  }

  /** Settled with backups that can be trusted, or with a journal that has all its copies. */
  ghost predicate Trusted(d: Disk) {
    if d.journal == None then AllSound(d) else Complete(d.journal.value)
  }

  lemma TrustedActs(d: Disk, step: Step, e: Disk)
    requires Trusted(d) && Takes(d, step, e)
    ensures Acts(d, step, e)
  {
    hide Toward, AllSound, PerformVerdict, Written, Desired, Reliable, PerformedFrom, Performed, Edited, Complete;
    match step
    case Perform(operation, r, f) =>
      if PerformVerdict(d, operation, r, f).Proceed? {
        TrustedWrites(d, operation, r, f);
      } else {
        RefusedIsSame(d, operation, r, f);
      }
    case Stop(operation, r, f) =>
      TrustedWrites(d, operation, r, f);
      TowardIsInFlight(d, operation, f, Desired(d, operation, r, f), e);
    case Abort =>
      CompleteIsOwn(d.journal.value);
      CompleteIsCopied(d.journal.value);
      if Edited(d) == {} && e != Restarted(d) {
        UndoneIsInFlight(d, e);
      }
  }

  lemma RefusedIsSame(d: Disk, operation: Operation, r: Recipe, f: Name)
    requires PerformVerdict(d, operation, r, f).Refuse?
    ensures Performed(d, operation, r, f) == d
  {
  }

  lemma CompleteIsOwn(j: Journal)
    requires Complete(j)
    ensures Own(j)
  {
  }

  lemma TrustedWrites(d: Disk, operation: Operation, r: Recipe, f: Name)
    requires Trusted(d) && PerformVerdict(d, operation, r, f).Proceed?
    ensures d.journal == None && Reliable(d, operation, r, f)
    ensures Written(d, operation, r, f) == Desired(d, operation, r, f)
    ensures PerformedFrom(d, operation, r, f) == Performed(d, operation, r, f)
  {
    hide PerformVerdict, Written, Desired, Reliable, PerformedFrom, Performed, Sound, Complete;
    ProceedsSettled(d, operation, r, f);
    SoundIsWritten(d, operation, r, f);
  }

  lemma ProceedsSettled(d: Disk, operation: Operation, r: Recipe, f: Name)
    requires PerformVerdict(d, operation, r, f).Proceed?
    ensures d.journal == None
  {
    if d.journal.Some? {
      PendingRefuses(d, operation, r, f);
    }
  }

  /** While a journal is pending nothing new begins. */
  lemma PendingRefuses(d: Disk, operation: Operation, r: Recipe, f: Name)
    requires d.journal.Some?
    ensures PerformVerdict(d, operation, r, f).Refuse? && Performed(d, operation, r, f) == d
  {
    match operation {
      case Add => AddIsClear(d, r, f);
      case Remove => RemoveIsClear(d, f);
      case Update => UpdateIsClear(d, r, f);
    }
  }

  lemma PerformedHasNoJournal(d: Disk, operation: Operation, r: Recipe, f: Name)
    requires d.journal == None
    ensures Performed(d, operation, r, f).journal == None
  {
  }

  lemma JournalIsCaptured(d0: Disk, operation: Operation, f: Name, desired: map<Path, Option<Digest>>, d: Disk)
    requires InFlight(d0, Capture(d0, operation, f, desired), d)
    ensures d.journal == Some(Capture(d0, operation, f, desired)) && Complete(d.journal.value)
  {
  }

  // ----- runs

  lemma PrefixIsRun(run: seq<Disk>, steps: seq<Step>, k: nat)
    requires IsRun(run, steps) && k <= |steps|
    ensures IsRun(run[..k + 1], steps[..k])
  {
    hide Takes;
    var part, done := run[..k + 1], steps[..k];
    forall j | 0 <= j < |done| ensures Takes(part[j], done[j], part[j + 1]) {
      assert Takes(run[j], steps[j], run[j + 1]);
    }
  }

  lemma FrontOf<T>(s: seq<T>)
    requires |s| >= 2
    ensures var front := s[..|s| - 1];
            front != [] && front[0] == s[0] && front[|front| - 1] == s[|s| - 2] && front + [s[|s| - 1]] == s
  {
  }

  lemma LastStepTaken(run: seq<Disk>, steps: seq<Step>)
    requires IsRun(run, steps) && steps != []
    ensures Takes(run[|run| - 2], steps[|steps| - 1], run[|run| - 1])
  {
    hide Takes;
    assert Takes(run[|steps| - 1], steps[|steps| - 1], run[|steps| - 1 + 1]);
  }

  /** Settled with backups that can be trusted, or in flight from such a disk among these. */
  ghost predicate Anchored(run: seq<Disk>, d: Disk) {
    || (d.journal == None && AllSound(d))
    || exists k: nat, operation, f, desired :: Anchors(run, k, operation, f, desired, d)
  }

  ghost predicate Anchors(
      run: seq<Disk>, k: nat, operation: Operation, f: Name, desired: map<Path, Option<Digest>>, d: Disk)
  {
    && k < |run| && run[k].journal == None && AllSound(run[k])
    && InFlight(run[k], Capture(run[k], operation, f, desired), d)
  }

  lemma AnchoredIsTrusted(run: seq<Disk>, d: Disk)
    requires Anchored(run, d)
    ensures Trusted(d) && (d.journal == None ==> AllSound(d))
  {
    hide InFlight, AllSound, Capture, Complete;
    if k: nat, operation, f, desired :| Anchors(run, k, operation, f, desired, d) {
      JournalIsCaptured(run[k], operation, f, desired, d);
    }
  }

  lemma AnchoredLater(run: seq<Disk>, more: seq<Disk>, d: Disk)
    requires Anchored(run, d)
    ensures Anchored(run + more, d)
  {
    hide InFlight, Capture, AllSound;
    if k: nat, operation, f, desired :| Anchors(run, k, operation, f, desired, d) {
      assert Anchors(run + more, k, operation, f, desired, d);
    }
  }

  lemma AbortAnchored(run: seq<Disk>, d: Disk, e: Disk)
    requires Anchored(run, d) && Aborts(d, e)
    ensures Anchored(run, e)
  {
    hide InFlight, AllSound;
    var k: nat, operation, f, desired :| Anchors(run, k, operation, f, desired, d);
    JournalIsCaptured(run[k], operation, f, desired, d);
    RollbackRestores(run[k], operation, f, desired, d);
    if e != d && e != run[k] {
      assert Anchors(run, k, operation, f, desired, e);
    }
  }

  lemma StepAnchored(run: seq<Disk>, step: Step, e: Disk)
    requires run != [] && Anchored(run, run[|run| - 1]) && Takes(run[|run| - 1], step, e)
    ensures Anchored(run, e)
  {
    hide InFlight, Capture, Aborts, Performed, AllSound, Takes;
    var d := run[|run| - 1];
    AnchoredIsTrusted(run, d);
    TrustedActs(d, step, e);
    match step
    case Perform(operation, r, f) =>
      if d.journal == None {
        PerformedHasNoJournal(d, operation, r, f);
        PerformedIsSound(d, operation, r, f);
      } else {
        PendingRefuses(d, operation, r, f);
      }
    case Stop(operation, r, f) =>
      ProceedsSettled(d, operation, r, f);
      assert Anchors(run, |run| - 1, operation, f, Desired(d, operation, r, f), e);
    case Abort => AbortAnchored(run, d, e);
  }

  lemma {:induction false} RunIsAnchored(run: seq<Disk>, steps: seq<Step>)
    requires IsRun(run, steps) && run[0].journal == None && AllSound(run[0])
    ensures Anchored(run, run[|run| - 1])
    decreases |run|
  {
    hide Takes, AllSound;
    if steps != [] {
      var front, last := run[..|run| - 1], run[|run| - 1];
      FrontOf(run);
      PrefixIsRun(run, steps, |steps| - 1);
      LastStepTaken(run, steps);
      RunIsAnchored(front, steps[..|steps| - 1]);
      StepAnchored(front, steps[|steps| - 1], last);
      AnchoredLater(front, [last], last);
    }
  }

  /** Whatever the features are called and whatever the recipes list: from a settled disk whose backups can be
      trusted they can be trusted whenever the run is settled; and wherever the run is left, a pending abort is
      accepted and gives back exactly a settled disk the run has been at. */
  lemma RunsRollBack(run: seq<Disk>, steps: seq<Step>)
    requires IsRun(run, steps) && run[0].journal == None && AllSound(run[0])
    ensures var d := run[|run| - 1];
            if d.journal == None then AllSound(d)
            else
              && Complete(d.journal.value) && Edited(d) == {} && AllSound(RolledBack(d))
              && exists k :: 0 <= k < |run| && run[k] == RolledBack(d) && run[k].journal == None
  {
    hide InFlight, Takes, AllSound, Complete;
    RunIsAnchored(run, steps);
    var d := run[|run| - 1];
    AnchoredIsTrusted(run, d);
    if d.journal.Some? {
      var k: nat, operation, f, desired :| Anchors(run, k, operation, f, desired, d);
      JournalIsCaptured(run[k], operation, f, desired, d);
      RollbackRestores(run[k], operation, f, desired, d);
    }
  }

  // ----- stacks

  /** Sound, or one rollback away from a sound disk. */
  ghost predicate Recoverable(o: Origin, d: Disk) {
    if d.journal == None then exists h :: Stacked(ByLock(o, d), h, d)
    else
      exists d0, h, operation, f, desired ::
        Stacked(ByLock(o, d0), h, d0) && InFlight(d0, Capture(d0, operation, f, desired), d)
  }

  ghost predicate Respects(d: Disk, step: Step) {
    step.Perform? ==> RespectsStacks(d, step.operation, step.recipe, step.feature)
  }

  /** Every operation that runs to its end respects the stacks. */
  ghost predicate AllRespect(run: seq<Disk>, steps: seq<Step>)
    requires |run| == |steps| + 1
  {
    forall k :: 0 <= k < |steps| ==> Respects(run[k], steps[k])
  }

  ghost predicate KeepsLists(d: Disk, step: Step) {
    step.Perform? ==> RespectsLists(d, step.operation, step.recipe, step.feature)
  }

  /** Every update that runs to its end is decided as the locked lists would decide it. */
  ghost predicate ListsKept(run: seq<Disk>, steps: seq<Step>)
    requires |run| == |steps| + 1
  {
    forall k :: 0 <= k < |steps| ==> KeepsLists(run[k], steps[k])
  }

  lemma CreatedIsStacked(o: Origin, template: string, identity: Identity)
    requires o.app <= o.base.Keys
    ensures Stacked(o, History(map[], map[], 0), Created(o, template, identity))
  {
    var d := Created(o, template, identity);
    forall p ensures PathSound(o, d, [], p) {
      assert Column(d, [], p) == [];
    }
  }

  /** Where no feature is called "base" and the recipe lists what the lock lists, every operation respects the
      stacks. */
  lemma BaseUnused(o: Origin, h: History, d: Disk, operation: Operation, r: Recipe, f: Name)
    requires Stacked(ByLock(o, d), h, d) && "base" !in d.lock.features && AsListed(d, Dependencies(r))
    ensures RespectsStacks(d, operation, r, f)
  {
    hide Stacked, AddVerdict, UpdateVerdict, AddClear, UpdateClear, CoversByLock, StillRelated, Local, AsListed;
    if PerformVerdict(d, operation, r, f).Proceed? {
      match operation {
        case Add =>
          AddIsClear(d, r, f);
          UnchangedListsCover(d, r, f);
        case Remove =>
        case Update =>
          UpdateIsClear(d, r, f);
          UnchangedListsRelate(o, h, d, r, f);
      }
    }
  }

  /** An operation keeps some stacking sound exactly if it is refused or respects the stacks. */
  lemma PerformKeepsStacksIff(o: Origin, h: History, d: Disk, operation: Operation, r: Recipe, f: Name)
    requires Stacked(ByLock(o, d), h, d) && RespectsLists(d, operation, r, f)
    ensures var e := Performed(d, operation, r, f);
            (exists g :: Stacked(ByLock(o, e), g, e)) <==> RespectsStacks(d, operation, r, f)
  {
    hide Stacked, Added, Removed, Updated, UpdateRespects, AddVerdict, RemoveVerdict, UpdateVerdict, CoversByLock,
      StillRelated, DecidesByLock, ByLock, Local;
    var e := Performed(d, operation, r, f);
    if PerformVerdict(d, operation, r, f).Refuse? {
      assert Stacked(ByLock(o, e), h, e);
    } else if operation == Add {
      AddKeepsByListIff(o, h, d, r, f);
    } else if operation == Remove {
      RemoveIsClear(d, f);
      var g := RemoveKeepsByList(o, h, d, f);
      assert Stacked(ByLock(o, e), g, e);
    } else {
      UpdateKeepsByListIff(o, h, d, r, f);
    }
  }

  lemma SettledIsStacked(o: Origin, d: Disk)
    requires d.journal == None
    ensures Recoverable(o, d) <==> exists h :: Stacked(ByLock(o, d), h, d)
  {
  }

  lemma InFlightIsRecoverable(o: Origin, h: History, d0: Disk, operation: Operation, f: Name,
      desired: map<Path, Option<Digest>>, d: Disk)
    requires Stacked(ByLock(o, d0), h, d0) && InFlight(d0, Capture(d0, operation, f, desired), d)
    ensures Recoverable(o, d) && d0.journal == None
  {
  }

  lemma RecoverableIsTrusted(o: Origin, d: Disk)
    requires Recoverable(o, d)
    ensures Trusted(d)
  {
    hide Stacked, InFlight, Sound, Complete;
    if d.journal == None {
      var h :| Stacked(ByLock(o, d), h, d);
      forall g ensures Sound(d, g) {
        StackedIsSound(ByLock(o, d), h, d, g);
      }
    } else {
      var d0, h, operation, f, desired :|
        Stacked(ByLock(o, d0), h, d0) && InFlight(d0, Capture(d0, operation, f, desired), d);
      JournalIsCaptured(d0, operation, f, desired, d);
    }
  }

  /** What an operation that ends leaves recoverable. */
  lemma PerformStaysRecoverableIff(o: Origin, d: Disk, operation: Operation, r: Recipe, f: Name)
    requires Recoverable(o, d) && RespectsLists(d, operation, r, f)
    ensures Recoverable(o, Performed(d, operation, r, f)) <==> RespectsStacks(d, operation, r, f)
  {
    hide Stacked, Performed, PerformVerdict, InFlight, UpdateRespects, CoversByLock, StillRelated, RespectsLists,
      ByLock;
    if d.journal == None {
      SettledIsStacked(o, d);
      var h :| Stacked(ByLock(o, d), h, d);
      PerformKeepsStacksIff(o, h, d, operation, r, f);
      PerformedHasNoJournal(d, operation, r, f);
      SettledIsStacked(o, Performed(d, operation, r, f));
    } else {
      PendingRefuses(d, operation, r, f);
    }
  }

  lemma StopStaysRecoverable(o: Origin, d: Disk, operation: Operation, r: Recipe, f: Name, e: Disk)
    requires Recoverable(o, d) && Acts(d, Stop(operation, r, f), e)
    ensures Recoverable(o, e)
  {
    hide Stacked, InFlight, PerformVerdict, ByLock;
    ProceedsSettled(d, operation, r, f);
    var h :| Stacked(ByLock(o, d), h, d);
    InFlightIsRecoverable(o, h, d, operation, f, Desired(d, operation, r, f), e);
  }

  lemma AbortStaysRecoverable(o: Origin, d: Disk, e: Disk)
    requires Recoverable(o, d) && Aborts(d, e)
    ensures Recoverable(o, e)
  {
    hide Stacked, InFlight, ByLock;
    var d0, h, operation, f, desired :|
      Stacked(ByLock(o, d0), h, d0) && InFlight(d0, Capture(d0, operation, f, desired), d);
    InFlightIsRecoverable(o, h, d0, operation, f, desired, d);
    JournalIsCaptured(d0, operation, f, desired, d);
    RollbackRestores(d0, operation, f, desired, d);
    if e == d0 {
      SettledIsStacked(o, e);
    } else if e != d {
      InFlightIsRecoverable(o, h, d0, operation, f, desired, e);
    }
  }

  lemma StepStaysRecoverableIff(o: Origin, d: Disk, step: Step, e: Disk)
    requires Recoverable(o, d) && Takes(d, step, e) && KeepsLists(d, step)
    ensures Recoverable(o, e) <==> Respects(d, step)
  {
    hide Recoverable, RespectsStacks, RespectsLists, Performed, Aborts, Takes, Trusted;
    RecoverableIsTrusted(o, d);
    TrustedActs(d, step, e);
    match step
    case Perform(operation, r, f) => PerformStaysRecoverableIff(o, d, operation, r, f);
    case Stop(operation, r, f) => StopStaysRecoverable(o, d, operation, r, f, e);
    case Abort => AbortStaysRecoverable(o, d, e);
  }

  lemma PrefixKeeps(run: seq<Disk>, steps: seq<Step>, k: nat)
    requires |run| == |steps| + 1 && k <= |steps|
    ensures AllRespect(run, steps) ==> AllRespect(run[..k + 1], steps[..k])
    ensures ListsKept(run, steps) ==> ListsKept(run[..k + 1], steps[..k])
  {
    hide Respects, KeepsLists;
    var part, done := run[..k + 1], steps[..k];
    if AllRespect(run, steps) {
      forall j | 0 <= j < |done| ensures Respects(part[j], done[j]) {
        assert Respects(run[j], steps[j]);
      }
    }
    if ListsKept(run, steps) {
      forall j | 0 <= j < |done| ensures KeepsLists(part[j], done[j]) {
        assert KeepsLists(run[j], steps[j]);
      }
    }
  }

  lemma CreatedIsRecoverable(o: Origin, template: string, identity: Identity)
    requires o.app <= o.base.Keys
    ensures Recoverable(o, Created(o, template, identity))
  {
    var d := Created(o, template, identity);
    CreatedIsStacked(ByLock(o, d), template, identity);
  }

  /** In every run from a created project whose operations respect the locked lists and the stacks, the last disk is
      sound or one rollback away from a sound one. */
  lemma {:induction false} RunStaysRecoverable(
      o: Origin, template: string, identity: Identity, run: seq<Disk>, steps: seq<Step>)
    requires o.app <= o.base.Keys
    requires IsRun(run, steps) && run[0] == Created(o, template, identity)
    requires ListsKept(run, steps) && AllRespect(run, steps)
    ensures Recoverable(o, run[|run| - 1])
    decreases |run|
  {
    hide Recoverable, Takes, Respects, KeepsLists, Created;
    if steps == [] {
      CreatedIsRecoverable(o, template, identity);
    } else {
      FrontOf(run);
      PrefixIsRun(run, steps, |steps| - 1);
      PrefixKeeps(run, steps, |steps| - 1);
      LastStepTaken(run, steps);
      RunStaysRecoverable(o, template, identity, run[..|run| - 1], steps[..|steps| - 1]);
      assert Respects(run[|steps| - 1], steps[|steps| - 1]) && KeepsLists(run[|steps| - 1], steps[|steps| - 1]);
      StepStaysRecoverableIff(o, run[|run| - 2], steps[|steps| - 1], run[|run| - 1]);
    }
  }

  /** Exactly then: the disks of a run are all sound, or one rollback away from a sound one, if and only if
      every operation that ran to its end respected the stacks. */
  lemma RunIsRecoverableIff(o: Origin, template: string, identity: Identity, run: seq<Disk>, steps: seq<Step>)
    requires o.app <= o.base.Keys
    requires IsRun(run, steps) && run[0] == Created(o, template, identity) && ListsKept(run, steps)
    ensures (forall k :: 0 <= k < |run| ==> Recoverable(o, run[k])) <==> AllRespect(run, steps)
  {
    hide Recoverable, Takes, Respects, KeepsLists, Created;
    if forall k :: 0 <= k < |run| ==> Recoverable(o, run[k]) {
      forall k | 0 <= k < |steps| ensures Respects(run[k], steps[k]) {
        assert Takes(run[k], steps[k], run[k + 1]) && KeepsLists(run[k], steps[k]);
        StepStaysRecoverableIff(o, run[k], steps[k], run[k + 1]);
      }
    }
    if AllRespect(run, steps) {
      forall k | 0 <= k < |run| ensures Recoverable(o, run[k]) {
        var part, done := run[..k + 1], steps[..k];
        PrefixIsRun(run, steps, k);
        PrefixKeeps(run, steps, k);
        RunStaysRecoverable(o, template, identity, part, done);
      }
    }
  }

  lemma RecoverableSettles(o: Origin, d: Disk) returns (settled: Disk, h: History)
    requires Recoverable(o, d)
    ensures Stacked(ByLock(o, settled), h, settled)
    ensures if d.journal == None then settled == d
            else Complete(d.journal.value) && Edited(d) == {} && settled == RolledBack(d)
  {
    hide Stacked, InFlight, Edited, RolledBack, ByLock;
    if d.journal == None {
      settled := d;
      h :| Stacked(ByLock(o, d), h, d);
    } else {
      var d0, g, operation, f, desired :|
        Stacked(ByLock(o, d0), g, d0) && InFlight(d0, Capture(d0, operation, f, desired), d);
      InFlightIsRecoverable(o, g, d0, operation, f, desired, d);
      JournalIsCaptured(d0, operation, f, desired, d);
      RollbackRestores(d0, operation, f, desired, d);
      settled, h := d0, g;
    }
  }

  /** However a run ends, an abort succeeds where one is pending and leaves a sound disk. */
  lemma RunsSettle(o: Origin, template: string, identity: Identity, run: seq<Disk>, steps: seq<Step>)
    returns (settled: Disk, h: History)
    requires o.app <= o.base.Keys
    requires IsRun(run, steps) && run[0] == Created(o, template, identity)
    requires ListsKept(run, steps) && AllRespect(run, steps)
    ensures Stacked(ByLock(o, settled), h, settled)
    ensures var d := run[|run| - 1];
            if d.journal == None then settled == d
            else Complete(d.journal.value) && Edited(d) == {} && settled == RolledBack(d)
  {
    hide Recoverable, Stacked, Edited, RolledBack, Created, ByLock, Takes;
    RunStaysRecoverable(o, template, identity, run, steps);
    settled, h := RecoverableSettles(o, run[|run| - 1]);
  }

  /** Removing every feature, in whatever order and with whatever stops on the way, gives back the base tree. */
  lemma RemovingAllGivesBase(o: Origin, template: string, identity: Identity, run: seq<Disk>, steps: seq<Step>)
    requires o.app <= o.base.Keys
    requires IsRun(run, steps) && run[0] == Created(o, template, identity)
    requires ListsKept(run, steps) && AllRespect(run, steps)
    requires run[|run| - 1].journal == None && run[|run| - 1].lock.features == map[]
    ensures var d := run[|run| - 1];
            d.files == o.base && d.lock.managed == o.base - o.app && d.backups == map[]
  {
    hide Stacked, Created, Takes, Edited, Complete, RolledBack;
    var d, h := RunsSettle(o, template, identity, run, steps);
    NoFeaturesIsBase(ByLock(o, d), h, d);
  }

  /** Once settled, with features installed some removal is allowed, and its backups hold. */
  lemma NeverStuck(o: Origin, template: string, identity: Identity, run: seq<Disk>, steps: seq<Step>)
    requires o.app <= o.base.Keys
    requires IsRun(run, steps) && run[0] == Created(o, template, identity)
    requires ListsKept(run, steps) && AllRespect(run, steps)
    ensures var d := run[|run| - 1];
            var settled := if d.journal.Some? then RolledBack(d) else d;
            settled.lock.features != map[] ==>
              exists f :: f in settled.lock.features && RemoveVerdict(settled, f).Proceed? && Sound(settled, f)
  {
    hide Stacked, Created, Takes, Edited, Complete, RolledBack, RemoveVerdict, Sound;
    var settled, h := RunsSettle(o, template, identity, run, steps);
    if settled.lock.features != map[] {
      var f := SomeFeatureIsRemovable(ByLock(o, settled), h, settled);
      StackedIsSound(ByLock(o, settled), h, settled, f);
    }
  }

  // ----- recipes that all list the same

  ghost predicate Lists(step: Step, g: Edges) {
    !step.Abort? ==> Dependencies(step.recipe) == g
  }

  lemma {:induction false} StaysListed(run: seq<Disk>, steps: seq<Step>, g: Edges)
    requires IsRun(run, steps) && run[0].journal == None && AllSound(run[0]) && AsListed(run[0], g)
    requires forall k :: 0 <= k < |steps| ==> Lists(steps[k], g)
    ensures forall k :: 0 <= k < |run| && run[k].journal == None ==> AsListed(run[k], g)
    decreases |run|
  {
    hide Takes, AllSound, AsListed, Lists, Complete, Edited, RolledBack;
    if steps != [] {
      var front, last := run[..|run| - 1], run[|run| - 1];
      FrontOf(run);
      PrefixIsRun(run, steps, |steps| - 1);
      LastStepTaken(run, steps);
      StaysListed(front, steps[..|steps| - 1], g);
      RunsRollBack(front, steps[..|steps| - 1]);
      if last.journal == None {
        StepListed(front, steps[|steps| - 1], last, g);
      }
      forall k | 0 <= k < |run| && run[k].journal == None ensures AsListed(run[k], g) {
        if k < |front| {
          assert front[k] == run[k];
        }
      }
    }
  }

  lemma StepListed(run: seq<Disk>, step: Step, e: Disk, g: Edges)
    requires run != [] && Takes(run[|run| - 1], step, e) && e.journal == None && Lists(step, g)
    requires var d := run[|run| - 1];
             if d.journal == None then AllSound(d)
             else
               && Complete(d.journal.value) && Edited(d) == {}
               && exists k :: 0 <= k < |run| && run[k] == RolledBack(d) && run[k].journal == None
    requires forall k :: 0 <= k < |run| && run[k].journal == None ==> AsListed(run[k], g)
    ensures AsListed(e, g)
  {
    hide Takes, AllSound, AsListed, Complete, Edited, RolledBack, Performed;
    var d := run[|run| - 1];
    TrustedActs(d, step, e);
    match step
    case Perform(operation, r, f) =>
      if d.journal == None {
        assert AsListed(run[|run| - 1], g);
        PerformedAsListed(d, operation, r, f);
      } else {
        PendingRefuses(d, operation, r, f);
      }
    case Stop(operation, r, f) =>
    case Abort =>
  }

  /** Where all recipes of a run list the same, every one respects the locked lists. */
  lemma SameListsAreKept(run: seq<Disk>, steps: seq<Step>, g: Edges)
    requires IsRun(run, steps) && run[0].journal == None && AllSound(run[0]) && AsListed(run[0], g)
    requires forall k :: 0 <= k < |steps| ==> Lists(steps[k], g)
    ensures ListsKept(run, steps)
  {
    hide Takes, AllSound, AsListed, RespectsLists;
    StaysListed(run, steps, g);
    forall k | 0 <= k < |steps| ensures KeepsLists(run[k], steps[k]) {
      assert Lists(steps[k], g);
      if steps[k].Perform? {
        if run[k].journal == None {
          UnchangedListsRespect(run[k], steps[k].operation, steps[k].recipe, steps[k].feature);
        } else {
          RefusedRespects(run[k], steps[k].operation, steps[k].recipe, steps[k].feature);
        }
      }
    }
  }

  lemma RefusedRespects(d: Disk, operation: Operation, r: Recipe, f: Name)
    requires d.journal.Some?
    ensures RespectsLists(d, operation, r, f)
  {
    PendingRefuses(d, operation, r, f);
  }

  lemma PlainStepRespects(o: Origin, d: Disk, step: Step, g: Edges)
    requires Recoverable(o, d) && Lists(step, g) && "base" !in g && (d.journal == None ==> AsListed(d, g))
    ensures Respects(d, step)
  {
    hide Stacked, InFlight, PerformVerdict, CoversByLock, StillRelated, LocalRespects, ByLock;
    if step.Perform? {
      if d.journal == None {
        SettledIsStacked(o, d);
        var h :| Stacked(ByLock(o, d), h, d);
        BaseUnused(o, h, d, step.operation, step.recipe, step.feature);
      } else {
        PendingRefuses(d, step.operation, step.recipe, step.feature);
      }
    }
  }

  lemma RespectMore(run: seq<Disk>, steps: seq<Step>)
    requires |run| == |steps| + 1 && steps != []
    requires AllRespect(run[..|run| - 1], steps[..|steps| - 1]) && Respects(run[|run| - 2], steps[|steps| - 1])
    ensures AllRespect(run, steps)
  {
    hide Respects;
    var part, done := run[..|run| - 1], steps[..|steps| - 1];
    forall k | 0 <= k < |steps| ensures Respects(run[k], steps[k]) {
      if k < |done| {
        assert Respects(part[k], done[k]);
      }
    }
  }

  /** Where no feature is called "base" and all recipes list the same, every run from a created project respects the
      stacks, with nothing to check. */
  lemma {:induction false} PlainRunsRespect(
      o: Origin, template: string, identity: Identity, run: seq<Disk>, steps: seq<Step>, g: Edges)
    requires o.app <= o.base.Keys && "base" !in g
    requires IsRun(run, steps) && run[0] == Created(o, template, identity)
    requires forall k :: 0 <= k < |steps| ==> Lists(steps[k], g)
    ensures ListsKept(run, steps) && AllRespect(run, steps)
    decreases |run|
  {
    CreatedIsListed(o, template, identity, g);
    hide Takes, Respects, Created, Lists, AsListed, AllSound, ListsKept, AllRespect, Recoverable;
    SameListsAreKept(run, steps, g);
    if steps == [] {
      NoStepsRespect(run);
    } else {
      var k := |steps| - 1;
      FrontOf(run);
      PrefixIsRun(run, steps, k);
      PlainRunsRespect(o, template, identity, run[..k + 1], steps[..k], g);
      RunStaysRecoverable(o, template, identity, run[..k + 1], steps[..k]);
      StaysListed(run, steps, g);
      PlainStepRespects(o, run[k], steps[k], g);
      RespectMore(run, steps);
    }
  }

  lemma NoStepsRespect(run: seq<Disk>)
    requires |run| == 1
    ensures AllRespect(run, [])
  {
  }

  lemma CreatedIsListed(o: Origin, template: string, identity: Identity, g: Edges)
    ensures var d := Created(o, template, identity); d.journal == None && AllSound(d) && AsListed(d, g)
  {
  }

  // ----- features in conflict

  ghost predicate ListsRivals(step: Step, g: map<Name, seq<Name>>) {
    !step.Abort? ==> Rivals(step.recipe) == g
  }

  ghost predicate BothSides(g: map<Name, seq<Name>>) {
    forall a, b :: a in g && b in g && b in g[a] ==> a in g[b]
  }

  lemma PerformKeepsApart(d: Disk, operation: Operation, r: Recipe, f: Name)
    requires ConflictFree(Rivals(r), d.lock) && BothSides(Rivals(r))
    ensures ConflictFree(Rivals(r), Performed(d, operation, r, f).lock)
  {
    if PerformVerdict(d, operation, r, f).Proceed? {
      ConflictFreeIff(d, operation, r, f);
      if operation != Remove {
        InstalledAfter(d, operation, r, f);
        ConflictsStayOut(d, operation, r, f);
        forall n | n in d.lock.features && n != f && n in r.features ensures f !in r.features[n].conflicts {
          assert n !in Rivals(r)[f] && Rivals(r)[n] == r.features[n].conflicts;
        }
      }
    }
  }

  lemma StepKeepsApart(run: seq<Disk>, step: Step, e: Disk, g: map<Name, seq<Name>>)
    requires run != [] && Takes(run[|run| - 1], step, e) && e.journal == None && ListsRivals(step, g) && BothSides(g)
    requires var d := run[|run| - 1];
             if d.journal == None then AllSound(d)
             else
               && Complete(d.journal.value) && Edited(d) == {}
               && exists k :: 0 <= k < |run| && run[k] == RolledBack(d) && run[k].journal == None
    requires forall k :: 0 <= k < |run| && run[k].journal == None ==> ConflictFree(g, run[k].lock)
    ensures ConflictFree(g, e.lock)
  {
    hide Takes, AllSound, ConflictFree, Complete, Edited, RolledBack, Performed, BothSides;
    var d := run[|run| - 1];
    TrustedActs(d, step, e);
    match step
    case Perform(operation, r, f) =>
      if d.journal == None {
        assert ConflictFree(g, run[|run| - 1].lock);
        PerformKeepsApart(d, operation, r, f);
      } else {
        PendingRefuses(d, operation, r, f);
      }
    case Stop(operation, r, f) =>
    case Abort =>
  }

  /** Where the recipes of a run agree on who conflicts with whom, and list it on both sides, no two features in
      conflict are ever installed together. */
  lemma {:induction false} NoConflictsMeet(run: seq<Disk>, steps: seq<Step>, g: map<Name, seq<Name>>)
    requires IsRun(run, steps) && run[0].journal == None && AllSound(run[0])
    requires BothSides(g) && ConflictFree(g, run[0].lock)
    requires forall k :: 0 <= k < |steps| ==> ListsRivals(steps[k], g)
    ensures forall k :: 0 <= k < |run| && run[k].journal == None ==> ConflictFree(g, run[k].lock)
    decreases |run|
  {
    hide Takes, AllSound, ConflictFree, ListsRivals, BothSides, Complete, Edited, RolledBack;
    if steps != [] {
      var front, last := run[..|run| - 1], run[|run| - 1];
      FrontOf(run);
      PrefixIsRun(run, steps, |steps| - 1);
      LastStepTaken(run, steps);
      NoConflictsMeet(front, steps[..|steps| - 1], g);
      RunsRollBack(front, steps[..|steps| - 1]);
      if last.journal == None {
        StepKeepsApart(front, steps[|steps| - 1], last, g);
      }
      forall k | 0 <= k < |run| && run[k].journal == None ensures ConflictFree(g, run[k].lock) {
        if k < |front| {
          assert front[k] == run[k];
        }
      }
    }
  }

  // ----- a feature called "base"

  function Overlapping(base: PayloadFile, x: PayloadFile): Recipe {
    Recipe(Identity("t", "1", "d"), map[
      "base" := FeatureRecipe("1", [], [], map["a.txt" := base], {}),
      "x" := FeatureRecipe("1", [], [], map["a.txt" := x], {})])
  }

  lemma ClearAddProceeds(d: Disk, r: Recipe, f: Name)
    requires AddClear(d, r, f) && DependencyVerdict(d.lock.features.Keys, r, r.features[f]).Proceed?
    ensures AddVerdict(d, r, f).Proceed?
  {
    assert (set p | p in r.features[f].files && AddConflict(d, r, f, p)) == {};
  }

  lemma UnboundAddProceeds(d: Disk, r: Recipe, f: Name)
    requires AddClear(d, r, f) && r.features[f].dependencies == [] == r.features[f].conflicts
    ensures AddVerdict(d, r, f).Proceed?
  {
    ClearAddProceeds(d, r, f);
  }

  lemma BaseAddProceeds(base: PayloadFile, x: PayloadFile, o: Origin, d0: Disk)
    requires o == Origin(Dependencies(Overlapping(base, x)), map[], {})
    requires d0 == Created(o, "t", Overlapping(base, x).identity)
    ensures AddVerdict(d0, Overlapping(base, x), "base").Proceed?
  {
    var r := Overlapping(base, x);
    assert Owners(d0.lock, "a.txt") == {};
    UnboundAddProceeds(d0, r, "base");
  }

  lemma CoverAddProceeds(base: PayloadFile, x: PayloadFile, o: Origin, d1: Disk)
    requires o == Origin(Dependencies(Overlapping(base, x)), map[], {})
    requires d1 == Added(Created(o, "t", Overlapping(base, x).identity), Overlapping(base, x), "base")
    ensures AddVerdict(d1, Overlapping(base, x), "x").Proceed?
    ensures Owners(d1.lock, "a.txt") == {"base"}
  {
    hide Added, AddVerdict;
    var r := Overlapping(base, x);
    AddedReads(Created(o, "t", r.identity), r, "base", "a.txt");
    assert Owners(d1.lock, "a.txt") == {"base"};
    UnboundAddProceeds(d1, r, "x");
  }

  /** A recipe may name a feature "base". Then a feature that needs nothing may
      cover what "base" installed, both adds are accepted, and no stack is left. */
  lemma BaseNameBreaksTheStack(base: PayloadFile, x: PayloadFile)
    ensures var r := Overlapping(base, x);
            var o := Origin(Dependencies(r), map[], {});
            var d0 := Created(o, "t", r.identity);
            var d1 := Added(d0, r, "base");
            && PerformVerdict(d0, Add, r, "base").Proceed? && PerformVerdict(d1, Add, r, "x").Proceed?
            && !exists h :: Stacked(o, h, Added(d1, r, "x"))
  {
    var r := Overlapping(base, x);
    var o := Origin(Dependencies(r), map[], {});
    var d0 := Created(o, "t", r.identity);
    var d1 := Added(d0, r, "base");
    BaseAddProceeds(base, x, o, d0);
    CoverAddProceeds(base, x, o, d1);
    var h := FirstAddIsStacked(o, r, d0, "base");
    CoverDisrespectsBase(base, x, d1);
    AddKeepsStacksIff(o, h, d1, r, "x");
  }

  /** The same through an update: "base" is installed, then a feature beside it, and an update moves that
      feature's file onto what "base" installed, although it does not need it. */
  function Beside(base: PayloadFile, x: PayloadFile): Recipe {
    Recipe(Identity("t", "1", "d"), map[
      "base" := FeatureRecipe("1", [], [], map["a.txt" := base], {}),
      "x" := FeatureRecipe("1", [], [], map["b.txt" := x], {})])
  }

  function Moved(base: PayloadFile, x: PayloadFile): Recipe {
    Recipe(Identity("t", "2", "e"), map[
      "base" := FeatureRecipe("1", [], [], map["a.txt" := base], {}),
      "x" := FeatureRecipe("2", [], [], map["a.txt" := x], {})])
  }

  lemma UpdateBreaksTheStack(base: PayloadFile, x: PayloadFile)
    ensures var r, later := Beside(base, x), Moved(base, x);
            var o := Origin(Dependencies(r), map[], {});
            var d0 := Created(o, "t", r.identity);
            var d1 := Added(d0, r, "base");
            var d2 := Added(d1, r, "x");
            && PerformVerdict(d0, Add, r, "base").Proceed? && PerformVerdict(d1, Add, r, "x").Proceed?
            && Dependencies(later) == o.graph && PerformVerdict(d2, Update, later, "x").Proceed?
            && !exists h :: Stacked(o, h, Updated(d2, later, "x"))
  {
    hide Added, Updated, Stacked, AddVerdict, UpdateVerdict, UpdateRespects;
    var r, later := Beside(base, x), Moved(base, x);
    var o := Origin(Dependencies(r), map[], {});
    var d0 := Created(o, "t", r.identity);
    var d1 := Added(d0, r, "base");
    var d2 := Added(d1, r, "x");
    BesideInstalled(base, x, d0);
    BesideShows(base, x, d0);
    var h := BesideStacked(base, x, o, d0);
    MoveProceeds(base, x, d2);
    MoveObstructs(base, x, d2);
    UpdateKeepsStacksIff(o, h, d2, later, "x");
  }

  lemma BesideInstalled(base: PayloadFile, x: PayloadFile, d0: Disk)
    requires d0 == Created(Origin(Dependencies(Beside(base, x)), map[], {}), "t", Beside(base, x).identity)
    ensures var r := Beside(base, x);
            && TransitionAllowed(d0.lock, r) && AddVerdict(d0, r, "base").Proceed?
            && var d1 := Added(d0, r, "base");
            TransitionAllowed(d1.lock, r) && AddVerdict(d1, r, "x").Proceed?
  {
    hide Added, AddVerdict, Patch;
    var r := Beside(base, x);
    var d1 := Added(d0, r, "base");
    assert Owners(d0.lock, "a.txt") == {};
    UnboundAddProceeds(d0, r, "base");
    AddedReads(d0, r, "base", "b.txt");
    assert Owners(d1.lock, "b.txt") == {};
    UnboundAddProceeds(d1, r, "x");
  }

  /** The installed pair, as far as the update looks at it. */
  ghost predicate Paired(x: PayloadFile, d: Disk) {
    && d.journal == None && d.lock.features.Keys == {"base", "x"}
    && d.lock.features["base"].files.Keys == {"a.txt"} && d.lock.features["x"].files.Keys == {"b.txt"}
    && Get(d.files, "a.txt") == Get(d.lock.managed, "a.txt")
    && Get(d.files, "b.txt") == Some(x) == Some(d.lock.features["x"].files["b.txt"].installed)
    && d.lock.template == d.lock.recipe.name == "t" && d.lock.recipe.version == "1"
  }

  lemma BesideShows(base: PayloadFile, x: PayloadFile, d0: Disk)
    requires d0 == Created(Origin(Dependencies(Beside(base, x)), map[], {}), "t", Beside(base, x).identity)
    ensures Paired(x, Added(Added(d0, Beside(base, x), "base"), Beside(base, x), "x"))
  {
    hide Added;
    var r := Beside(base, x);
    var d1 := Added(d0, r, "base");
    AddedReads(d0, r, "base", "a.txt");
    AddedReads(d1, r, "x", "a.txt");
    AddedReads(d1, r, "x", "b.txt");
  }

  lemma BesideStacked(base: PayloadFile, x: PayloadFile, o: Origin, d0: Disk) returns (h: History)
    requires o == Origin(Dependencies(Beside(base, x)), map[], {}) && d0 == Created(o, "t", Beside(base, x).identity)
    ensures Stacked(o, h, Added(Added(d0, Beside(base, x), "base"), Beside(base, x), "x"))
  {
    BesideRespects(base, x, d0);
    hide Stacked, AddVerdict, Added, BaseRespected;
    var r := Beside(base, x);
    BesideInstalled(base, x, d0);
    var g := FirstAddIsStacked(o, r, d0, "base");
    var d1 := Added(d0, r, "base");
    AddKeepsStacksIff(o, g, d1, r, "x");
    h :| Stacked(o, h, Added(d1, r, "x"));
  }

  lemma BesideRespects(base: PayloadFile, x: PayloadFile, d0: Disk)
    requires d0.lock.features == map[]
    ensures var r := Beside(base, x); BaseRespected(r, Added(d0, r, "base").lock, "x", r.features["x"].files.Keys)
  {
  }

  lemma MoveProceeds(base: PayloadFile, x: PayloadFile, d: Disk)
    requires Paired(x, d)
    ensures UpdateVerdict(d, Moved(base, x), "x").Proceed?
  {
    var r := Moved(base, x);
    assert Owners(d.lock, "a.txt") - {"x"} == {"base"} && Owners(d.lock, "b.txt") - {"x"} == {};
    var paths := d.lock.features["x"].files.Keys + r.features["x"].files.Keys;
    assert paths == {"a.txt", "b.txt"};
    assert !UpdateConflict(d, r, "x", "a.txt") && !UpdateConflict(d, r, "x", "b.txt");
    assert (set p | p in paths && UpdateConflict(d, r, "x", p)) == {};
  }

  lemma MoveObstructs(base: PayloadFile, x: PayloadFile, d: Disk)
    requires Paired(x, d)
    ensures !UpdateRespects(Moved(base, x), d, "x")
  {
    var r := Moved(base, x);
    var g := Dependencies(r);
    if Reaches(g, "x", "base") {
      var b := FirstStep(g, "x", "base");
    }
    if Reaches(g, "base", "x") {
      var b := FirstStep(g, "base", "x");
    }
    assert "base" in Owners(d.lock, "a.txt") - {"x"};
    assert Obstructed(r, d, "x", "a.txt");
    assert !Undisturbed(r, d, "x", "a.txt");
  }

  lemma FirstAddIsStacked(o: Origin, r: Recipe, d0: Disk, f: Name) returns (h: History)
    requires o.app <= o.base.Keys && Dependencies(r) == o.graph && d0 == Created(o, "t", r.identity)
    requires AddVerdict(d0, r, f).Proceed?
    ensures Stacked(o, h, Added(d0, r, f))
  {
    var h0 := History(map[], map[], 0);
    CreatedIsStacked(o, "t", r.identity);
    AddIsClear(d0, r, f);
    AddKeepsStacks(o, h0, d0, r, f);
    h := Pushed(h0, f, r.features[f].files.Keys);
  }

  lemma CoverDisrespectsBase(base: PayloadFile, x: PayloadFile, d1: Disk)
    requires Owners(d1.lock, "a.txt") == {"base"}
    ensures !BaseRespected(Overlapping(base, x), d1.lock, "x", {"a.txt"})
    ensures Overlapping(base, x).features["x"].files.Keys == {"a.txt"}
  {
    var g := Dependencies(Overlapping(base, x));
    if Reaches(g, "x", "base") {
      var b := FirstStep(g, "x", "base");
    }
    assert "a.txt" in {"a.txt"} && "base" in Owners(d1.lock, "a.txt") - {"x"};
  }

  // ----- a dependency list that changes

  /** "b" generates a file, "c" needs "b", and "a" needs "c" and covers the file. */
  function ChainOf(x: PayloadFile, y: PayloadFile, z: PayloadFile): Recipe {
    Recipe(Identity("t", "1", "d"), map[
      "b" := FeatureRecipe("1", [], [], map["a.txt" := x], {"a.txt"}),
      "c" := FeatureRecipe("1", ["b"], [], map["c.txt" := y], {}),
      "a" := FeatureRecipe("1", ["c"], [], map["a.txt" := z], {})])
  }

  /** A later version, in which "c" no longer needs "b". */
  function Unchained(x: PayloadFile, y: PayloadFile, z: PayloadFile): Recipe {
    Recipe(Identity("t", "2", "e"), map[
      "b" := FeatureRecipe("1", [], [], map["a.txt" := x], {"a.txt"}),
      "c" := FeatureRecipe("2", [], [], map["c.txt" := y], {}),
      "a" := FeatureRecipe("1", ["c"], [], map["a.txt" := z], {})])
  }

  /** The three installed, as far as the update and the removal look at them. */
  ghost predicate Chained(y: PayloadFile, z: PayloadFile, d: Disk, needs: seq<Name>) {
    && d.journal == None && d.lock.features.Keys == {"a", "b", "c"}
    && d.lock.template == d.lock.recipe.name == "t"
    && d.lock.features["a"].files.Keys == {"a.txt"} == d.lock.features["b"].files.Keys
    && d.lock.features["c"].files.Keys == {"c.txt"}
    && d.lock.features["a"].dependencies == ["c"] && d.lock.features["b"].dependencies == []
    && d.lock.features["c"].dependencies == needs
    && d.lock.features["b"].files["a.txt"].generated && !d.lock.features["b"].files["a.txt"].previousExisted
    && Get(d.files, "a.txt") == Some(z)
    && Get(d.files, "c.txt") == Some(y) == Some(d.lock.features["c"].files["c.txt"].installed)
  }

  lemma ListedAddProceeds(d: Disk, r: Recipe, f: Name, p: Path)
    requires d.journal == None && f in r.features && f !in d.lock.features && r.features[f].files.Keys == {p}
    requires DependencyVerdict(d.lock.features.Keys, r, r.features[f]).Proceed?
    requires Get(d.files, p) == Get(d.lock.managed, p) && CanOverlay(r, f, Owners(d.lock, p))
    ensures AddVerdict(d, r, f).Proceed?
  {
    ClearAddProceeds(d, r, f);
  }

  lemma ChainReaches(x: PayloadFile, y: PayloadFile, z: PayloadFile)
    ensures Reaches(Dependencies(ChainOf(x, y, z)), "a", "b")
  {
    var g := Dependencies(ChainOf(x, y, z));
    EdgeReaches(g, "a", "c");
    EdgeReaches(g, "c", "b");
    ReachesTransitive(g, "a", "c", "b");
  }

  /** What the second add finds. */
  lemma ChainBegins(x: PayloadFile, y: PayloadFile, z: PayloadFile, d0: Disk)
    requires d0 == Created(Origin(map[], map[], {}), "t", ChainOf(x, y, z).identity)
    ensures var r := ChainOf(x, y, z); var d1 := Added(d0, r, "b");
            && TransitionAllowed(d0.lock, r) && AddVerdict(d0, r, "b").Proceed?
            && TransitionAllowed(d1.lock, r) && AddVerdict(d1, r, "c").Proceed?
            && d1.lock.features.Keys == {"b"} && d1.journal == None
  {
    hide Added, AddVerdict, Patch, Reaches;
    var r := ChainOf(x, y, z);
    var d1 := Added(d0, r, "b");
    UnboundAddProceeds(d0, r, "b");
    AddedReads(d0, r, "b", "c.txt");
    assert Owners(d1.lock, "c.txt") == {};
    ListedAddProceeds(d1, r, "c", "c.txt");
  }

  /** What the third add finds. */
  ghost predicate Linked(x: PayloadFile, y: PayloadFile, d: Disk) {
    && d.journal == None && d.lock.features.Keys == {"b", "c"}
    && d.lock.template == "t" && d.lock.recipe == Identity("t", "1", "d")
    && d.lock.features["b"].files.Keys == {"a.txt"} && d.lock.features["c"].files.Keys == {"c.txt"}
    && d.lock.features["b"].dependencies == [] && d.lock.features["c"].dependencies == ["b"]
    && d.lock.features["b"].files["a.txt"].generated && !d.lock.features["b"].files["a.txt"].previousExisted
    && Get(d.files, "a.txt") == Some(x) == Get(d.lock.managed, "a.txt")
    && Get(d.files, "c.txt") == Some(y) == Some(d.lock.features["c"].files["c.txt"].installed)
  }

  lemma ChainLinks(x: PayloadFile, y: PayloadFile, z: PayloadFile, d0: Disk)
    requires d0 == Created(Origin(map[], map[], {}), "t", ChainOf(x, y, z).identity)
    ensures var r := ChainOf(x, y, z); Linked(x, y, Added(Added(d0, r, "b"), r, "c"))
  {
    hide Added, Patch;
    var r := ChainOf(x, y, z);
    var d1 := Added(d0, r, "b");
    AddedReads(d0, r, "b", "a.txt");
    AddedReads(d1, r, "c", "a.txt");
    AddedReads(d1, r, "c", "c.txt");
  }

  lemma ChainEnds(x: PayloadFile, y: PayloadFile, z: PayloadFile, d: Disk)
    requires Linked(x, y, d)
    ensures TransitionAllowed(d.lock, ChainOf(x, y, z)) && AddVerdict(d, ChainOf(x, y, z), "a").Proceed?
  {
    hide AddVerdict, Reaches;
    assert Owners(d.lock, "a.txt") == {"b"};
    ChainReaches(x, y, z);
    ListedAddProceeds(d, ChainOf(x, y, z), "a", "a.txt");
  }

  lemma ChainIsWhole(x: PayloadFile, y: PayloadFile, z: PayloadFile, d: Disk)
    requires Linked(x, y, d)
    ensures Chained(y, z, Added(d, ChainOf(x, y, z), "a"), ["b"])
  {
    hide Added, Patch;
    AddedReads(d, ChainOf(x, y, z), "a", "a.txt");
    AddedReads(d, ChainOf(x, y, z), "a", "c.txt");
  }

  lemma UnchainProceeds(x: PayloadFile, y: PayloadFile, z: PayloadFile, d: Disk)
    requires Chained(y, z, d, ["b"]) && d.lock.recipe.version == "1"
    ensures UpdateVerdict(d, Unchained(x, y, z), "c").Proceed?
  {
    var r := Unchained(x, y, z);
    assert Owners(d.lock, "c.txt") - {"c"} == {};
    var paths := d.lock.features["c"].files.Keys + r.features["c"].files.Keys;
    assert paths == {"c.txt"} && !UpdateConflict(d, r, "c", "c.txt");
    assert (set p | p in paths && UpdateConflict(d, r, "c", p)) == {};
  }

  lemma UnchainLeaves(x: PayloadFile, y: PayloadFile, z: PayloadFile, d: Disk)
    requires Chained(y, z, d, ["b"])
    ensures Chained(y, z, Updated(d, Unchained(x, y, z), "c"), [])
  {
    hide Updated, Patch;
    var r := Unchained(x, y, z);
    UpdatedFeatures(d, r, "c");
    UpdatedFilesAt(d, r, "c", "a.txt");
    UpdatedFilesAt(d, r, "c", "c.txt");
    UpdatedIs(d, r, "c");
  }

  lemma UpdatedIs(d: Disk, r: Recipe, f: Name)
    requires f in d.lock.features && f in r.features
    ensures var e := Updated(d, r, f);
            && e.journal == d.journal && e.lock.template == d.lock.template && e.lock.recipe.name == d.lock.recipe.name
            && f in e.lock.features && e.lock.features[f].files.Keys == r.features[f].files.Keys
            && e.lock.features[f].dependencies == r.features[f].dependencies
  {
    hide Patch, BackUp, Drop, UpdateDesired;
    assert Updated(d, r, f).lock.features[f].files.Keys == r.features[f].files.Keys;
  }

  /** Nothing lists "b" any longer, and the file it generated is no conflict: it can go, and takes along what
      "a" put in its place. */
  lemma UnchainedIsRemovable(y: PayloadFile, z: PayloadFile, d: Disk)
    requires Chained(y, z, d, [])
    ensures RemoveVerdict(d, "b").Proceed?
    ensures "a.txt" in Removed(d, "b").lock.features["a"].files && "a.txt" !in Removed(d, "b").files
  {
    hide Patch;
    assert Dependents(d.lock, "b") == {};
    RemoveIsClear(d, "b");
    PatchAt(d.files, RemoveDesired(d.lock.features["b"]), "a.txt");
  }

  lemma UnchainedIsUnstacked(o: Origin, h: History, y: PayloadFile, z: PayloadFile, d: Disk)
    requires Chained(y, z, d, [])
    ensures !Stacked(ByLock(o, d), h, d)
  {
    hide Stacked, Reaches, Chained;
    UnchainedReaches(y, z, d);
    if Stacked(ByLock(o, d), h, d) {
      StackedOwnersReach(ByLock(o, d), h, d, "a", "b", "a.txt");
    }
  }

  lemma UnchainedReaches(y: PayloadFile, z: PayloadFile, d: Disk)
    requires Chained(y, z, d, [])
    ensures !Reaches(Listed(d.lock), "a", "b") && !Reaches(Listed(d.lock), "b", "a")
    ensures "a" in Owners(d.lock, "a.txt") && "b" in Owners(d.lock, "a.txt")
  {
    var g := Listed(d.lock);
    if Reaches(g, "b", "a") {
      var n := FirstStep(g, "b", "a");
    }
    if Reaches(g, "a", "b") {
      var n := FirstStep(g, "a", "b");
      if Reaches(g, "c", "b") {
        var m := FirstStep(g, "c", "b");
      }
    }
  }

  /** A new version may drop a list entry that others rely on. Then the stack of owners breaks: the feature below
      may be removed from under the one above, and takes its file along. */
  lemma ListsBreakTheStack(x: PayloadFile, y: PayloadFile, z: PayloadFile)
    ensures var r, later := ChainOf(x, y, z), Unchained(x, y, z);
            var o := Origin(map[], map[], {});
            var d0 := Created(o, "t", r.identity);
            var d1 := Added(d0, r, "b");
            var d2 := Added(d1, r, "c");
            var d3 := Added(d2, r, "a");
            && PerformVerdict(d0, Add, r, "b").Proceed? && PerformVerdict(d1, Add, r, "c").Proceed?
            && PerformVerdict(d2, Add, r, "a").Proceed? && PerformVerdict(d3, Update, later, "c").Proceed?
            && var d4 := Updated(d3, later, "c");
            && (forall h :: !Stacked(ByLock(o, d4), h, d4)) && PerformVerdict(d4, Remove, later, "b").Proceed?
            && "a" in Removed(d4, "b").lock.features && "a.txt" in Removed(d4, "b").lock.features["a"].files
            && "a.txt" !in Removed(d4, "b").files
  {
    hide Added, Updated, Removed, Stacked, AddVerdict, UpdateVerdict, RemoveVerdict, Linked;
    var r, later := ChainOf(x, y, z), Unchained(x, y, z);
    var o := Origin(map[], map[], {});
    var d0 := Created(o, "t", r.identity);
    ChainBegins(x, y, z, d0);
    var d2 := Added(Added(d0, r, "b"), r, "c");
    ChainLinks(x, y, z, d0);
    ChainEnds(x, y, z, d2);
    ChainIsWhole(x, y, z, d2);
    var d3 := Added(d2, r, "a");
    AddedReads(d2, r, "a", "a.txt");
    UnchainProceeds(x, y, z, d3);
    UnchainLeaves(x, y, z, d3);
    var d4 := Updated(d3, later, "c");
    UnchainedIsRemovable(y, z, d4);
    RemovedOthers(d4, "b", "a");
    forall h ensures !Stacked(ByLock(o, d4), h, d4) {
      UnchainedIsUnstacked(o, h, y, z, d4);
    }
  }

  lemma RemovedOthers(d: Disk, f: Name, g: Name)
    requires f in d.lock.features && g in d.lock.features && g != f
    ensures g in Removed(d, f).lock.features
  {
  }
}
