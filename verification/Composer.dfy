/** The composer's operations, as they touch the disk one file at a time. Each
    step leaves a snapshot in the ghost `trace`, so what a stop can leave behind
    is what the trace holds. */
module Composer {
  import opened Wrappers
  import opened Names
  import opened Reachability
  import opened Composition
  import opened StepLog

  class Project {
    var files: map<Path, PayloadFile>
    var lock: Lock
    var backups: map<(Name, Path), PayloadFile>
    var journal: Option<Journal>
    ghost var trace: seq<Disk>

    constructor (files: map<Path, PayloadFile>, lock: Lock, backups: map<(Name, Path), PayloadFile>)
      ensures Now() == Disk(files, lock, backups, None) && trace == []
    {
      this.files, this.lock, this.backups, journal, trace := files, lock, backups, None, [];
    }

    ghost function Now(): Disk
      reads this
    {
      Disk(files, lock, backups, journal)
    }

    // ----- single steps: a stop falls between two of these, never inside one

    method WriteFile(path: Path, file: PayloadFile)
      modifies this
      ensures Now() == old(Now()).(files := old(files)[path := file]) && trace == old(trace) + [Now()]
    {
      files := files[path := file];
      trace := trace + [Now()];
    }

    method RemoveFile(path: Path)
      modifies this
      ensures Now() == old(Now()).(files := old(files) - {path}) && trace == old(trace) + [Now()]
    {
      files := files - {path};
      trace := trace + [Now()];
    }

    method WriteBackup(feature: Name, path: Path, file: PayloadFile)
      modifies this
      ensures Now() == old(Now()).(backups := old(backups)[(feature, path) := file]) && trace == old(trace) + [Now()]
    {
      backups := backups[(feature, path) := file];
      trace := trace + [Now()];
    }

    method RemoveBackup(feature: Name, path: Path)
      modifies this
      ensures Now() == old(Now()).(backups := old(backups) - {(feature, path)}) && trace == old(trace) + [Now()]
    {
      backups := backups - {(feature, path)};
      trace := trace + [Now()];
    }

    method WriteLock(next: Lock)
      modifies this
      ensures Now() == old(Now()).(lock := next) && trace == old(trace) + [Now()]
    {
      lock := next;
      trace := trace + [Now()];
    }

    method ClearJournal()
      modifies this
      ensures Now() == old(Now()).(journal := None) && trace == old(trace) + [Now()]
    {
      journal := None;
      trace := trace + [Now()];
    }

    /** The staged journal appears in one rename. */
    method BeginJournal(operation: Operation, feature: Name, desired: map<Path, Option<Digest>>)
      returns (error: Option<Error>)
      modifies this
      ensures error == if old(journal).Some? then Some(Conflict({JOURNAL})) else None
      ensures error.Some? ==> Now() == old(Now()) && trace == old(trace)
      ensures error.None? ==>
                && Now() == old(Now()).(journal := Some(Capture(old(Now()), operation, feature, desired)))
                && trace == old(trace) + [Now()]
    {
      if journal.Some? {
        return Some(Conflict({JOURNAL}));
      }
      var before := map p | p in desired && p in files :: files[p];
      var entries := map p | p in desired :: Entry(Get(files, p), desired[p]);
      var saved := map q | q in backups && q.0 == feature :: backups[q];
      journal := Some(Journal(operation, feature, entries, before, lock, saved));
      trace := trace + [Now()];
      return None;
    }

    // ----- the checks before an operation

    method CanOverlayOwned(r: Recipe, f: Name, owners: set<Name>) returns (can: bool)
      ensures can <==> CanOverlay(r, f, owners)
    {
      var todo := owners;
      while todo != {}
        invariant todo <= owners && CanOverlay(r, f, owners - todo)
      {
        var owner :| owner in todo;
        if owner != "base" {
          var depends := DependsOn(Dependencies(r), f, owner);
          if !depends {
            return false;
          }
        }
        todo := todo - {owner};
      }
      assert owners - todo == owners;
      return true;
    }

    method AddConflicts(r: Recipe, f: Name) returns (conflicts: set<Path>)
      requires f in r.features
      ensures conflicts == set p | p in r.features[f].files && AddConflict(Now(), r, f, p)
    {
      conflicts := {};
      var paths := r.features[f].files.Keys;
      var todo := paths;
      while todo != {}
        invariant todo <= paths && conflicts == set p | p in paths - todo && AddConflict(Now(), r, f, p)
      {
        var path :| path in todo;
        if Get(files, path) != Get(lock.managed, path) {
          if !(path in r.features[f].generated && path in lock.managed) {
            conflicts := conflicts + {path};
          }
        }
        var can := CanOverlayOwned(r, f, Owners(lock, path));
        if !can {
          conflicts := conflicts + {path};
        }
        todo := todo - {path};
      }
    }

    method RemoveConflicts(f: Name) returns (conflicts: set<Path>)
      requires f in lock.features
      ensures conflicts == set p | p in lock.features[f].files && RemoveConflict(Now(), f, p)
    {
      conflicts := {};
      var feature := lock.features[f];
      var todo := feature.files.Keys;
      while todo != {}
        invariant todo <= feature.files.Keys
        invariant conflicts == set p | p in feature.files.Keys - todo && RemoveConflict(Now(), f, p)
      {
        var path :| path in todo;
        if Get(files, path) != Some(feature.files[path].installed) {
          if !feature.files[path].generated {
            conflicts := conflicts + {path};
          }
        }
        todo := todo - {path};
      }
    }

    method UpdateConflicts(r: Recipe, f: Name) returns (conflicts: set<Path>)
      requires f in r.features && f in lock.features
      ensures conflicts == set p | p in lock.features[f].files.Keys + r.features[f].files.Keys
              && UpdateConflict(Now(), r, f, p)
    {
      conflicts := {};
      var prior, generated := lock.features[f].files, r.features[f].generated;
      var paths := prior.Keys + r.features[f].files.Keys;
      var todo := paths;
      while todo != {}
        invariant todo <= paths && conflicts == set p | p in paths - todo && UpdateConflict(Now(), r, f, p)
      {
        var path :| path in todo;
        var current := Get(files, path);
        if path in prior {
          if current != Some(prior[path].installed) && !(prior[path].generated || path in generated) {
            conflicts := conflicts + {path};
          }
        } else if current != Get(lock.managed, path) && !(path in generated && path in lock.managed) {
          conflicts := conflicts + {path};
        }
        var can := CanOverlayOwned(r, f, Owners(lock, path) - {f});
        if !can {
          conflicts := conflicts + {path};
        }
        todo := todo - {path};
      }
    }

    // ----- the operations

    /** Cover one path: the backup first, then the file. */
    method Cover(f: Name, path: Path, file: PayloadFile)
      modifies this
      ensures var d := old(Now());
              && Now() == d.(files := d.files[path := file],
                             backups := if path in d.files then d.backups[(f, path) := d.files[path]] else d.backups)
              && trace == old(trace) + (if path in d.files then [d.(backups := backups)] else []) + [Now()]
    {
      if path in files {
        WriteBackup(f, path, files[path]);
      }
      WriteFile(path, file);
    }

    /** Cover each of `paths` with its payload file: keep what was there in the
        backups, write the file, and note both in the lock being built. */
    method CoverAll(f: Name, feature: FeatureRecipe, paths: set<Path>, managed0: map<Path, Digest>,
        locked0: map<Path, LockedFile>)
      returns (managed: map<Path, Digest>, locked: map<Path, LockedFile>)
      requires paths <= feature.files.Keys
      modifies this
      ensures (Now(), managed, locked) == Covered(old(Now()), f, feature, paths, managed0, locked0)
      ensures Logged(old(trace), trace, old(Now()), f, Only(AddDesired(feature), paths))
    {
      ghost var d0 := Now();
      managed, locked := managed0, locked0;
      var todo := paths;
      ghost var done: set<Path> := {};
      CoverNone(d0, f, feature, managed0, locked0);
      while todo != {}
        invariant done !! todo && done + todo == paths
        invariant done <= feature.files.Keys
                  && (Now(), managed, locked) == Covered(d0, f, feature, done, managed0, locked0)
        invariant Logged(old(trace), trace, d0, f, Only(AddDesired(feature), paths))
        decreases todo
      {
        var path :| path in todo;
        CoverOneMore(d0, f, feature, done, managed0, locked0, path);
        LogCover(old(trace), trace, d0, f, feature, paths, done, path);
        MoveOne(paths, done, todo, path);
        var covering := LockedFile(feature.files[path], Get(files, path), path in files, path in feature.generated);
        Cover(f, path, feature.files[path]);
        managed := managed[path := feature.files[path]];
        locked := locked[path := covering];
        todo, done := todo - {path}, done + {path};
      }
      assert done == paths;
    }

    method AddLoadedFeature(r: Recipe, f: Name) returns (result: Result<set<Path>, Error>)
      modifies this
      ensures var d0 := old(Now()); var verdict := AddVerdict(d0, r, f);
              if verdict.Refuse? then result == Err(verdict.error) && Now() == d0 && trace == old(trace)
              else
                var desired := AddDesired(r.features[f]);
                && result == Ok(r.features[f].files.Keys) && Now() == Added(d0, r, f) && old(trace) <= trace
                && OnTheWay(d0, Capture(d0, Add, f, desired), desired, trace, |old(trace)|, Now())
                && CrashSafe(d0, Capture(d0, Add, f, desired), trace, |old(trace)|, Now())
    {
      if f in lock.features {
        return Err(Usage);
      }
      if f !in r.features {
        return Err(NotFound(f));
      }
      var feature := r.features[f];
      var dependencies := DependencyVerdict(lock.features.Keys, r, feature);
      if dependencies.Refuse? {
        return Err(dependencies.error);
      }
      var conflicts := AddConflicts(r, f);
      if conflicts != {} {
        return Err(Conflict(conflicts));
      }
      ghost var d0 := Now();
      var error := BeginJournal(Add, f, AddDesired(feature));
      if error.Some? {
        return Err(error.value);
      }
      ghost var begun := Now();
      var managed, locked := CoverAll(f, feature, feature.files.Keys, lock.managed, map[]);
      ghost var logged := trace;
      AllCovered(d0, begun, r, f);
      var next := lock.(managed := managed,
        features := lock.features[f := LockedFeature(feature.version, locked, feature.dependencies)]);
      WriteLock(Identify(next, r));
      OperationSafe(old(trace), logged, d0, Add, f, AddDesired(feature), AddDesired(feature), Now(), Added(d0, r, f));
      ClearJournal();
      WrittenIsCrashSafe(d0, Add, f, AddDesired(feature), trace, |old(trace)|, Now());
      return Ok(feature.files.Keys);
    }

    /** Delete a feature's whole backup directory, file by file. */
    method RemoveBackups(f: Name)
      modifies this
      ensures Now() == old(Now()).(backups := Others(old(backups), f))
      ensures Logged(old(trace), trace, old(Now()), f, map[])
    {
      ghost var d0 := Now();
      var todo := set q | q in backups && q.0 == f;
      while todo != {}
        invariant todo == (set q | q in backups && q.0 == f)
        invariant Now() == d0.(backups := backups) && Others(backups, f) == Others(d0.backups, f)
        invariant Logged(old(trace), trace, d0, f, map[])
      {
        var q :| q in todo;
        ghost var left := backups - {q};
        BackupsToward(d0, f, d0.(backups := left));
        LogSome(old(trace), trace, d0, f, map[], [], d0.(backups := left));
        RemoveBackup(f, q.1);
        todo := todo - {q};
      }
      forall q: (Name, Path) | q in backups ensures q.0 != f {
        assert q !in todo;
      }
      assert Others(backups, f) == backups;
    }

    /** Give back what each of a feature's files covered; a file that covered nothing goes. */
    method RestoreAll(f: Name, feature: LockedFeature) returns (managed: map<Path, Digest>, error: Option<Error>)
      modifies this
      ensures Now() == old(Now()).(files := files)
      ensures error == None <==> Restorable(backups, f, feature.files)
      ensures error == None ==>
                && files == Patch(old(files), Saved(backups, f, feature.files))
                && managed == Patch(lock.managed, RemoveDesired(feature))
      ensures Toward(old(Now()), f, Saved(backups, f, feature.files), Now())
      ensures Logged(old(trace), trace, old(Now()), f, Saved(backups, f, feature.files))
    {
      hide Patch, Only, Logged, Toward;
      ghost var d0, desired, saved := Now(), RemoveDesired(feature), Saved(backups, f, feature.files);
      managed, error := lock.managed, None;
      var todo := feature.files.Keys;
      ghost var done: set<Path> := {};
      LogNone(trace, d0, f, saved);
      PatchNone(d0.files, saved);
      PatchNone(d0.lock.managed, desired);
      MovedToward(d0, f, saved, done, backups, Now());
      while todo != {}
        invariant done !! todo && done + todo == feature.files.Keys
        invariant Now() == d0.(files := files) && error == None
        invariant files == Patch(d0.files, Only(saved, done)) && managed == Patch(d0.lock.managed, Only(desired, done))
        invariant forall p :: p in done && feature.files[p].previousExisted ==>
                                (f, p) in backups && feature.files[p].previous.Some?
        invariant Toward(d0, f, saved, Now()) && Logged(old(trace), trace, d0, f, saved)
        decreases todo
      {
        var path :| path in todo;
        var file := feature.files[path];
        ghost var logged := trace;
        if file.previousExisted {
          if (f, path) !in backups {
            return managed, Some(Io);
          }
          WriteFile(path, backups[(f, path)]);
          PatchStep(d0.files, saved, done, path);
          MovedToward(d0, f, saved, done + {path}, backups, Now());
          LogLast(old(trace), logged, d0, f, saved, Now());
          if file.previous.None? {
            return managed, Some(InvalidRecipe);
          }
          managed := managed[path := file.previous.value];
        } else {
          RemoveFile(path);
          PatchStep(d0.files, saved, done, path);
          MovedToward(d0, f, saved, done + {path}, backups, Now());
          LogLast(old(trace), logged, d0, f, saved, Now());
          managed := managed - {path};
        }
        PatchStep(d0.lock.managed, desired, done, path);
        MoveOne(feature.files.Keys, done, todo, path);
        todo, done := todo - {path}, done + {path};
      }
      PatchAll(d0.files, saved, done);
      PatchAll(d0.lock.managed, desired, done);
    }

    method RemoveFeature(f: Name) returns (result: Result<set<Path>, Error>)
      modifies this
      ensures var d0 := old(Now()); var verdict := RemoveVerdict(d0, f);
              if verdict.Refuse? then result == Err(verdict.error) && Now() == d0 && trace == old(trace)
              else
                var feature := d0.lock.features[f];
                var j, saved := Capture(d0, Remove, f, RemoveDesired(feature)), Saved(d0.backups, f, feature.files);
                && old(trace) <= trace && OnTheWay(d0, j, saved, trace, |old(trace)|, Now())
                && (if Restorable(d0.backups, f, feature.files) then
                      result == Ok(feature.files.Keys) && Now() == Removed(d0, f).(files := Patch(d0.files, saved))
                    else result.Err? && Toward(d0.(journal := Some(j)), f, saved, Now()) && lock == d0.lock)
                && (BackupsHold(d0.backups, f, feature.files) ==>
                      && result == Ok(feature.files.Keys) && Now() == Removed(d0, f)
                      && CrashSafe(d0, j, trace, |old(trace)|, Now()))
    {
      if f !in lock.features {
        return Err(NotFound(f));
      }
      var feature := lock.features[f];
      if Dependents(lock, f) != {} {
        return Err(Usage);
      }
      var conflicts := RemoveConflicts(f);
      if conflicts != {} {
        return Err(Conflict(conflicts));
      }
      ghost var d0 := Now();
      ghost var desired, saved := RemoveDesired(feature), Saved(backups, f, feature.files);
      var error := BeginJournal(Remove, f, RemoveDesired(feature));
      if error.Some? {
        return Err(error.value);
      }
      ghost var begun := Now();
      if BackupsHold(backups, f, feature.files) {
        HeldIsSaved(backups, f, feature);
      }
      var managed, failure := RestoreAll(f, feature);
      if failure.Some? {
        FailureSafe(old(trace), trace, d0, Remove, f, desired, saved, Now());
        return Err(failure.value);
      }
      ghost var moved, middle := Now(), trace;
      RemoveBackups(f);
      AllRestored(d0, begun, f, moved, saved);
      LogOnward(old(trace) + [begun], middle, trace, begun, f, saved, moved, map[]);
      ghost var logged := trace;
      WriteLock(lock.(managed := managed, features := lock.features - {f}));
      OperationSafe(
        old(trace), logged, d0, Remove, f, desired, saved, Now(), Removed(d0, f).(files := Patch(d0.files, saved)));
      ClearJournal();
      if BackupsHold(d0.backups, f, feature.files) {
        WrittenIsCrashSafe(d0, Remove, f, desired, trace, |old(trace)|, Now());
      }
      return Ok(feature.files.Keys);
    }

    /** Give one path back and drop its backup. */
    method RestorePrevious(f: Name, path: Path, file: LockedFile, managed0: map<Path, Digest>)
      returns (managed: map<Path, Digest>, error: Option<Error>)
      modifies this
      ensures lock == old(lock) && journal == old(journal)
      ensures error == if !file.previousExisted then None
                       else if (f, path) !in old(backups) then Some(Io)
                       else if file.previous.None? then Some(InvalidRecipe)
                       else None
      ensures error == Some(Io) ==> Now() == old(Now()) && trace == old(trace)
      ensures error != Some(Io) ==>
                files == if file.previousExisted then old(files)[path := old(backups)[(f, path)]]
                         else old(files) - {path}
      ensures error.Some? ==> backups == old(backups) && managed == managed0
      ensures error.None? ==>
                && backups == old(backups) - {(f, path)}
                && managed == if file.previousExisted then managed0[path := file.previous.value] else managed0 - {path}
      ensures var given: map<Path, Option<Digest>> :=
                map[path := if file.previousExisted then Get(old(backups), (f, path)) else None];
              Toward(old(Now()), f, given, Now()) && Logged(old(trace), trace, old(Now()), f, given)
    {
      ghost var d0 := Now();
      ghost var given: map<Path, Option<Digest>> :=
        map[path := if file.previousExisted then Get(backups, (f, path)) else None];
      managed, error := managed0, None;
      if file.previousExisted {
        if (f, path) !in backups {
          return managed, Some(Io);
        }
        WriteFile(path, backups[(f, path)]);
        if file.previous.None? {
          return managed, Some(InvalidRecipe);
        }
        managed := managed[path := file.previous.value];
      } else {
        RemoveFile(path);
        managed := managed - {path};
      }
      LogLast(old(trace), old(trace), d0, f, given, Now());
      ghost var logged := trace;
      if (f, path) in backups {
        RemoveBackup(f, path);
        LogLast(old(trace), logged, d0, f, given, Now());
      }
    }

    /** Replace what the feature already owns, giving back what its new payload leaves out. */
    method ReplaceOwned(f: Name, prior: LockedFeature, feature: FeatureRecipe)
      returns (managed: map<Path, Digest>, locked: map<Path, LockedFile>, error: Option<Error>)
      modifies this
      ensures lock == old(lock) && journal == old(journal)
      ensures error == None <==> Restorable(old(backups), f, Dropped(prior.files, feature))
      ensures error == None ==>
                (Now(), managed, locked) == Replaced(old(Now()), f, prior, feature, lock.managed, prior.files.Keys)
      ensures Toward(old(Now()), f, Writes(old(backups), f, prior, feature), Now())
      ensures Logged(old(trace), trace, old(Now()), f, Writes(old(backups), f, prior, feature))
    {
      hide Toward, Logged, Replaced;
      ghost var d0 := Now();
      ghost var writes := Writes(backups, f, prior, feature);
      managed, locked, error := lock.managed, map[], None;
      var todo := prior.files.Keys;
      ghost var done: set<Path> := {};
      LogNone(trace, d0, f, writes);
      ReplaceNone(d0, f, prior, feature, managed);
      while todo != {}
        invariant done !! todo && done + todo == prior.files.Keys
        invariant lock == d0.lock && journal == d0.journal && error == None
        invariant (Now(), managed, locked) == Replaced(d0, f, prior, feature, d0.lock.managed, done)
        invariant forall p :: p in done && p !in feature.files && prior.files[p].previousExisted ==>
                                (f, p) in d0.backups && prior.files[p].previous.Some?
        invariant Logged(old(trace), trace, d0, f, writes)
        decreases todo
      {
        var path :| path in todo;
        ghost var logged, before := trace, Now();
        ReplacedElsewhere(d0, f, prior, feature, d0.lock.managed, done);
        ReplacedToward(d0, f, prior, feature, d0.lock.managed, done);
        if path !in feature.files {
          ghost var given: map<Path, Option<Digest>> := map[path := Saved(backups, f, prior.files)[path]];
          assert given[path] == writes[path];
          managed, error := RestorePrevious(f, path, prior.files[path], managed);
          LogOnward(old(trace), logged, trace, d0, f, writes, before, given);
          if error.Some? {
            TowardOnward(d0, f, writes, before, given, Now());
            assert path in Dropped(prior.files, feature);
            return;
          }
        } else {
          WriteFile(path, feature.files[path]);
          managed := managed[path := feature.files[path]];
          locked := locked[path :=
            prior.files[path].(installed := feature.files[path], generated := path in feature.generated)];
        }
        ReplaceOneMore(d0, f, prior, feature, d0.lock.managed, done, path);
        if path in feature.files {
          ReplacedToward(d0, f, prior, feature, d0.lock.managed, done + {path});
          LogLast(old(trace), logged, d0, f, writes, Now());
        }
        MoveOne(prior.files.Keys, done, todo, path);
        todo, done := todo - {path}, done + {path};
      }
      ReplacedToward(d0, f, prior, feature, d0.lock.managed, done);
    }

    method UpdateFeature(r: Recipe, f: Name) returns (result: Result<set<Path>, Error>)
      modifies this
      ensures var d0 := old(Now()); var verdict := UpdateVerdict(d0, r, f);
              if verdict.Refuse? then result == Err(verdict.error) && Now() == d0 && trace == old(trace)
              else
                var prior, feature := d0.lock.features[f], r.features[f];
                var j, writes := Capture(d0, Update, f, UpdateDesired(prior, feature)),
                  Writes(d0.backups, f, prior, feature);
                && old(trace) <= trace && OnTheWay(d0, j, writes, trace, |old(trace)|, Now())
                && (if Restorable(d0.backups, f, Dropped(prior.files, feature)) then
                      result == Ok(prior.files.Keys + feature.files.Keys) && Now() == UpdatedFrom(d0, r, f)
                    else result.Err? && Toward(d0.(journal := Some(j)), f, writes, Now()) && lock == d0.lock)
                && (BackupsHold(d0.backups, f, prior.files) ==>
                      && result == Ok(prior.files.Keys + feature.files.Keys) && Now() == Updated(d0, r, f)
                      && CrashSafe(d0, j, trace, |old(trace)|, Now()))
    {
      if !TransitionAllowed(lock, r) {
        return Err(InvalidRecipe);
      }
      if f !in lock.features || f !in r.features {
        return Err(NotFound(f));
      }
      var prior, feature := lock.features[f], r.features[f];
      var dependencies := DependencyVerdict(lock.features.Keys - {f}, r, feature);
      if dependencies.Refuse? {
        return Err(dependencies.error);
      }
      var conflicts := UpdateConflicts(r, f);
      if conflicts != {} {
        return Err(Conflict(conflicts));
      }
      ghost var d0 := Now();
      ghost var desired, writes := UpdateDesired(prior, feature), Writes(backups, f, prior, feature);
      var error := BeginJournal(Update, f, UpdateDesired(prior, feature));
      if error.Some? {
        return Err(error.value);
      }
      ghost var begun := Now();
      if BackupsHold(backups, f, prior.files) {
        HeldIsWritten(backups, f, prior, feature);
      }
      var managed, locked, failure := ReplaceOwned(f, prior, feature);
      if failure.Some? {
        FailureSafe(old(trace), trace, d0, Update, f, desired, writes, Now());
        return Err(failure.value);
      }
      ghost var moved, middle := Now(), trace;
      var extra := feature.files.Keys - prior.files.Keys;
      managed, locked := CoverAll(f, feature, extra, managed, locked);
      AllUpdated(d0, begun, r, f);
      LogOnward(old(trace) + [begun], middle, trace, begun, f, writes, moved, Only(AddDesired(feature), extra));
      UpdatedToward(d0, begun, r, f);
      ghost var logged := trace;
      var next := lock.(managed := managed,
        features := lock.features[f := LockedFeature(feature.version, locked, feature.dependencies)]);
      WriteLock(Identify(next, r));
      OperationSafe(old(trace), logged, d0, Update, f, desired, writes, Now(), UpdatedFrom(d0, r, f));
      ClearJournal();
      if BackupsHold(d0.backups, f, prior.files) {
        WrittenIsCrashSafe(d0, Update, f, desired, trace, |old(trace)|, Now());
      }
      return Ok(prior.files.Keys + feature.files.Keys);
    }

    // ----- recovery

    /** Put back every journaled file. */
    method UndoFiles(j: Journal) returns (error: Option<Error>)
      requires journal == Some(j)
      modifies this
      ensures Now() == old(Now()).(files := files)
      ensures error == if Copied(j) then None else Some(Io)
      ensures error == None ==> files == Patch(old(files), Copies(j))
      ensures Toward(old(Now()), j.feature, Copies(j), Now())
      ensures Logged(old(trace), trace, old(Now()), j.feature, Copies(j))
    {
      hide Toward, Logged, Patch, Only;
      ghost var d0 := Now();
      error := None;
      var todo := j.entries.Keys;
      ghost var done: set<Path> := {};
      PatchNone(d0.files, Copies(j));
      LogNone(trace, d0, j.feature, Copies(j));
      MovedToward(d0, j.feature, Copies(j), done, backups, Now());
      while todo != {}
        invariant done !! todo && done + todo == j.entries.Keys && error == None
        invariant Now() == d0.(files := files)
        invariant files == Patch(d0.files, Only(Copies(j), done))
        invariant forall p :: p in done && j.entries[p].before.Some? ==> p in j.before
        invariant Toward(d0, j.feature, Copies(j), Now()) && Logged(old(trace), trace, d0, j.feature, Copies(j))
        decreases todo
      {
        var path :| path in todo;
        ghost var logged := trace;
        if j.entries[path].before.Some? {
          if path !in j.before {
            return Some(Io);
          }
          WriteFile(path, j.before[path]);
        } else {
          RemoveFile(path);
        }
        UndoOneMore(d0.files, j, done, path);
        MovedToward(d0, j.feature, Copies(j), done + {path}, backups, Now());
        LogLast(old(trace), logged, d0, j.feature, Copies(j), Now());
        MoveOne(j.entries.Keys, done, todo, path);
        todo, done := todo - {path}, done + {path};
      }
      PatchAll(d0.files, Copies(j), done);
    }

    /** Put back a feature's saved backups, file by file. */
    method CopyBackups(f: Name, saved: map<(Name, Path), PayloadFile>)
      modifies this
      ensures Now() == old(Now()).(backups := old(backups) + saved) && old(trace) <= trace
      ensures (forall q: (Name, Path) :: q in saved ==> q.0 == f) ==> Logged(old(trace), trace, old(Now()), f, map[])
    {
      hide Logged, Toward, Only, Others;
      ghost var d0, own := Now(), forall q: (Name, Path) :: q in saved ==> q.0 == f;
      var todo := saved.Keys;
      ghost var done: set<(Name, Path)> := {};
      CopyNone(backups, saved);
      LogNone(trace, d0, f, map[]);
      while todo != {}
        invariant done !! todo && done + todo == saved.Keys
        invariant Now() == d0.(backups := d0.backups + Only(saved, done)) && old(trace) <= trace
        invariant own ==> Logged(old(trace), trace, d0, f, map[])
        decreases todo
      {
        var q :| q in todo;
        ghost var before := trace;
        CopyStep(d0.backups, saved, done, q);
        WriteBackup(q.0, q.1, saved[q]);
        if own {
          CopyOthers(d0.backups, saved, done + {q}, f);
          BackupsToward(d0, f, Now());
          LogLast(old(trace), before, d0, f, map[], Now());
        }
        MoveOne(saved.Keys, done, todo, q);
        todo, done := todo - {q}, done + {q};
      }
      CopyAll(saved, done);
    }

    method AbortJournal() returns (result: Result<Journal, Error>)
      modifies this
      ensures var d := old(Now());
              if d.journal == None then result.Err? && Now() == d && trace == old(trace)
              else if Edited(d) != {} then result == Err(Conflict(Edited(d))) && Now() == d && trace == old(trace)
              else
                var j := d.journal.value;
                && (if Copied(j) then result == Ok(j) && Now() == Restarted(d)
                    else
                      result == Err(Io) && Now() == d.(files := files) && Toward(d, j.feature, Copies(j), Now()))
                && old(trace) <= trace && (Own(j) ==> OnTheWayBack(d, trace, |old(trace)|, Now()))
                && (Complete(j) ==>
                      && result == Ok(j) && Now() == RolledBack(d)
                      && CrashSafe(RolledBack(d), j, trace, |old(trace)|, RolledBack(d)))
    {
      if journal.None? {
        return Err(NotFound("pending composition operation"));
      }
      var j := journal.value;
      ghost var d := Now();
      var conflicts := set p | p in j.entries && Get(files, p) != j.entries[p].before
        && Get(files, p) != j.entries[p].after;
      if conflicts != {} {
        return Err(Conflict(conflicts));
      }
      if Complete(j) {
        CompleteIsCopied(j);
      }
      var error := UndoFiles(j);
      if error.Some? {
        BackIsLogged(old(trace), trace, d, Now());
        return Err(error.value);
      }
      ghost var logged := trace;
      WriteLock(j.lock);
      LogLast(old(trace), logged, d, j.feature, Copies(j), Now());
      ghost var middle, from := trace, Now();
      RemoveBackups(j.feature);
      LogOnward(old(trace), middle, trace, d, j.feature, Copies(j), from, map[]);
      OthersTwice(d.backups, j.feature);
      BackupsToward(from, j.feature, Now());
      TowardOnward(d, j.feature, Copies(j), from, map[], Now());
      middle, from := trace, Now();
      CopyBackups(j.feature, j.backups);
      if Own(j) {
        LogOnward(old(trace), middle, trace, d, j.feature, Copies(j), from, map[]);
        BackIsLogged(old(trace), trace, d, Restarted(d));
      }
      ClearJournal();
      if Complete(j) {
        RollbackSafe(trace, |old(trace)|, d);
      }
      return Ok(j);
    }

    method AddFeature(r: Recipe, f: Name) returns (result: Result<set<Path>, Error>)
      modifies this
      ensures var d0 := old(Now()); var verdict := PerformVerdict(d0, Add, r, f);
              if verdict.Refuse? then result == Err(verdict.error) && Now() == d0 && trace == old(trace)
              else
                var desired := AddDesired(r.features[f]);
                && result == Ok(r.features[f].files.Keys) && Now() == Added(d0, r, f) && old(trace) <= trace
                && OnTheWay(d0, Capture(d0, Add, f, desired), desired, trace, |old(trace)|, Now())
                && CrashSafe(d0, Capture(d0, Add, f, desired), trace, |old(trace)|, Now())
    {
      if !TransitionAllowed(lock, r) {
        return Err(InvalidRecipe);
      }
      result := AddLoadedFeature(r, f);
    }

    /** The operation a journal names. */
    method Perform(operation: Operation, r: Recipe, f: Name) returns (result: Result<set<Path>, Error>)
      modifies this
      ensures var d0 := old(Now()); var verdict := PerformVerdict(d0, operation, r, f);
              if verdict.Refuse? then result == Err(verdict.error) && Now() == d0 && trace == old(trace)
              else
                var desired, written := Desired(d0, operation, r, f), Written(d0, operation, r, f);
                var j := Capture(d0, operation, f, desired);
                && old(trace) <= trace && OnTheWay(d0, j, written, trace, |old(trace)|, Now())
                && (if Reliable(d0, operation, r, f) then
                      result == Ok(desired.Keys) && Now() == PerformedFrom(d0, operation, r, f)
                    else result.Err? && Toward(d0.(journal := Some(j)), f, written, Now()) && lock == d0.lock)
    {
      ghost var d0 := Now();
      hide InFlight, Patch, Toward, OnTheWay, PerformedFrom, Written, Reliable, Desired, UpdatedFrom, Added, Removed;
      if PerformVerdict(d0, operation, r, f).Proceed? {
        PerformsAs(d0, operation, r, f);
      }
      match operation {
        case Add => result := AddFeature(r, f);
        case Remove => result := RemoveFeature(f);
        case Update => result := UpdateFeature(r, f);
      }
    }

    /** Roll back, then run the journaled operation again from the start. */
    method ContinueOperation(r: Recipe) returns (result: Result<set<Path>, Error>)
      modifies this
      ensures var d := old(Now());
              if d.journal == None then result.Err? && Now() == d && trace == old(trace)
              else if Edited(d) != {} then result == Err(Conflict(Edited(d))) && Now() == d && trace == old(trace)
              else if !Copied(d.journal.value) then
                && result == Err(Io) && Now() == d.(files := files)
                && Toward(d, d.journal.value.feature, Copies(d.journal.value), Now())
                && old(trace) <= trace
                && (Own(d.journal.value) ==> OnTheWayBack(d, trace, |old(trace)|, Now()))
              else
                var j, target := d.journal.value, Restarted(d);
                var verdict := PerformVerdict(target, j.operation, r, j.feature);
                if verdict.Refuse? then
                  && result == Err(verdict.error) && Now() == target && old(trace) <= trace
                  && (Own(j) ==> OnTheWayBack(d, trace, |old(trace)|, target))
                  && (Complete(j) ==> CrashSafe(target, j, trace, |old(trace)|, target))
                else
                  var desired := Desired(target, j.operation, r, j.feature);
                  var written, redone := Written(target, j.operation, r, j.feature),
                    Capture(target, j.operation, j.feature, desired);
                  && (if Reliable(target, j.operation, r, j.feature) then
                        && result == Ok(desired.Keys)
                        && Now() == PerformedFrom(target, j.operation, r, j.feature)
                      else
                        && result.Err? && lock == target.lock
                        && Toward(target.(journal := Some(redone)), j.feature, written, Now()))
                  && old(trace) <= trace
                  && (Own(j) ==> OnTheWayThrough(d, target, redone, written, trace, |old(trace)|, Now()))
                  && (Complete(j) && Sound(target, j.feature) ==>
                        && target == RolledBack(d)
                        && ResumeSafe(target, j, redone, trace, |old(trace)|, Now()))
    {
      if journal.None? {
        return Err(NotFound("pending composition operation"));
      }
      var j := journal.value;
      ghost var d, before, target := Now(), trace, Restarted(Now());
      hide PerformVerdict, Performed, Desired, Capture, InFlight, Patch, Edited, Sound, Toward, Written, Reliable;
      if Complete(j) {
        CompleteIsCopied(j);
      }
      var aborted := AbortJournal();
      if aborted.Err? {
        return Err(aborted.error);
      }
      ghost var middle := trace;
      result := Perform(j.operation, r, j.feature);
      if Own(j) && PerformVerdict(target, j.operation, r, j.feature).Proceed? {
        var desired := Desired(target, j.operation, r, j.feature);
        BackAndOn(before, middle, trace, d, target, Capture(target, j.operation, j.feature, desired),
          Written(target, j.operation, r, j.feature), Now());
      }
      if Complete(j) && Sound(target, j.feature) && PerformVerdict(target, j.operation, r, j.feature).Proceed? {
        SoundIsWritten(target, j.operation, r, j.feature);
        WrittenIsCrashSafe(
          target, j.operation, j.feature, Desired(target, j.operation, r, j.feature), trace, |middle|, Now());
      }
    }
  }
}
