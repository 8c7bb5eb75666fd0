/** What the checks before an operation let through and with which error they refuse, in terms of the files and
    the lock; what they keep up from one operation to the next; and what the operations undo of each other. */
module Checks {
  import opened Wrappers
  import opened Names
  import opened Reachability
  import opened Composition

  // ----- what is let through

  /** The file is what the lock manages. */
  predicate Unedited(d: Disk, p: Path) {
    Get(d.files, p) == Get(d.lock.managed, p)
  }

  /** The owners of a path, apart from `f` and from the template, are features that `f` reaches. */
  ghost predicate LiesOver(d: Disk, r: Recipe, f: Name, p: Path) {
    forall n :: n in d.lock.features && p in d.lock.features[n].files && n != f && n != "base" ==>
                  Reaches(Dependencies(r), f, n)
  }

  /** An add proceeds exactly for a known feature that is not installed, whose dependencies are known and installed
      and whose conflicts are not, over files that are as the lock manages them, or generated and managed, and
      that belong to features it reaches, while no journal is pending. */
  lemma AddProceedsIff(d: Disk, r: Recipe, f: Name)
    ensures AddVerdict(d, r, f).Proceed? <==>
            && d.journal == None && f in r.features && f !in d.lock.features
            && (forall e :: e in r.features[f].dependencies ==> e in d.lock.features && e in r.features)
            && (forall c :: c in r.features[f].conflicts ==> c !in d.lock.features)
            && (forall p :: p in r.features[f].files ==>
                              && (Unedited(d, p) || (p in r.features[f].generated && p in d.lock.managed))
                              && LiesOver(d, r, f, p))
  {
    hide Reaches, AddVerdict;
    AddIsClear(d, r, f);
    if f in r.features && f !in d.lock.features {
      forall p | p in r.features[f].files
        ensures !AddConflict(d, r, f, p) <==>
                && (Unedited(d, p) || (p in r.features[f].generated && p in d.lock.managed))
                && LiesOver(d, r, f, p)
      {
      }
    }
  }

  /** A removal proceeds exactly for an installed feature that no other lists, whose files hold what it installed or
      are generated, while no journal is pending. */
  lemma RemoveProceedsIff(d: Disk, f: Name)
    ensures RemoveVerdict(d, f).Proceed? <==>
            && d.journal == None && f in d.lock.features
            && (forall n :: n in d.lock.features && n != f ==> f !in d.lock.features[n].dependencies)
            && (forall p :: p in d.lock.features[f].files ==>
                              || Get(d.files, p) == Some(d.lock.features[f].files[p].installed)
                              || d.lock.features[f].files[p].generated)
  {
    hide RemoveVerdict;
    RemoveIsClear(d, f);
    assert forall n :: n in Dependents(d.lock, f) <==>
                         n in d.lock.features && n != f && f in d.lock.features[n].dependencies;
  }

  /** An update proceeds exactly for an installed and known feature whose recipe may follow the locked one, under the
      conditions of an add for its new files, and of a removal for its old ones, save that either version may call
      a file generated. */
  lemma UpdateProceedsIff(d: Disk, r: Recipe, f: Name)
    ensures UpdateVerdict(d, r, f).Proceed? <==>
            && d.journal == None && f in r.features && f in d.lock.features && TransitionAllowed(d.lock, r)
            && (forall e :: e in r.features[f].dependencies ==> e in d.lock.features && e in r.features && e != f)
            && (forall c :: c in r.features[f].conflicts && c in d.lock.features ==> c == f)
            && (forall p :: p in d.lock.features[f].files ==>
                              || Get(d.files, p) == Some(d.lock.features[f].files[p].installed)
                              || d.lock.features[f].files[p].generated || p in r.features[f].generated)
            && (forall p :: p in r.features[f].files && p !in d.lock.features[f].files ==>
                              Unedited(d, p) || (p in r.features[f].generated && p in d.lock.managed))
            && (forall p :: p in d.lock.features[f].files || p in r.features[f].files ==> LiesOver(d, r, f, p))
  {
    hide Reaches, UpdateVerdict, TransitionAllowed;
    UpdateIsClear(d, r, f);
    if f in r.features && f in d.lock.features {
      forall p | p in d.lock.features[f].files || p in r.features[f].files
        ensures !UpdateConflict(d, r, f, p) <==>
                && (p in d.lock.features[f].files ==>
                      || Get(d.files, p) == Some(d.lock.features[f].files[p].installed)
                      || d.lock.features[f].files[p].generated || p in r.features[f].generated)
                && (p !in d.lock.features[f].files ==>
                      Unedited(d, p) || (p in r.features[f].generated && p in d.lock.managed))
                && LiesOver(d, r, f, p)
      {
      }
    }
  }

  // ----- which error comes first

  /** Which features the new one needs and must not meet: the error its lists give, if any. */
  lemma ListsRefuse(installed: set<Name>, r: Recipe, feature: FeatureRecipe)
    ensures var verdict := DependencyVerdict(installed, r, feature);
            && (verdict == Refuse(Usage) <==> exists e :: e in feature.dependencies && e !in installed)
            && (verdict == Refuse(Conflict({})) <==>
                  && (forall e :: e in feature.dependencies ==> e in installed)
                  && exists c :: c in feature.conflicts && c in installed)
            && (verdict == Refuse(InvalidRecipe) <==>
                  && (forall e :: e in feature.dependencies ==> e in installed)
                  && (forall c :: c in feature.conflicts ==> c !in installed)
                  && exists e :: e in feature.dependencies && e !in r.features)
            && (verdict == Proceed <==>
                  && (forall e :: e in feature.dependencies ==> e in installed && e in r.features)
                  && forall c :: c in feature.conflicts ==> c !in installed)
  {
  }

  /** The order of the errors of an add: installed already, unknown, its lists, its files, a pending journal. */
  lemma AddRefusals(d: Disk, r: Recipe, f: Name)
    ensures f in d.lock.features ==> AddVerdict(d, r, f) == Refuse(Usage)
    ensures f !in d.lock.features && f !in r.features ==> AddVerdict(d, r, f) == Refuse(NotFound(f))
    ensures f !in d.lock.features && f in r.features ==>
              var lists, verdict := DependencyVerdict(d.lock.features.Keys, r, r.features[f]), AddVerdict(d, r, f);
              if lists.Refuse? then verdict == lists
              else if verdict.Proceed? then d.journal == None
              else
                && verdict.error.Conflict?
                && (if exists p :: p in r.features[f].files && AddConflict(d, r, f, p) then
                      forall p :: p in verdict.error.paths <==> p in r.features[f].files && AddConflict(d, r, f, p)
                    else verdict.error.paths == {JOURNAL} && d.journal.Some?)
  {
    hide DependencyVerdict, AddConflict;
    if f in r.features && f !in d.lock.features {
      var conflicts := set p | p in r.features[f].files && AddConflict(d, r, f, p);
      assert forall p :: p in conflicts <==> p in r.features[f].files && AddConflict(d, r, f, p);
    }
  }

  /** The order of the errors of a removal: not installed, depended upon, its files, a pending journal. */
  lemma RemoveRefusals(d: Disk, f: Name)
    ensures f !in d.lock.features ==> RemoveVerdict(d, f) == Refuse(NotFound(f))
    ensures f in d.lock.features ==>
              var verdict := RemoveVerdict(d, f);
              if exists n :: n in d.lock.features && n != f && f in d.lock.features[n].dependencies then
                verdict == Refuse(Usage)
              else if verdict.Proceed? then d.journal == None
              else
                && verdict.error.Conflict?
                && (if exists p :: p in d.lock.features[f].files && RemoveConflict(d, f, p) then
                      forall p :: p in verdict.error.paths <==> p in d.lock.features[f].files && RemoveConflict(d, f, p)
                    else verdict.error.paths == {JOURNAL} && d.journal.Some?)
  {
    hide RemoveConflict;
    assert forall n :: n in Dependents(d.lock, f) <==>
                         n in d.lock.features && n != f && f in d.lock.features[n].dependencies;
    if f in d.lock.features {
      var conflicts := set p | p in d.lock.features[f].files && RemoveConflict(d, f, p);
      assert forall p :: p in conflicts <==> p in d.lock.features[f].files && RemoveConflict(d, f, p);
    }
  }

  /** The order of the errors of an update: the recipe may not follow, not installed, unknown, its lists, its files,
      a pending journal. */
  lemma UpdateRefusals(d: Disk, r: Recipe, f: Name)
    ensures !TransitionAllowed(d.lock, r) ==> UpdateVerdict(d, r, f) == Refuse(InvalidRecipe)
    ensures TransitionAllowed(d.lock, r) && (f !in d.lock.features || f !in r.features) ==>
              UpdateVerdict(d, r, f) == Refuse(NotFound(f))
    ensures TransitionAllowed(d.lock, r) && f in d.lock.features && f in r.features ==>
              var paths := d.lock.features[f].files.Keys + r.features[f].files.Keys;
              var lists, verdict :=
                DependencyVerdict(d.lock.features.Keys - {f}, r, r.features[f]), UpdateVerdict(d, r, f);
              if lists.Refuse? then verdict == lists
              else if verdict.Proceed? then d.journal == None
              else
                && verdict.error.Conflict?
                && (if exists p :: p in paths && UpdateConflict(d, r, f, p) then
                      forall p :: p in verdict.error.paths <==> p in paths && UpdateConflict(d, r, f, p)
                    else verdict.error.paths == {JOURNAL} && d.journal.Some?)
  {
    hide DependencyVerdict, UpdateConflict, TransitionAllowed;
    if f in r.features && f in d.lock.features {
      var paths := d.lock.features[f].files.Keys + r.features[f].files.Keys;
      var conflicts := set p | p in paths && UpdateConflict(d, r, f, p);
      assert forall p :: p in conflicts <==> p in paths && UpdateConflict(d, r, f, p);
    }
  }

  // ----- what stays up from one operation to the next

  /** An accepted add or update leaves the lock with the identity of its recipe. Then the same recipe may follow, and
      so may any other version of that name, but not the same version with other contents. */
  lemma IdentityFollows(d: Disk, operation: Operation, r: Recipe, f: Name, next: Recipe)
    requires PerformVerdict(d, operation, r, f).Proceed? && operation != Remove
    ensures var lock := Performed(d, operation, r, f).lock;
            && lock.recipe == r.identity && lock.template == r.identity.name
            && (TransitionAllowed(lock, next) <==>
                  && next.identity.name == r.identity.name
                  && (next.identity.version != r.identity.version || next.identity.digest == r.identity.digest))
  {
    hide AddVerdict, UpdateVerdict, Patch, BackUp;
    UpdateIsClear(d, r, f);
    AddIsClear(d, r, f);
  }

  /** What each feature must not meet. */
  function Rivals(r: Recipe): map<Name, seq<Name>> {
    map n | n in r.features :: r.features[n].conflicts
  }

  /** No installed feature lists another one as a conflict. */
  ghost predicate ConflictFree(g: map<Name, seq<Name>>, lock: Lock) {
    forall a, b :: a in lock.features && b in lock.features && a != b ==> !(a in g && b in g[a])
  }

  /** After an accepted add or update nothing is installed that the feature lists as a conflict. */
  lemma ConflictsStayOut(d: Disk, operation: Operation, r: Recipe, f: Name)
    requires PerformVerdict(d, operation, r, f).Proceed? && operation != Remove
    ensures f in r.features && f in Performed(d, operation, r, f).lock.features
    ensures forall c :: c in r.features[f].conflicts && c in Performed(d, operation, r, f).lock.features ==> c == f
  {
    hide AddVerdict, UpdateVerdict, Patch, BackUp;
    AddIsClear(d, r, f);
    UpdateIsClear(d, r, f);
  }

  /** No two features in conflict come to be installed, exactly if no installed feature lists the new one: the checks
      look at one side only. */
  lemma ConflictFreeIff(d: Disk, operation: Operation, r: Recipe, f: Name)
    requires PerformVerdict(d, operation, r, f).Proceed? && ConflictFree(Rivals(r), d.lock)
    ensures ConflictFree(Rivals(r), Performed(d, operation, r, f).lock) <==>
            operation == Remove || forall n :: n in d.lock.features && n != f && n in r.features ==>
              f !in r.features[n].conflicts
  {
    hide PerformVerdict, Performed;
    var e := Performed(d, operation, r, f);
    InstalledAfter(d, operation, r, f);
    if operation != Remove {
      ConflictsStayOut(d, operation, r, f);
      if ConflictFree(Rivals(r), e.lock) {
        forall n | n in d.lock.features && n != f && n in r.features ensures f !in r.features[n].conflicts {
          assert n in e.lock.features && f in e.lock.features;
        }
      }
    }
  }

  lemma InstalledAfter(d: Disk, operation: Operation, r: Recipe, f: Name)
    requires PerformVerdict(d, operation, r, f).Proceed?
    ensures Performed(d, operation, r, f).lock.features.Keys ==
            if operation == Remove then d.lock.features.Keys - {f} else d.lock.features.Keys + {f}
  {
    hide AddVerdict, UpdateVerdict, RemoveVerdict, Patch, BackUp;
    AddIsClear(d, r, f);
    RemoveIsClear(d, f);
    UpdateIsClear(d, r, f);
  }

  /** One feature lists the other as a conflict and not the other way round: in one order the second add is refused,
      in the other it proceeds. */
  lemma OneSidedConflict(x: PayloadFile, y: PayloadFile)
    ensures var r := Recipe(Identity("t", "1", "d"), map[
                "clerk" := FeatureRecipe("1", [], [], map["a.txt" := x], {}),
                "auth0" := FeatureRecipe("1", [], ["clerk"], map["b.txt" := y], {})]);
            var d := Disk(map[], Lock("t", r.identity, map[], map[]), map[], None);
            && PerformVerdict(d, Add, r, "clerk").Proceed? && PerformVerdict(d, Add, r, "auth0").Proceed?
            && PerformVerdict(Performed(d, Add, r, "clerk"), Add, r, "auth0") == Refuse(Conflict({}))
            && PerformVerdict(Performed(d, Add, r, "auth0"), Add, r, "clerk").Proceed?
  {
    var r := Recipe(Identity("t", "1", "d"), map[
        "clerk" := FeatureRecipe("1", [], [], map["a.txt" := x], {}),
        "auth0" := FeatureRecipe("1", [], ["clerk"], map["b.txt" := y], {})]);
    var d := Disk(map[], Lock("t", r.identity, map[], map[]), map[], None);
    hide Patch, BackUp, AddVerdict;
    AddProceedsIff(d, r, "clerk");
    AddProceedsIff(d, r, "auth0");
    var e, a := Added(d, r, "clerk"), Added(d, r, "auth0");
    AddRefusals(e, r, "auth0");
    ListsRefuse(e.lock.features.Keys, r, r.features["auth0"]);
    PatchAt(d.files, AddDesired(r.features["auth0"]), "a.txt");
    PatchAt(d.lock.managed, AddDesired(r.features["auth0"]), "a.txt");
    AddProceedsIff(a, r, "clerk");
  }

  // ----- what the operations undo of each other

  /** Nothing is kept in the name of a feature that is not installed. */
  ghost predicate NothingKept(d: Disk, f: Name) {
    forall p :: (f, p) !in d.backups
  }

  lemma RemovedShows(d: Disk, f: Name, p: Path)
    requires f in d.lock.features
    ensures var e, files := Removed(d, f), d.lock.features[f].files;
            && Get(e.files, p) == (if p in files then Restored(files[p]) else Get(d.files, p))
            && Get(e.lock.managed, p) == (if p in files then Restored(files[p]) else Get(d.lock.managed, p))
  {
    hide Patch;
    PatchAt(d.files, RemoveDesired(d.lock.features[f]), p);
    PatchAt(d.lock.managed, RemoveDesired(d.lock.features[f]), p);
  }

  lemma NothingElseKept(d: Disk, r: Recipe, f: Name)
    requires f in r.features && NothingKept(d, f)
    ensures Others(Added(d, r, f).backups, f) == d.backups
  {
    var kept := BackUp(d.files, d.backups, f, r.features[f].files.Keys);
    forall q: (Name, Path) ensures Get(Others(kept, f), q) == Get(d.backups, q) {
      hide BackUp;
      BackUpAt(d.files, d.backups, f, r.features[f].files.Keys, q);
      assert q == (q.0, q.1);
    }
    SameMap(Others(kept, f), d.backups);
  }

  lemma InstalledAgain<K, V>(m: map<K, V>, k: K, v: V)
    requires k !in m
    ensures m[k := v] - {k} == m
  {
  }

  /** Removing a feature just added gives back the project, with the recipe it was added from. */
  lemma RemoveUndoesAdd(d: Disk, r: Recipe, f: Name)
    requires f in r.features && f !in d.lock.features && NothingKept(d, f)
    requires forall p :: p in r.features[f].files ==> Unedited(d, p)
    ensures var e := Added(d, r, f); f in e.lock.features && Removed(e, f) == d.(lock := Identify(d.lock, r))
  {
    NothingElseKept(d, r, f);
    RestoredFiles(d, r, f);
    RestoredLock(d, r, f);
    hide Patch, BackUp, RemoveDesired, AddDesired;
  }

  lemma RestoredFiles(d: Disk, r: Recipe, f: Name)
    requires f in r.features && forall p :: p in r.features[f].files ==> Unedited(d, p)
    ensures var e := Added(d, r, f);
            && f in e.lock.features && Removed(e, f).files == d.files
            && Removed(e, f).lock.managed == d.lock.managed
  {
    hide Added, Removed;
    var e := Added(d, r, f);
    AddedReads(d, r, f, "");
    var back := Removed(e, f);
    forall p ensures Get(back.files, p) == Get(d.files, p) && Get(back.lock.managed, p) == Get(d.lock.managed, p) {
      AddedReads(d, r, f, p);
      RemovedShows(e, f, p);
    }
    SameMap(back.files, d.files);
    SameMap(back.lock.managed, d.lock.managed);
  }

  lemma RestoredLock(d: Disk, r: Recipe, f: Name)
    requires f in r.features && f !in d.lock.features
    ensures var e := Added(d, r, f);
            && f in e.lock.features && Removed(e, f).journal == d.journal
            && Removed(e, f).backups == Others(e.backups, f)
            && Removed(e, f).lock == Identify(d.lock, r).(managed := Removed(e, f).lock.managed)
  {
    hide Patch, BackUp, RemoveDesired, AddDesired, Others;
    var e := Added(d, r, f);
    InstalledAgain(d.lock.features, f, e.lock.features[f]);
  }

  /** Updating a feature just added is adding the later version in the first place. */
  lemma UpdateReplacesAdd(d: Disk, r: Recipe, later: Recipe, f: Name)
    requires f in r.features && f in later.features && f !in d.lock.features && NothingKept(d, f)
    requires forall p :: p in r.features[f].files ==> Unedited(d, p)
    ensures var e := Added(d, r, f); f in e.lock.features && Updated(e, later, f) == Added(d, later, f)
  {
    hide Patch, BackUp, AddDesired, UpdateDesired, Drop;
    ReplacedFiles(d, r, later, f);
    ReplacedBackups(d, r, later, f);
    ReplacedEntries(d, r, later, f);
    var e := Added(d, r, f);
    SameEntry(d.lock.features, f, e.lock.features[f], Added(d, later, f).lock.features[f]);
  }

  lemma SameEntry<K, V>(m: map<K, V>, k: K, x: V, y: V)
    ensures m[k := x][k := y] == m[k := y]
  {
  }

  lemma ReplacedFiles(d: Disk, r: Recipe, later: Recipe, f: Name)
    requires f in r.features && f in later.features
    requires forall p :: p in r.features[f].files ==> Unedited(d, p)
    ensures var e := Added(d, r, f);
            && f in e.lock.features && Updated(e, later, f).files == Added(d, later, f).files
            && Updated(e, later, f).lock.managed == Added(d, later, f).lock.managed
  {
    hide Added, Updated;
    AddedReads(d, r, f, "");
    var e, whole := Added(d, r, f), Added(d, later, f);
    var u := Updated(e, later, f);
    forall p
      ensures Get(u.files, p) == Get(whole.files, p) && Get(u.lock.managed, p) == Get(whole.lock.managed, p)
    {
      AddedReads(d, r, f, p);
      AddedReads(d, later, f, p);
      UpdatedFilesAt(e, later, f, p);
    }
    SameMap(u.files, whole.files);
    SameMap(u.lock.managed, whole.lock.managed);
  }

  lemma ReplacedEntries(d: Disk, r: Recipe, later: Recipe, f: Name)
    requires f in r.features && f in later.features
    ensures var e := Added(d, r, f);
            && f in e.lock.features && f in Added(d, later, f).lock.features
            && Updated(e, later, f).lock.features[f].files == Added(d, later, f).lock.features[f].files
  {
    hide Added, Updated;
    AddedReads(d, r, f, "");
    AddedReads(d, later, f, "");
    var e, whole := Added(d, r, f), Added(d, later, f);
    UpdatedFilesAt(e, later, f, "");
    var u := Updated(e, later, f);
    forall p ensures Get(u.lock.features[f].files, p) == Get(whole.lock.features[f].files, p) {
      AddedReads(d, r, f, p);
      AddedReads(d, later, f, p);
      UpdatedFilesAt(e, later, f, p);
    }
    SameMap(u.lock.features[f].files, whole.lock.features[f].files);
  }

  lemma ReplacedBackups(d: Disk, r: Recipe, later: Recipe, f: Name)
    requires f in r.features && f in later.features && NothingKept(d, f)
    ensures var e := Added(d, r, f);
            f in e.lock.features && Updated(e, later, f).backups == Added(d, later, f).backups
  {
    hide Added, Updated;
    AddedReads(d, r, f, "");
    var e, whole := Added(d, r, f), Added(d, later, f);
    var u := Updated(e, later, f);
    forall q: (Name, Path) ensures Get(u.backups, q) == Get(whole.backups, q) {
      AddedReads(d, r, f, q.1);
      AddedKeeps(d, r, f, q);
      AddedKeeps(d, later, f, q);
      UpdatedKeeps(e, later, f, q);
      assert q == (q.0, q.1);
    }
    SameMap(u.backups, whole.backups);
  }

  /** After an add the lock knows what the recipe calls generated: a removal finds exactly the changed files that
      are not. */
  lemma RemovalAfterAdd(d: Disk, r: Recipe, f: Name, files: map<Path, PayloadFile>)
    requires AddVerdict(d, r, f).Proceed?
    ensures f in r.features
    ensures RemoveVerdict(Added(d, r, f).(files := files), f).Proceed? <==>
            && (forall n :: n in d.lock.features ==> f !in d.lock.features[n].dependencies)
            && forall p :: p in r.features[f].files ==>
                 Get(files, p) == Some(r.features[f].files[p]) || p in r.features[f].generated
  {
    AddIsClear(d, r, f);
    hide AddVerdict, RemoveVerdict, Patch, BackUp;
    var e := Added(d, r, f).(files := files);
    RemoveProceedsIff(e, f);
    assert forall n | n != f :: n in e.lock.features <==> n in d.lock.features;
  }
}
