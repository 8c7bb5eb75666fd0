/** The ghost log of single steps: which snapshots an operation may leave behind,
    and how far each of the composer's loops has come. */
module StepLog {
  import opened Wrappers
  import opened Names
  import opened Composition

  /** `trace` extends `before`, and each snapshot it adds is on the way from `a` to `desired`. */
  ghost predicate Logged(before: seq<Disk>, trace: seq<Disk>, a: Disk, f: Name, desired: map<Path, Option<Digest>>) {
    before <= trace && forall k :: |before| <= k < |trace| ==> Toward(a, f, desired, trace[k])
  }

  lemma LogNone(trace: seq<Disk>, a: Disk, f: Name, desired: map<Path, Option<Digest>>)
    ensures Logged(trace, trace, a, f, desired)
  {
  }

  lemma LogSome(
      before: seq<Disk>, trace: seq<Disk>, a: Disk, f: Name, desired: map<Path, Option<Digest>>, steps: seq<Disk>,
        last: Disk)
    requires Logged(before, trace, a, f, desired) && Toward(a, f, desired, last)
    requires forall d :: d in steps ==> Toward(a, f, desired, d)
    ensures Logged(before, trace + steps + [last], a, f, desired)
  {
  }

  lemma LogLast(
      before: seq<Disk>, trace: seq<Disk>, a: Disk, f: Name, desired: map<Path, Option<Digest>>, last: Disk)
    requires Logged(before, trace, a, f, desired) && Toward(a, f, desired, last)
    ensures Logged(before, trace + [last], a, f, desired)
  {
  }

  lemma LogCover(
      before: seq<Disk>, trace: seq<Disk>, d0: Disk, f: Name, feature: FeatureRecipe, paths: set<Path>,
        done: set<Path>, p: Path)
    requires done <= paths <= feature.files.Keys && p in paths - done
    requires Logged(before, trace, d0, f, Only(AddDesired(feature), paths))
    ensures var desired := Only(AddDesired(feature), done);
            var a := d0.(files := Patch(d0.files, desired), backups := BackUp(d0.files, d0.backups, f, done + {p}));
            var b := a.(files := Patch(d0.files, desired)[p := feature.files[p]]);
            Logged(before, trace + (if p in d0.files then [a] else []) + [b], d0, f, Only(AddDesired(feature), paths))
  {
    PatchStep(d0.files, AddDesired(feature), done, p);
    CoverStep(d0, f, feature, paths, done, done + {p});
    CoverStep(d0, f, feature, paths, done + {p}, done + {p});
    var desired := Only(AddDesired(feature), done);
    var a := d0.(files := Patch(d0.files, desired), backups := BackUp(d0.files, d0.backups, f, done + {p}));
    var b := a.(files := Patch(d0.files, desired)[p := feature.files[p]]);
    LogSome(before, trace, d0, f, Only(AddDesired(feature), paths), if p in d0.files then [a] else [], b);
  }

  /** Every snapshot from index `from` on is a crash state of this operation, or its result. */
  ghost predicate CrashSafe(d0: Disk, j: Journal, trace: seq<Disk>, from: nat, result: Disk) {
    forall k :: from <= k < |trace| ==> trace[k] == result || InFlight(d0, j, trace[k])
  }

  /** Every snapshot from index `from` on is the result, or has the journal, and of the files of `written`
      some as they were and some as they are written. */
  ghost predicate OnTheWay(
      d0: Disk, j: Journal, written: map<Path, Option<Digest>>, trace: seq<Disk>, from: nat, result: Disk)
  {
    forall k :: from <= k < |trace| ==>
                  trace[k] == result || Toward(d0.(journal := Some(j)), j.feature, written, trace[k])
  }

  /** Where what is written is what the journal says, every stop is a crash state. */
  lemma WrittenIsCrashSafe(
      d0: Disk, operation: Operation, f: Name, desired: map<Path, Option<Digest>>, trace: seq<Disk>, from: nat,
        result: Disk)
    requires OnTheWay(d0, Capture(d0, operation, f, desired), desired, trace, from, result)
    ensures CrashSafe(d0, Capture(d0, operation, f, desired), trace, from, result)
  {
    var j := Capture(d0, operation, f, desired);
    hide Toward;
    forall k | from <= k < |trace| ensures trace[k] == result || InFlight(d0, j, trace[k]) {
      if trace[k] != result {
        TowardIsInFlight(d0, operation, f, desired, trace[k]);
      }
    }
  }

  lemma TowardOnward(
      a: Disk, f: Name, desired: map<Path, Option<Digest>>, b: Disk, part: map<Path, Option<Digest>>, d: Disk)
    requires Toward(a, f, desired, b) && Toward(b, f, part, d)
    requires forall p :: p in part ==> p in desired && desired[p] == part[p]
    ensures Toward(a, f, desired, d)
  {
    forall q: (Name, Path) | q.0 != f ensures Get(d.backups, q) == Get(a.backups, q) {
      assert Get(b.backups, q) == Get(a.backups, q);
    }
  }

  /** A second stretch of steps, from `b` on, whose goals are among the first's. */
  lemma LogOnward(
      before: seq<Disk>, middle: seq<Disk>, trace: seq<Disk>, a: Disk, f: Name, desired: map<Path, Option<Digest>>,
      b: Disk, part: map<Path, Option<Digest>>)
    requires Logged(before, middle, a, f, desired) && Toward(a, f, desired, b) && Logged(middle, trace, b, f, part)
    requires forall p :: p in part ==> p in desired && desired[p] == part[p]
    ensures Logged(before, trace, a, f, desired)
  {
    hide Toward;
    forall k | |middle| <= k < |trace| ensures Toward(a, f, desired, trace[k]) {
      TowardOnward(a, f, desired, b, part, trace[k]);
    }
    forall k | |before| <= k < |middle| ensures trace[k] == middle[k] {}
  }

  /** Every snapshot from index `from` on is the result, or on the way from `d` to what its journal has copies of. */
  ghost predicate OnTheWayBack(d: Disk, trace: seq<Disk>, from: nat, result: Disk)
    requires d.journal.Some?
  {
    forall k :: from <= k < |trace| ==>
                  trace[k] == result || Toward(d, d.journal.value.feature, Copies(d.journal.value), trace[k])
  }

  lemma BackIsLogged(before: seq<Disk>, trace: seq<Disk>, d: Disk, result: Disk)
    requires d.journal.Some? && Logged(before, trace, d, d.journal.value.feature, Copies(d.journal.value))
    ensures before <= trace + [result] && OnTheWayBack(d, trace, |before|, result)
    ensures OnTheWayBack(d, trace + [result], |before|, result)
  {
    hide Toward;
  }

  /** A logged rollback, and the cleared journal, are crash-safe for the disk rolled back to. */
  lemma RollbackSafe(trace: seq<Disk>, from: nat, d: Disk)
    requires d.journal.Some? && Complete(d.journal.value) && Edited(d) == {}
    requires OnTheWayBack(d, trace, from, RolledBack(d))
    ensures CrashSafe(RolledBack(d), d.journal.value, trace, from, RolledBack(d))
  {
    CompleteIsCopied(d.journal.value);
    hide Toward, RolledBack, Edited, Complete, InFlight;
    forall k | from <= k < |trace| && trace[k] != RolledBack(d)
      ensures InFlight(RolledBack(d), d.journal.value, trace[k])
    {
      UndoneIsInFlight(d, trace[k]);
    }
  }

  /** The journal, the logged steps, the lock and the cleared journal: one operation on its way. */
  lemma OperationSafe(
      before: seq<Disk>, trace: seq<Disk>, d0: Disk, operation: Operation, f: Name, desired: map<Path, Option<Digest>>,
      writes: map<Path, Option<Digest>>, written: Disk, result: Disk)
    requires var begun := d0.(journal := Some(Capture(d0, operation, f, desired)));
             Logged(before + [begun], trace, begun, f, writes) && Toward(begun, f, writes, written)
    ensures OnTheWay(d0, Capture(d0, operation, f, desired), writes, trace + [written] + [result], |before|, result)
    ensures before <= trace + [written] + [result]
  {
    var begun := d0.(journal := Some(Capture(d0, operation, f, desired)));
    var whole := trace + [written] + [result];
    forall k | |before| <= k < |whole| - 1 ensures Toward(begun, f, writes, whole[k]) {
      assert whole[k] == begun || whole[k] == written || (|before| + 1 <= k < |trace| && whole[k] == trace[k]);
    }
  }

  /** Where it ends early, the journal stays. */
  lemma FailureSafe(
      before: seq<Disk>, trace: seq<Disk>, d0: Disk, operation: Operation, f: Name, desired: map<Path, Option<Digest>>,
      writes: map<Path, Option<Digest>>, result: Disk)
    requires var begun := d0.(journal := Some(Capture(d0, operation, f, desired)));
             Logged(before + [begun], trace, begun, f, writes)
    ensures OnTheWay(d0, Capture(d0, operation, f, desired), writes, trace, |before|, result) && before <= trace
  {
    var begun := d0.(journal := Some(Capture(d0, operation, f, desired)));
    forall k | |before| <= k < |trace| ensures Toward(begun, f, writes, trace[k]) {
      assert trace[k] == begun || |before| + 1 <= k;
    }
  }

  lemma AllCovered(d0: Disk, begun: Disk, r: Recipe, f: Name)
    requires f in r.features && begun == d0.(journal := begun.journal)
    ensures var feature := r.features[f];
            var (d, managed, locked) := Covered(begun, f, feature, feature.files.Keys, d0.lock.managed, map[]);
            var features := d0.lock.features[f := LockedFeature(feature.version, locked, feature.dependencies)];
            && Only(AddDesired(feature), feature.files.Keys) == AddDesired(feature)
            && d.lock == d0.lock && d.journal == begun.journal
            && d.(lock := Identify(d0.lock.(managed := managed, features := features), r)) ==
              Added(d0, r, f).(journal := begun.journal)
            && Toward(begun, f, AddDesired(feature), Added(d0, r, f).(journal := begun.journal))
  {
    hide Patch, Only, BackUp;
    var feature := r.features[f];
    PatchAll(d0.files, AddDesired(feature), feature.files.Keys);
    CoverStep(begun, f, feature, feature.files.Keys, feature.files.Keys, feature.files.Keys);
    assert LockedAfter(d0.files, feature, feature.files.Keys, map[]) == map p | p in feature.files ::
           Covering(d0.files, feature, p);
  }

  ghost function LockedAfter(files: map<Path, PayloadFile>, feature: FeatureRecipe, done: set<Path>,
      locked0: map<Path, LockedFile>): map<Path, LockedFile>
    requires done <= feature.files.Keys
  {
    locked0 + map p | p in done :: Covering(files, feature, p)
  }

  lemma LockedStep(files: map<Path, PayloadFile>, feature: FeatureRecipe, done: set<Path>,
      locked0: map<Path, LockedFile>, p: Path)
    requires done <= feature.files.Keys && p in feature.files.Keys
    ensures LockedAfter(files, feature, done + {p}, locked0) ==
            LockedAfter(files, feature, done, locked0)[p := Covering(files, feature, p)]
  {
  }

  /** The loop state of `CoverAll` once `done` has been covered: the disk, and the
      managed digests and the feature's files as the lock being built has them. */
  ghost function Covered(
      d0: Disk, f: Name, feature: FeatureRecipe, done: set<Path>, managed0: map<Path, Digest>,
        locked0: map<Path, LockedFile>)
    : (Disk, map<Path, Digest>, map<Path, LockedFile>)
    requires done <= feature.files.Keys
  {
    var desired := Only(AddDesired(feature), done);
    (d0.(files := Patch(d0.files, desired), backups := BackUp(d0.files, d0.backups, f, done)),
     Patch(managed0, desired), LockedAfter(d0.files, feature, done, locked0))
  }

  lemma CoverNone(d0: Disk, f: Name, feature: FeatureRecipe, managed0: map<Path, Digest>,
      locked0: map<Path, LockedFile>)
    ensures Covered(d0, f, feature, {}, managed0, locked0) == (d0, managed0, locked0)
  {
    PatchNone(d0.files, AddDesired(feature));
    PatchNone(managed0, AddDesired(feature));
    assert BackUp(d0.files, d0.backups, f, {}) == d0.backups;
    assert LockedAfter(d0.files, feature, {}, locked0) == locked0;
  }

  lemma CoverOneMore(
      d0: Disk, f: Name, feature: FeatureRecipe, done: set<Path>, managed0: map<Path, Digest>,
        locked0: map<Path, LockedFile>,
      p: Path)
    requires done <= feature.files.Keys && p in feature.files.Keys - done
    ensures var (d, managed, locked) := Covered(d0, f, feature, done, managed0, locked0);
            && Get(d.files, p) == Get(d0.files, p)
            && Covered(d0, f, feature, done + {p}, managed0, locked0) ==
               (d.(files := d.files[p := feature.files[p]],
                   backups := if p in d.files then d.backups[(f, p) := d.files[p]] else d.backups),
                managed[p := feature.files[p]], locked[p := Covering(d0.files, feature, p)])
  {
    PatchStep(d0.files, AddDesired(feature), done, p);
    PatchStep(managed0, AddDesired(feature), done, p);
    PatchAt(d0.files, Only(AddDesired(feature), done), p);
    BackUpStep(d0.files, d0.backups, f, done, p);
    LockedStep(d0.files, feature, done, locked0, p);
  }

  lemma CoverStep(d0: Disk, f: Name, feature: FeatureRecipe, paths: set<Path>, written: set<Path>, saved: set<Path>)
    requires written <= paths <= feature.files.Keys
    ensures Toward(
              d0, f, Only(AddDesired(feature), paths),
              d0.(files := Patch(d0.files, Only(AddDesired(feature), written)),
                backups := BackUp(d0.files, d0.backups, f, saved)))
  {
    forall p ensures var now := Get(Patch(d0.files, Only(AddDesired(feature), written)), p);
                     now == Get(d0.files, p) || (p in feature.files && p in paths && now == Some(feature.files[p])) {
      PatchAt(d0.files, Only(AddDesired(feature), written), p);
    }
    forall q: (Name, Path) ensures q.0 != f ==> Get(BackUp(d0.files, d0.backups, f, saved), q) == Get(d0.backups, q) {
      BackUpAt(d0.files, d0.backups, f, saved, q);
    }
  }

  // ----- the loops that give files back

  /** Patched this far, with this feature's backups in any state, the disk is on its way. */
  lemma MovedToward(
      a: Disk, f: Name, desired: map<Path, Option<Digest>>, done: set<Path>, backups: map<(Name, Path), PayloadFile>,
        d: Disk)
    requires d.files == Patch(a.files, Only(desired, done)) && d.journal == a.journal && d.backups == backups
    requires Others(backups, f) == Others(a.backups, f)
    ensures Toward(a, f, desired, d)
  {
    forall p ensures Get(d.files, p) == Get(a.files, p) || (p in desired && Get(d.files, p) == desired[p]) {
      PatchAt(a.files, Only(desired, done), p);
    }
    forall q: (Name, Path) | q.0 != f ensures Get(d.backups, q) == Get(a.backups, q) {
      assert Get(Others(backups, f), q) == Get(Others(a.backups, f), q);
    }
  }

  lemma BackupsToward(a: Disk, f: Name, d: Disk)
    requires d == a.(backups := d.backups) && Others(d.backups, f) == Others(a.backups, f)
    ensures Toward(a, f, map[], d)
  {
    PatchNone(a.files, map[]);
    MovedToward(a, f, map[], {}, d.backups, d);
  }

  lemma AllRestored(d0: Disk, begun: Disk, f: Name, moved: Disk, saved: map<Path, Option<Digest>>)
    requires f in d0.lock.features && begun == d0.(journal := begun.journal)
    requires moved == begun.(files := Patch(d0.files, saved))
    ensures Toward(begun, f, saved, moved)
    ensures Toward(begun, f, saved, Removed(d0, f).(files := Patch(d0.files, saved), journal := begun.journal))
  {
    PatchAll(d0.files, saved, saved.Keys);
    MovedToward(begun, f, saved, saved.Keys, d0.backups, moved);
    OthersTwice(d0.backups, f);
    MovedToward(begun, f, saved, saved.Keys, Others(d0.backups, f),
      Removed(d0, f).(files := Patch(d0.files, saved), journal := begun.journal));
  }

  lemma OthersTwice(backups: map<(Name, Path), PayloadFile>, f: Name)
    ensures Others(Others(backups, f), f) == Others(backups, f)
  {
  }

  // ----- the update of what a feature already owns

  /** How far the update has come: disk, managed digests and kept lock entries
      once `done` of the already owned paths are replaced or given back. */
  ghost function Replaced(
      d0: Disk, f: Name, prior: LockedFeature, feature: FeatureRecipe, managed0: map<Path, Digest>, done: set<Path>)
    : (Disk, map<Path, Digest>, map<Path, LockedFile>)
  {
    (d0.(files := Patch(d0.files, Only(Writes(d0.backups, f, prior, feature), done)),
         backups := Drop(d0.backups, f, done - feature.files.Keys)),
     Patch(managed0, Only(UpdateDesired(prior, feature), done)), KeptFiles(prior.files, feature, done))
  }

  lemma ReplaceNone(d0: Disk, f: Name, prior: LockedFeature, feature: FeatureRecipe, managed0: map<Path, Digest>)
    ensures Replaced(d0, f, prior, feature, managed0, {}) == (d0, managed0, map[])
  {
    PatchNone(d0.files, Writes(d0.backups, f, prior, feature));
    PatchNone(managed0, UpdateDesired(prior, feature));
    assert Drop(d0.backups, f, {} - feature.files.Keys) == d0.backups;
  }

  lemma DropStep(backups: map<(Name, Path), PayloadFile>, f: Name, paths: set<Path>, keep: set<Path>, p: Path)
    ensures Drop(backups, f, (paths + {p}) - keep) ==
            if p in keep then Drop(backups, f, paths - keep) else Drop(backups, f, paths - keep) - {(f, p)}
  {
  }

  lemma KeepOneMore(prior: map<Path, LockedFile>, feature: FeatureRecipe, done: set<Path>, p: Path)
    requires p in prior
    ensures KeptFiles(prior, feature, done + {p}) ==
            if p in feature.files
            then KeptFiles(prior, feature, done)[
                   p := prior[p].(installed := feature.files[p], generated := p in feature.generated)]
              else KeptFiles(prior, feature, done)
  {
  }

  lemma ReplaceOneMore(
      d0: Disk, f: Name, prior: LockedFeature, feature: FeatureRecipe, managed0: map<Path, Digest>, done: set<Path>,
        p: Path)
    requires p in prior.files && p !in done
    requires p !in feature.files && prior.files[p].previousExisted ==>
               (f, p) in d0.backups && prior.files[p].previous.Some?
    ensures var (d, managed, locked) := Replaced(d0, f, prior, feature, managed0, done);
            var file := prior.files[p];
            && Get(d.backups, (f, p)) == Get(d0.backups, (f, p))
            && Replaced(d0, f, prior, feature, managed0, done + {p}) ==
               if p in feature.files then
                 (d.(files := d.files[p := feature.files[p]]), managed[p := feature.files[p]],
                  locked[p := file.(installed := feature.files[p], generated := p in feature.generated)])
               else if file.previousExisted then
                 (d.(files := d.files[p := d0.backups[(f, p)]], backups := d.backups - {(f, p)}),
                  managed[p := file.previous.value], locked)
               else (d.(files := d.files - {p}, backups := d.backups - {(f, p)}), managed - {p}, locked)
  {
    DropKeeps(d0.backups, f, done - feature.files.Keys, p);
    hide Patch, Only, Drop, KeptFiles;
    PatchStep(d0.files, Writes(d0.backups, f, prior, feature), done, p);
    PatchStep(managed0, UpdateDesired(prior, feature), done, p);
    DropStep(d0.backups, f, done, feature.files.Keys, p);
    KeepOneMore(prior.files, feature, done, p);
  }

  lemma DropKeeps(backups: map<(Name, Path), PayloadFile>, f: Name, paths: set<Path>, p: Path)
    requires p !in paths
    ensures Get(Drop(backups, f, paths), (f, p)) == Get(backups, (f, p))
  {
  }

  lemma ReplacedToward(
      d0: Disk, f: Name, prior: LockedFeature, feature: FeatureRecipe, managed0: map<Path, Digest>, done: set<Path>)
    ensures Toward(d0, f, Writes(d0.backups, f, prior, feature),
                   Replaced(d0, f, prior, feature, managed0, done).0)
  {
    hide Patch, Only, Drop;
    var d := Replaced(d0, f, prior, feature, managed0, done).0;
    DropOthers(d0.backups, f, done - feature.files.Keys);
    MovedToward(d0, f, Writes(d0.backups, f, prior, feature), done, d.backups, d);
  }

  /** However far it has come, the update has touched nothing but the feature's paths and backups. */
  lemma ReplacedElsewhere(
      d0: Disk, f: Name, prior: LockedFeature, feature: FeatureRecipe, managed0: map<Path, Digest>, done: set<Path>)
    requires done <= prior.files.Keys
    ensures var d := Replaced(d0, f, prior, feature, managed0, done).0;
            && (forall p :: p !in prior.files ==> Get(d.files, p) == Get(d0.files, p))
            && Others(d.backups, f) == Others(d0.backups, f)
            && forall p :: p !in done ==> Get(d.backups, (f, p)) == Get(d0.backups, (f, p))
  {
    DropOthers(d0.backups, f, done - feature.files.Keys);
    forall p | p !in prior.files
      ensures Get(Replaced(d0, f, prior, feature, managed0, done).0.files, p) == Get(d0.files, p)
    {
      PatchAt(d0.files, Only(Writes(d0.backups, f, prior, feature), done), p);
    }
  }

  lemma DropOthers(backups: map<(Name, Path), PayloadFile>, f: Name, paths: set<Path>)
    ensures Others(Drop(backups, f, paths), f) == Others(backups, f)
  {
  }

  /** The disk after an update: what it gives back comes from the backups. */
  ghost function UpdatedFrom(d: Disk, r: Recipe, f: Name): Disk
    requires f in r.features && f in d.lock.features
  {
    Updated(d, r, f).(files := Patch(d.files, Writes(d.backups, f, d.lock.features[f], r.features[f])))
  }

  /** After the replaced paths, covering the new ones from `moved` is as covering
      them from `d0`: none of them had been touched. The sum is the whole update. */
  lemma AllUpdated(d0: Disk, begun: Disk, r: Recipe, f: Name)
    requires f in r.features && f in d0.lock.features && begun == d0.(journal := begun.journal)
    ensures var feature, prior := r.features[f], d0.lock.features[f];
            var extra := feature.files.Keys - prior.files.Keys;
            var (moved, managed0, locked0) := Replaced(begun, f, prior, feature, d0.lock.managed, prior.files.Keys);
            var (d, managed, locked) := Covered(moved, f, feature, extra, managed0, locked0);
            var features := d0.lock.features[f := LockedFeature(feature.version, locked, feature.dependencies)];
            && d.lock == d0.lock && d.journal == begun.journal
            && d.(lock := Identify(d0.lock.(managed := managed, features := features), r)) ==
              UpdatedFrom(d0, r, f).(journal := begun.journal)
  {
    var feature, prior := r.features[f], d0.lock.features[f];
    var extra := feature.files.Keys - prior.files.Keys;
    var (moved, managed0, locked0) := Replaced(begun, f, prior, feature, d0.lock.managed, prior.files.Keys);
    WriteTwice(d0.files, d0.backups, f, prior, feature);
    PatchTwice(d0.lock.managed, prior, feature);
    ReplacedElsewhere(begun, f, prior, feature, d0.lock.managed, prior.files.Keys);
    SameBackUp(moved.files, d0.files, moved.backups, f, extra);
    SameLocked(moved.files, d0.files, feature, extra, locked0);
  }

  lemma WriteTwice(
      files: map<Path, PayloadFile>, backups: map<(Name, Path), PayloadFile>, f: Name, prior: LockedFeature,
        feature: FeatureRecipe)
    ensures var writes, extra := Writes(backups, f, prior, feature), feature.files.Keys - prior.files.Keys;
            Patch(Patch(files, Only(writes, prior.files.Keys)), Only(AddDesired(feature), extra)) ==
            Patch(files, writes)
  {
    var writes, extra := Writes(backups, f, prior, feature), feature.files.Keys - prior.files.Keys;
    var half := Patch(files, Only(writes, prior.files.Keys));
    forall p ensures Get(Patch(half, Only(AddDesired(feature), extra)), p) == Get(Patch(files, writes), p) {
      PatchAt(half, Only(AddDesired(feature), extra), p);
      PatchAt(files, Only(writes, prior.files.Keys), p);
      PatchAt(files, writes, p);
    }
    SameMap(Patch(half, Only(AddDesired(feature), extra)), Patch(files, writes));
  }

  lemma PatchTwice(m: map<Path, PayloadFile>, prior: LockedFeature, feature: FeatureRecipe)
    ensures var desired, extra := UpdateDesired(prior, feature), feature.files.Keys - prior.files.Keys;
            Patch(Patch(m, Only(desired, prior.files.Keys)), Only(AddDesired(feature), extra)) == Patch(m, desired)
  {
    var desired, extra := UpdateDesired(prior, feature), feature.files.Keys - prior.files.Keys;
    var half := Patch(m, Only(desired, prior.files.Keys));
    forall p ensures Get(Patch(half, Only(AddDesired(feature), extra)), p) == Get(Patch(m, desired), p) {
      PatchAt(half, Only(AddDesired(feature), extra), p);
      PatchAt(m, Only(desired, prior.files.Keys), p);
      PatchAt(m, desired, p);
    }
    SameMap(Patch(half, Only(AddDesired(feature), extra)), Patch(m, desired));
  }

  lemma SameBackUp(
      a: map<Path, PayloadFile>, b: map<Path, PayloadFile>, backups: map<(Name, Path), PayloadFile>, f: Name,
        paths: set<Path>)
    requires forall p :: p in paths ==> Get(a, p) == Get(b, p)
    ensures BackUp(a, backups, f, paths) == BackUp(b, backups, f, paths)
  {
    forall q: (Name, Path) ensures Get(BackUp(a, backups, f, paths), q) == Get(BackUp(b, backups, f, paths), q) {
      BackUpAt(a, backups, f, paths, q);
      BackUpAt(b, backups, f, paths, q);
      assert q.1 in paths ==> Get(a, q.1) == Get(b, q.1);
    }
    SameMap(BackUp(a, backups, f, paths), BackUp(b, backups, f, paths));
  }

  lemma SameLocked(
      a: map<Path, PayloadFile>, b: map<Path, PayloadFile>, feature: FeatureRecipe, paths: set<Path>,
        locked0: map<Path, LockedFile>)
    requires paths <= feature.files.Keys && forall p :: p in paths ==> Get(a, p) == Get(b, p)
    ensures LockedAfter(a, feature, paths, locked0) == locked0 + map p | p in paths :: Covering(b, feature, p)
  {
    assert forall p | p in paths :: Get(a, p) == Get(b, p) && Covering(a, feature, p) == Covering(b, feature, p);
  }

  lemma UpdatedToward(d0: Disk, begun: Disk, r: Recipe, f: Name)
    requires f in r.features && f in d0.lock.features && begun == d0.(journal := begun.journal)
    ensures Toward(begun, f, Writes(d0.backups, f, d0.lock.features[f], r.features[f]),
            UpdatedFrom(d0, r, f).(journal := begun.journal))
  {
    var feature, prior := r.features[f], d0.lock.features[f];
    var writes, extra := Writes(d0.backups, f, prior, feature), feature.files.Keys - prior.files.Keys;
    var kept := Drop(d0.backups, f, prior.files.Keys - feature.files.Keys);
    forall p ensures Get(Patch(d0.files, writes), p) == Get(d0.files, p)
      || (p in writes && Get(Patch(d0.files, writes), p) == writes[p]) {
      PatchAt(d0.files, writes, p);
    }
    forall q: (Name, Path) | q.0 != f ensures Get(BackUp(d0.files, kept, f, extra), q) == Get(d0.backups, q) {
      BackUpAt(d0.files, kept, f, extra, q);
    }
  }

  // ----- abort

  /** What one abort step writes: the saved copy of the file, or nothing where there was none. */
  lemma UndoOneMore(files: map<Path, PayloadFile>, j: Journal, done: set<Path>, p: Path)
    requires p in j.entries && (j.entries[p].before.Some? ==> p in j.before)
    ensures var now := Patch(files, Only(Copies(j), done));
            Patch(files, Only(Copies(j), done + {p})) ==
            if j.entries[p].before.Some? then now[p := j.before[p]] else now - {p}
  {
    hide Patch, Only;
    PatchStep(files, Copies(j), done, p);
  }

  lemma CopyNone(backups: map<(Name, Path), PayloadFile>, saved: map<(Name, Path), PayloadFile>)
    ensures backups + Only(saved, {}) == backups
  {
  }

  lemma CopyAll(saved: map<(Name, Path), PayloadFile>, all: set<(Name, Path)>)
    requires all == saved.Keys
    ensures Only(saved, all) == saved
  {
  }

  lemma CopyStep(
      backups: map<(Name, Path), PayloadFile>, saved: map<(Name, Path), PayloadFile>, done: set<(Name, Path)>,
        q: (Name, Path))
    requires q in saved
    ensures backups + Only(saved, done + {q}) == (backups + Only(saved, done))[q := saved[q]]
  {
  }

  lemma CopyOthers(
      backups: map<(Name, Path), PayloadFile>, saved: map<(Name, Path), PayloadFile>, done: set<(Name, Path)>, f: Name)
    requires forall q: (Name, Path) :: q in saved ==> q.0 == f
    ensures Others(backups + Only(saved, done), f) == Others(backups, f)
  {
  }

  /** What an operation that proceeds journals, answers, writes and leaves. */
  lemma PerformsAs(d: Disk, operation: Operation, r: Recipe, f: Name)
    requires PerformVerdict(d, operation, r, f).Proceed?
    ensures var desired, written := Desired(d, operation, r, f), Written(d, operation, r, f);
            match operation
            case Add =>
              && desired == written == AddDesired(r.features[f]) && desired.Keys == r.features[f].files.Keys
              && Reliable(d, operation, r, f) && PerformedFrom(d, operation, r, f) == Added(d, r, f)
            case Remove =>
              var feature := d.lock.features[f];
              && desired == RemoveDesired(feature) && desired.Keys == feature.files.Keys
              && written == Saved(d.backups, f, feature.files)
              && (Reliable(d, operation, r, f) <==> Restorable(d.backups, f, feature.files))
              && PerformedFrom(d, operation, r, f) == Removed(d, f).(files := Patch(d.files, written))
            case Update =>
              var prior, feature := d.lock.features[f], r.features[f];
              && desired == UpdateDesired(prior, feature) && desired.Keys == prior.files.Keys + feature.files.Keys
              && written == Writes(d.backups, f, prior, feature)
              && (Reliable(d, operation, r, f) <==> Restorable(d.backups, f, Dropped(prior.files, feature)))
              && PerformedFrom(d, operation, r, f) == UpdatedFrom(d, r, f)
  {
    hide Patch;
  }

  /** Every snapshot a resumed operation leaves: rolling back, rolled back, running again, or done. */
  ghost predicate ResumeSafe(d0: Disk, undone: Journal, redone: Journal, trace: seq<Disk>, from: nat, result: Disk) {
    forall k :: from <= k < |trace| ==>
                  trace[k] == d0 || trace[k] == result || InFlight(d0, undone, trace[k])
                    || InFlight(d0, redone, trace[k])
  }

  /** On the way back to `target`, and from there on the way of the operation that is performed again. */
  ghost predicate OnTheWayThrough(
      d: Disk, target: Disk, redone: Journal, written: map<Path, Option<Digest>>, trace: seq<Disk>, from: nat,
        result: Disk)
    requires d.journal.Some?
  {
    forall k :: from <= k < |trace| ==>
                  || trace[k] == target || trace[k] == result
                  || Toward(d, d.journal.value.feature, Copies(d.journal.value), trace[k])
                  || Toward(target.(journal := Some(redone)), redone.feature, written, trace[k])
  }

  lemma BackAndOn(
      before: seq<Disk>, middle: seq<Disk>, trace: seq<Disk>, d: Disk, target: Disk, redone: Journal,
        written: map<Path, Option<Digest>>, result: Disk)
    requires d.journal.Some? && before <= middle <= trace && OnTheWayBack(d, middle, |before|, target)
    requires OnTheWay(target, redone, written, trace, |middle|, result)
    ensures OnTheWayThrough(d, target, redone, written, trace, |before|, result)
  {
    hide Toward;
    forall k | |before| <= k < |trace| && k < |middle| ensures trace[k] == middle[k] {}
  }
}
