/** What a composed project keeps on disk (its files, the composition lock, each
    feature's backups and the operation journal), and what adding, removing,
    updating, aborting and continuing do to it, stated as functions of the disk.
    A digest stands for the content it identifies, so it is the file itself. */
module Composition {
  import opened Wrappers
  import opened Names
  import opened Reachability

  type Path = string

  datatype PayloadFile = PayloadFile(contents: string, executable: bool)

  type Digest = PayloadFile

  datatype LockedFile = LockedFile(
    installed: Digest, previous: Option<Digest>, previousExisted: bool, generated: bool)

  datatype LockedFeature = LockedFeature(version: string, files: map<Path, LockedFile>, dependencies: seq<Name>)

  datatype Identity = Identity(name: string, version: string, digest: string)

  datatype Lock = Lock(
    template: string, recipe: Identity, managed: map<Path, Digest>, features: map<Name, LockedFeature>)

  datatype FeatureRecipe = FeatureRecipe(
    version: string, dependencies: seq<Name>, conflicts: seq<Name>, files: map<Path, PayloadFile>, generated: set<Path>)

  datatype Recipe = Recipe(identity: Identity, features: map<Name, FeatureRecipe>)

  datatype Operation = Add | Remove | Update

  datatype Entry = Entry(before: Option<Digest>, after: Option<Digest>)

  /** The saved copies a journal holds: the covered files, the lock, and the feature's backups. */
  datatype Journal = Journal(
    operation: Operation, feature: Name, entries: map<Path, Entry>,
    before: map<Path, PayloadFile>, lock: Lock, backups: map<(Name, Path), PayloadFile>)

  datatype Disk = Disk(
    files: map<Path, PayloadFile>, lock: Lock, backups: map<(Name, Path), PayloadFile>, journal: Option<Journal>)

  datatype Error =
    | Conflict(paths: set<Path>)
    | NotFound(name: Name)
    | Usage
    | InvalidRecipe
    | Io

  /** What the checks before the journal decide. */
  datatype Verdict = Proceed | Refuse(error: Error)

  const JOURNAL: Path := ".devme/composer/journal"

  // ----- the recipe

  function Dependencies(r: Recipe): Edges {
    map n | n in r.features :: r.features[n].dependencies
  }

  predicate TransitionAllowed(lock: Lock, r: Recipe) {
    && r.identity.name == lock.recipe.name == lock.template
    && (lock.recipe.version == r.identity.version ==> lock.recipe.digest == r.identity.digest)
  }

  function DependencyVerdict(installed: set<Name>, r: Recipe, feature: FeatureRecipe): Verdict {
    if exists d | d in feature.dependencies :: d !in installed then Refuse(Usage)
    else if exists c | c in feature.conflicts :: c in installed then Refuse(Conflict({}))
    else if exists d | d in feature.dependencies :: d !in r.features then Refuse(InvalidRecipe)
    else Proceed
  }

  /** May `feature` cover a path with these owners? */
  ghost predicate CanOverlay(r: Recipe, feature: Name, owners: set<Name>) {
    forall owner :: owner in owners ==> owner == "base" || Reaches(Dependencies(r), feature, owner)
  }

  function Owners(lock: Lock, path: Path): set<Name> {
    set n | n in lock.features && path in lock.features[n].files
  }

  // ----- the checks before each operation

  ghost predicate AddConflict(d: Disk, r: Recipe, f: Name, p: Path)
    requires f in r.features
  {
    || (&& Get(d.files, p) != Get(d.lock.managed, p)
        && !(p in r.features[f].generated && p in d.lock.managed))
    || !CanOverlay(r, f, Owners(d.lock, p))
  }

  ghost function AddVerdict(d: Disk, r: Recipe, f: Name): Verdict {
    if f in d.lock.features then Refuse(Usage)
    else if f !in r.features then Refuse(NotFound(f))
    else if DependencyVerdict(d.lock.features.Keys, r, r.features[f]).Refuse? then
      DependencyVerdict(d.lock.features.Keys, r, r.features[f])
    else
      var conflicts := set p | p in r.features[f].files && AddConflict(d, r, f, p);
      if conflicts != {} then Refuse(Conflict(conflicts))
      else if d.journal.Some? then Refuse(Conflict({JOURNAL}))
      else Proceed
  }

  function Dependents(lock: Lock, f: Name): set<Name> {
    set n | n in lock.features && n != f && f in lock.features[n].dependencies
  }

  predicate RemoveConflict(d: Disk, f: Name, p: Path)
    requires f in d.lock.features && p in d.lock.features[f].files
  {
    Get(d.files, p) != Some(d.lock.features[f].files[p].installed) && !d.lock.features[f].files[p].generated
  }

  function RemoveVerdict(d: Disk, f: Name): Verdict {
    if f !in d.lock.features then Refuse(NotFound(f))
    else if Dependents(d.lock, f) != {} then Refuse(Usage)
    else
      var conflicts := set p | p in d.lock.features[f].files && RemoveConflict(d, f, p);
      if conflicts != {} then Refuse(Conflict(conflicts))
      else if d.journal.Some? then Refuse(Conflict({JOURNAL}))
      else Proceed
  }

  ghost predicate UpdateConflict(d: Disk, r: Recipe, f: Name, p: Path)
    requires f in d.lock.features && f in r.features
  {
    var was := d.lock.features[f].files;
    var generated := r.features[f].generated;
    || (p in was && Get(d.files, p) != Some(was[p].installed) && !(was[p].generated || p in generated))
    || (p !in was && Get(d.files, p) != Get(d.lock.managed, p) && !(p in generated && p in d.lock.managed))
    || !CanOverlay(r, f, Owners(d.lock, p) - {f})
  }

  ghost function UpdateVerdict(d: Disk, r: Recipe, f: Name): Verdict {
    if !TransitionAllowed(d.lock, r) then Refuse(InvalidRecipe)
    else if f !in d.lock.features then Refuse(NotFound(f))
    else if f !in r.features then Refuse(NotFound(f))
    else if DependencyVerdict(d.lock.features.Keys - {f}, r, r.features[f]).Refuse? then
      DependencyVerdict(d.lock.features.Keys - {f}, r, r.features[f])
    else
      var paths := d.lock.features[f].files.Keys + r.features[f].files.Keys;
      var conflicts := set p | p in paths && UpdateConflict(d, r, f, p);
      if conflicts != {} then Refuse(Conflict(conflicts))
      else if d.journal.Some? then Refuse(Conflict({JOURNAL}))
      else Proceed
  }

  /** What an add needs. */
  ghost predicate AddClear(d: Disk, r: Recipe, f: Name) {
    && d.journal == None && f !in d.lock.features && f in r.features
    && (forall e :: e in r.features[f].dependencies ==> e in d.lock.features && e in r.features)
    && (forall c :: c in r.features[f].conflicts ==> c !in d.lock.features)
    && (forall p :: p in r.features[f].files ==> !AddConflict(d, r, f, p))
  }

  ghost predicate RemoveClear(d: Disk, f: Name) {
    && d.journal == None && f in d.lock.features && Dependents(d.lock, f) == {}
    && (forall p :: p in d.lock.features[f].files ==> !RemoveConflict(d, f, p))
  }

  ghost predicate UpdateClear(d: Disk, r: Recipe, f: Name) {
    && d.journal == None && f in d.lock.features && f in r.features
    && (forall e :: e in r.features[f].dependencies ==> e in d.lock.features && e != f && e in r.features)
    && (forall c :: c in r.features[f].conflicts && c in d.lock.features ==> c == f)
    && (forall p :: p in d.lock.features[f].files || p in r.features[f].files ==> !UpdateConflict(d, r, f, p))
  }

  lemma AddClearAt(d: Disk, r: Recipe, f: Name, p: Path)
    requires AddClear(d, r, f) && p in r.features[f].files
    ensures Get(d.files, p) == Get(d.lock.managed, p) || p in d.lock.managed
    ensures CanOverlay(r, f, Owners(d.lock, p))
  {
    assert !AddConflict(d, r, f, p);
  }

  lemma UpdateClearAt(d: Disk, r: Recipe, f: Name, p: Path)
    requires UpdateClear(d, r, f) && (p in d.lock.features[f].files || p in r.features[f].files)
    ensures p !in d.lock.features[f].files ==> Get(d.files, p) == Get(d.lock.managed, p) || p in d.lock.managed
    ensures CanOverlay(r, f, Owners(d.lock, p) - {f})
  {
    assert !UpdateConflict(d, r, f, p);
  }

  /** The verdicts proceed exactly where all that an operation needs is there. */
  lemma VerdictsAreClear(d: Disk, r: Recipe, f: Name)
    ensures AddVerdict(d, r, f).Proceed? <==> AddClear(d, r, f)
    ensures RemoveVerdict(d, f).Proceed? <==> RemoveClear(d, f)
    ensures UpdateVerdict(d, r, f).Proceed? <==> UpdateClear(d, r, f) && TransitionAllowed(d.lock, r)
  {
    AddIsClear(d, r, f);
    RemoveIsClear(d, f);
    UpdateIsClear(d, r, f);
  }

  lemma AddIsClear(d: Disk, r: Recipe, f: Name)
    ensures AddVerdict(d, r, f).Proceed? <==> AddClear(d, r, f)
  {
    if f in r.features {
      var conflicts := set p | p in r.features[f].files && AddConflict(d, r, f, p);
      assert forall p | p in r.features[f].files :: p in conflicts <==> AddConflict(d, r, f, p);
    }
  }

  lemma RemoveIsClear(d: Disk, f: Name)
    ensures RemoveVerdict(d, f).Proceed? <==> RemoveClear(d, f)
  {
    if f in d.lock.features {
      var conflicts := set p | p in d.lock.features[f].files && RemoveConflict(d, f, p);
      assert forall p | p in d.lock.features[f].files :: p in conflicts <==> RemoveConflict(d, f, p);
    }
  }

  lemma UpdateIsClear(d: Disk, r: Recipe, f: Name)
    ensures UpdateVerdict(d, r, f).Proceed? <==> UpdateClear(d, r, f) && TransitionAllowed(d.lock, r)
  {
    if f in d.lock.features && f in r.features {
      var paths := d.lock.features[f].files.Keys + r.features[f].files.Keys;
      var conflicts := set p | p in paths && UpdateConflict(d, r, f, p);
      assert forall p | p in paths :: p in conflicts <==> UpdateConflict(d, r, f, p);
    }
  }

  // ----- the disk after each operation

  /** What a removed or dropped file gives back. */
  function Restored(file: LockedFile): Option<Digest> {
    if file.previousExisted then file.previous else None
  }

  /** The map `m` with each key of `change` set, or removed where it is `None`. */
  function Patch<K, V>(m: map<K, V>, change: map<K, Option<V>>): (n: map<K, V>) {
    map k | k in m.Keys + change.Keys && (k in change ==> change[k].Some?) ::
      if k in change then change[k].value else m[k]
  }

  lemma PatchAt<K, V>(m: map<K, V>, change: map<K, Option<V>>, k: K)
    ensures Get(Patch(m, change), k) == if k in change then change[k] else Get(m, k)
  {
  }

  function Only<K, V>(m: map<K, V>, keys: set<K>): map<K, V> {
    map k | k in m && k in keys :: m[k]
  }

  lemma PatchStep<K, V>(m: map<K, V>, change: map<K, Option<V>>, done: set<K>, k: K)
    requires k in change
    ensures Patch(m, Only(change, done + {k})) ==
            match change[k]
            case Some(v) => Patch(m, Only(change, done))[k := v]
            case None => Patch(m, Only(change, done)) - {k}
  {
  }

  lemma PatchNone<K, V>(m: map<K, V>, change: map<K, Option<V>>)
    ensures Patch(m, Only(change, {})) == m
  {
  }

  lemma PatchAll<K, V>(m: map<K, V>, change: map<K, Option<V>>, all: set<K>)
    requires all == change.Keys
    ensures Only(change, all) == change
  {
  }

  function AddDesired(feature: FeatureRecipe): map<Path, Option<Digest>> {
    map p | p in feature.files :: Some(feature.files[p])
  }

  function RemoveDesired(feature: LockedFeature): map<Path, Option<Digest>> {
    map p | p in feature.files :: Restored(feature.files[p])
  }

  function UpdateDesired(was: LockedFeature, feature: FeatureRecipe): map<Path, Option<Digest>> {
    map p | p in was.files.Keys + feature.files.Keys ::
      if p in feature.files then Some(feature.files[p]) else Restored(was.files[p])
  }

  /** The lock entry of a newly covered path: it saves what the path held before. */
  function Covering(files: map<Path, PayloadFile>, feature: FeatureRecipe, p: Path): LockedFile
    requires p in feature.files
  {
    LockedFile(feature.files[p], Get(files, p), p in files, p in feature.generated)
  }

  function Identify(lock: Lock, r: Recipe): Lock {
    lock.(recipe := lock.recipe.(version := r.identity.version, digest := r.identity.digest))
  }

  /** The backups after `f` newly covers `paths`: what each held is kept, the rest is as it was. */
  function BackUp(files: map<Path, PayloadFile>, backups: map<(Name, Path), PayloadFile>, f: Name, paths: set<Path>)
    : map<(Name, Path), PayloadFile>
  {
    backups + map q: (Name, Path) | q in (set p | p in paths && p in files :: (f, p)) && q.1 in files :: files[q.1]
  }

  lemma BackUpAt(
      files: map<Path, PayloadFile>, backups: map<(Name, Path), PayloadFile>, f: Name, paths: set<Path>,
        q: (Name, Path))
    ensures Get(BackUp(files, backups, f, paths), q) ==
            if q.0 == f && q.1 in paths && q.1 in files then Some(files[q.1]) else Get(backups, q)
  {
  }

  lemma BackUpStep(
      files: map<Path, PayloadFile>, backups: map<(Name, Path), PayloadFile>, f: Name, paths: set<Path>, p: Path)
    ensures BackUp(files, backups, f, paths + {p}) ==
            var b := BackUp(files, backups, f, paths); if p in files then b[(f, p) := files[p]] else b
  {
    var b := BackUp(files, backups, f, paths);
    var after := if p in files then b[(f, p) := files[p]] else b;
    forall q: (Name, Path) ensures Get(BackUp(files, backups, f, paths + {p}), q) == Get(after, q) {
      BackUpAt(files, backups, f, paths, q);
      BackUpAt(files, backups, f, paths + {p}, q);
    }
    SameMap(BackUp(files, backups, f, paths + {p}), after);
  }

  function Added(d: Disk, r: Recipe, f: Name): Disk
    requires f in r.features
  {
    var feature := r.features[f];
    var locked := LockedFeature(
                    feature.version, map p | p in feature.files :: Covering(d.files, feature, p), feature.dependencies);
    Disk(
      Patch(d.files, AddDesired(feature)),
      Identify(d.lock, r).(
        managed := Patch(d.lock.managed, AddDesired(feature)), features := d.lock.features[f := locked]),
      BackUp(d.files, d.backups, f, feature.files.Keys), d.journal)
  }

  function Others(backups: map<(Name, Path), PayloadFile>, f: Name): map<(Name, Path), PayloadFile> {
    map q | q in backups && q.0 != f :: backups[q]
  }

  function Removed(d: Disk, f: Name): Disk
    requires f in d.lock.features
  {
    var desired := RemoveDesired(d.lock.features[f]);
    Disk(
      Patch(d.files, desired),
      d.lock.(managed := Patch(d.lock.managed, desired), features := d.lock.features - {f}),
      Others(d.backups, f), d.journal)
  }

  /** The lock entries of the already owned paths that stay: what they cover is still what it was. */
  function KeptFiles(prior: map<Path, LockedFile>, feature: FeatureRecipe, paths: set<Path>): map<Path, LockedFile> {
    map p | p in paths && p in prior && p in feature.files ::
      prior[p].(installed := feature.files[p], generated := p in feature.generated)
  }

  function Drop(backups: map<(Name, Path), PayloadFile>, f: Name, paths: set<Path>): map<(Name, Path), PayloadFile> {
    map q | q in backups && !(q.0 == f && q.1 in paths) :: backups[q]
  }

  function Updated(d: Disk, r: Recipe, f: Name): Disk
    requires f in r.features && f in d.lock.features
  {
    var feature := r.features[f];
    var prior := d.lock.features[f].files;
    var extra := feature.files.Keys - prior.Keys;
    var files := KeptFiles(prior, feature, prior.Keys) + map p | p in extra :: Covering(d.files, feature, p);
    var desired := UpdateDesired(d.lock.features[f], feature);
    Disk(
      Patch(d.files, desired),
      Identify(d.lock, r).(
        managed := Patch(d.lock.managed, desired),
        features := d.lock.features[f := LockedFeature(feature.version, files, feature.dependencies)]),
      BackUp(d.files, Drop(d.backups, f, prior.Keys - feature.files.Keys), f, extra), d.journal)
  }

  /** What an add leaves, as far as later checks look at it. */
  lemma AddedReads(d: Disk, r: Recipe, f: Name, p: Path)
    requires f in r.features
    ensures var e, files := Added(d, r, f), r.features[f].files;
            && Get(e.files, p) == (if p in files then Some(files[p]) else Get(d.files, p))
            && Get(e.lock.managed, p) == (if p in files then Some(files[p]) else Get(d.lock.managed, p))
            && e.journal == d.journal && e.lock.template == d.lock.template
            && e.lock.recipe == Identity(d.lock.recipe.name, r.identity.version, r.identity.digest)
            && e.lock.features.Keys == d.lock.features.Keys + {f} && e.lock.features[f].files.Keys == files.Keys
            && (forall q :: q in files ==> e.lock.features[f].files[q] == Covering(d.files, r.features[f], q))
            && e.lock.features[f].dependencies == r.features[f].dependencies
            && (forall g :: g in d.lock.features && g != f ==> e.lock.features[g] == d.lock.features[g])
  {
    PatchAt(d.files, AddDesired(r.features[f]), p);
    PatchAt(d.lock.managed, AddDesired(r.features[f]), p);
  }

  lemma AddedKeeps(d: Disk, r: Recipe, f: Name, q: (Name, Path))
    requires f in r.features
    ensures Get(Added(d, r, f).backups, q) ==
            if q.0 == f && q.1 in r.features[f].files && q.1 in d.files then Some(d.files[q.1]) else Get(d.backups, q)
  {
    hide Patch, BackUp;
    BackUpAt(d.files, d.backups, f, r.features[f].files.Keys, q);
  }

  lemma UpdatedFilesAt(d: Disk, r: Recipe, f: Name, p: Path)
    requires f in d.lock.features && f in r.features
    ensures var e, files, prior := Updated(d, r, f), r.features[f].files, d.lock.features[f].files;
            var shown := if p in files then Some(files[p]) else if p in prior then Restored(prior[p])
              else Get(d.files, p);
            && Get(e.files, p) == shown
            && Get(e.lock.managed, p) == (if p in files || p in prior then shown else Get(d.lock.managed, p))
            && f in e.lock.features && (p in e.lock.features[f].files <==> p in files)
            && (p in files ==>
                  e.lock.features[f].files[p] ==
                  (if p in prior then prior[p].(installed := files[p], generated := p in r.features[f].generated)
                   else Covering(d.files, r.features[f], p)))
  {
    PatchAt(d.files, UpdateDesired(d.lock.features[f], r.features[f]), p);
    PatchAt(d.lock.managed, UpdateDesired(d.lock.features[f], r.features[f]), p);
  }

  lemma UpdatedKeeps(d: Disk, r: Recipe, f: Name, q: (Name, Path))
    requires f in d.lock.features && f in r.features
    ensures var files, prior := r.features[f].files, d.lock.features[f].files;
            Get(Updated(d, r, f).backups, q) ==
            (if q.0 == f && q.1 in prior && q.1 !in files then None
             else if q.0 == f && q.1 in files && q.1 !in prior && q.1 in d.files then Some(d.files[q.1])
             else Get(d.backups, q))
  {
    hide Patch, BackUp;
    var files, prior := r.features[f].files.Keys, d.lock.features[f].files.Keys;
    BackUpAt(d.files, Drop(d.backups, f, prior - files), f, files - prior, q);
  }

  /** Each covered file's backup holds what the lock says it covered. */
  predicate BackupsHold(backups: map<(Name, Path), PayloadFile>, f: Name, files: map<Path, LockedFile>) {
    forall p :: p in files && files[p].previousExisted ==>
                  files[p].previous.Some? && Get(backups, (f, p)) == files[p].previous
  }

  /** What the backups of `f` give back, whatever the lock says they are. */
  function Saved(backups: map<(Name, Path), PayloadFile>, f: Name, files: map<Path, LockedFile>)
    : map<Path, Option<Digest>>
  {
    map p | p in files :: if files[p].previousExisted then Get(backups, (f, p)) else None
  }

  /** Each covered file has a backup, and a digest to manage it by. */
  predicate Restorable(backups: map<(Name, Path), PayloadFile>, f: Name, files: map<Path, LockedFile>) {
    forall p :: p in files && files[p].previousExisted ==> (f, p) in backups && files[p].previous.Some?
  }

  function Dropped(prior: map<Path, LockedFile>, feature: FeatureRecipe): map<Path, LockedFile> {
    map p | p in prior && p !in feature.files :: prior[p]
  }

  /** What an update writes: the new payload, and what the backups give back of the rest. */
  function Writes(backups: map<(Name, Path), PayloadFile>, f: Name, prior: LockedFeature, feature: FeatureRecipe)
    : map<Path, Option<Digest>>
  {
    map p | p in prior.files.Keys + feature.files.Keys ::
      if p in feature.files then Some(feature.files[p]) else Saved(backups, f, prior.files)[p]
  }

  /** If `f` is installed, its backups can be trusted. */
  predicate Sound(d: Disk, f: Name) {
    f in d.lock.features ==> BackupsHold(d.backups, f, d.lock.features[f].files)
  }

  // ----- the three operations as one

  ghost function PerformVerdict(d: Disk, operation: Operation, r: Recipe, f: Name): Verdict {
    match operation
    case Add => if TransitionAllowed(d.lock, r) then AddVerdict(d, r, f) else Refuse(InvalidRecipe)
    case Remove => RemoveVerdict(d, f)
    case Update => UpdateVerdict(d, r, f)
  }

  ghost function Performed(d: Disk, operation: Operation, r: Recipe, f: Name): Disk {
    if PerformVerdict(d, operation, r, f).Refuse? then d else
    match operation
    case Add => Added(d, r, f)
    case Remove => Removed(d, f)
    case Update => Updated(d, r, f)
  }

  ghost function Desired(d: Disk, operation: Operation, r: Recipe, f: Name): map<Path, Option<Digest>>
    requires PerformVerdict(d, operation, r, f).Proceed?
  {
    match operation
    case Add => AddDesired(r.features[f])
    case Remove => RemoveDesired(d.lock.features[f])
    case Update => UpdateDesired(d.lock.features[f], r.features[f])
  }

  /** What the operation writes: what it gives back comes from the backups. */
  ghost function Written(d: Disk, operation: Operation, r: Recipe, f: Name): map<Path, Option<Digest>>
    requires PerformVerdict(d, operation, r, f).Proceed?
  {
    match operation
    case Add => AddDesired(r.features[f])
    case Remove => Saved(d.backups, f, d.lock.features[f].files)
    case Update => Writes(d.backups, f, d.lock.features[f], r.features[f])
  }

  /** Everything the operation is to give back has a backup and a digest. */
  ghost predicate Reliable(d: Disk, operation: Operation, r: Recipe, f: Name)
    requires PerformVerdict(d, operation, r, f).Proceed?
  {
    match operation
    case Add => true
    case Remove => Restorable(d.backups, f, d.lock.features[f].files)
    case Update => Restorable(d.backups, f, Dropped(d.lock.features[f].files, r.features[f]))
  }

  ghost function PerformedFrom(d: Disk, operation: Operation, r: Recipe, f: Name): Disk
    requires PerformVerdict(d, operation, r, f).Proceed?
  {
    Performed(d, operation, r, f).(files := Patch(d.files, Written(d, operation, r, f)))
  }

  /** Where the backups hold what the lock says, they give back what the lock says. */
  lemma HeldIsSaved(backups: map<(Name, Path), PayloadFile>, f: Name, feature: LockedFeature)
    requires BackupsHold(backups, f, feature.files)
    ensures Restorable(backups, f, feature.files) && Saved(backups, f, feature.files) == RemoveDesired(feature)
  {
  }

  lemma HeldIsWritten(
      backups: map<(Name, Path), PayloadFile>, f: Name, prior: LockedFeature, feature: FeatureRecipe)
    requires BackupsHold(backups, f, prior.files)
    ensures Restorable(backups, f, Dropped(prior.files, feature))
    ensures Writes(backups, f, prior, feature) == UpdateDesired(prior, feature)
  {
    HeldIsSaved(backups, f, prior);
  }

  /** Where its backups can be trusted, an operation writes what it means to write. */
  lemma SoundIsWritten(d: Disk, operation: Operation, r: Recipe, f: Name)
    requires PerformVerdict(d, operation, r, f).Proceed? && Sound(d, f)
    ensures Reliable(d, operation, r, f) && Written(d, operation, r, f) == Desired(d, operation, r, f)
    ensures PerformedFrom(d, operation, r, f) == Performed(d, operation, r, f)
  {
    hide BackupsHold, Restorable, Saved, RemoveDesired, Writes, UpdateDesired, AddDesired, Patch, Dropped;
    match operation
    case Add =>
    case Remove => HeldIsSaved(d.backups, f, d.lock.features[f]);
    case Update => HeldIsWritten(d.backups, f, d.lock.features[f], r.features[f]);
  }

  // ----- the journal

  function Capture(d: Disk, operation: Operation, f: Name, desired: map<Path, Option<Digest>>): Journal {
    Journal(
      operation, f, map p | p in desired :: Entry(Get(d.files, p), desired[p]),
      map p | p in desired && p in d.files :: d.files[p],
      d.lock, map q | q in d.backups && q.0 == f :: d.backups[q])
  }

  function Before(j: Journal): map<Path, Option<Digest>> {
    map p | p in j.entries :: j.entries[p].before
  }

  function After(j: Journal): map<Path, Option<Digest>> {
    map p | p in j.entries :: j.entries[p].after
  }

  /** The backups a journal holds are those of its own feature. */
  predicate Own(j: Journal) {
    forall q: (Name, Path) :: q in j.backups ==> q.0 == j.feature
  }

  /** A journal holds a copy of each file that was there, and backups of its own feature only. */
  predicate Complete(j: Journal) {
    (forall p :: p in j.entries ==> Get(j.before, p) == j.entries[p].before) && Own(j)
  }

  /** The journaled paths that hold neither their old nor their new content. */
  function Edited(d: Disk): set<Path>
    requires d.journal.Some?
  {
    var entries := d.journal.value.entries;
    set p | p in entries && Get(d.files, p) != entries[p].before && Get(d.files, p) != entries[p].after
  }

  /** What the saved copies of a journal give back, whatever its entries say they are. */
  function Copies(j: Journal): map<Path, Option<Digest>> {
    map p | p in j.entries :: if j.entries[p].before.Some? then Get(j.before, p) else None
  }

  predicate Copied(j: Journal) {
    forall p :: p in j.entries && j.entries[p].before.Some? ==> p in j.before
  }

  function RolledBack(d: Disk): Disk
    requires d.journal.Some?
  {
    var j := d.journal.value;
    Disk(
      Patch(d.files, Before(j)), j.lock,
      Others(d.backups, j.feature) + j.backups, None)
  }

  /** What is left after the files of a journal are put back from its copies. */
  ghost function Restarted(d: Disk): Disk
    requires d.journal.Some?
  {
    RolledBack(d).(files := Patch(d.files, Copies(d.journal.value)))
  }

  lemma CompleteIsCopied(j: Journal)
    requires Complete(j)
    ensures Copied(j) && Copies(j) == Before(j)
  {
  }

  // ----- crash states

  /** Only files of `desired` have moved, and only to their desired content; only
      backups of `f` have moved. The lock does not matter: the journal has a copy. */
  ghost predicate Toward(a: Disk, f: Name, desired: map<Path, Option<Digest>>, d: Disk) {
    && d.journal == a.journal
    && (forall p :: Get(d.files, p) == Get(a.files, p) || (p in desired && Get(d.files, p) == desired[p]))
    && (forall q: (Name, Path) :: q.0 != f ==> Get(d.backups, q) == Get(a.backups, q))
  }

  /** `d` is what a stop can leave behind: the journal of the operation that began
      on `d0`, each journaled path old or new, everything else but the lock and
      that feature's backups as it was. */
  ghost predicate InFlight(d0: Disk, j: Journal, d: Disk) {
    Toward(d0.(journal := Some(j)), j.feature, After(j), d)
  }

  lemma TowardIsInFlight(d0: Disk, operation: Operation, f: Name, desired: map<Path, Option<Digest>>, d: Disk)
    requires Toward(d0.(journal := Some(Capture(d0, operation, f, desired))), f, desired, d)
    ensures InFlight(d0, Capture(d0, operation, f, desired), d)
  {
    assert After(Capture(d0, operation, f, desired)) == desired;
  }

  lemma RollbackFiles(d0: Disk, j: Journal, d: Disk)
    requires InFlight(d0, j, d) && forall p :: p in j.entries ==> j.entries[p].before == Get(d0.files, p)
    ensures RolledBack(d).files == d0.files
  {
    forall p ensures Get(Patch(d.files, Before(j)), p) == Get(d0.files, p) {
      PatchAt(d.files, Before(j), p);
    }
    SameMap(Patch(d.files, Before(j)), d0.files);
  }

  lemma RollbackBackups(d0: Disk, j: Journal, d: Disk)
    requires InFlight(d0, j, d) && j.backups == map q | q in d0.backups && q.0 == j.feature :: d0.backups[q]
    ensures RolledBack(d).backups == d0.backups
  {
    forall q: (Name, Path) ensures Get(RolledBack(d).backups, q) == Get(d0.backups, q) {
      assert q.0 != j.feature ==> Get(d.backups, q) == Get(d0.backups, q);
    }
    SameMap(RolledBack(d).backups, d0.backups);
  }

  /** Whatever a stop left, nothing reads as an outside edit and rolling back
      gives exactly the disk the operation began on. */
  lemma RollbackRestores(d0: Disk, operation: Operation, f: Name, desired: map<Path, Option<Digest>>, d: Disk)
    requires d0.journal == None && InFlight(d0, Capture(d0, operation, f, desired), d)
    ensures Edited(d) == {} && RolledBack(d) == d0
  {
    var j := Capture(d0, operation, f, desired);
    assert forall p | p in j.entries :: j.entries[p].before == Get(d0.files, p);
    RollbackFiles(d0, j, d);
    RollbackBackups(d0, j, d);
  }

  /** Any state that reads as no outside edit is a crash state of the disk it rolls back to. */
  lemma RollbackIsInFlight(d: Disk)
    requires d.journal.Some? && Complete(d.journal.value) && Edited(d) == {}
    ensures InFlight(RolledBack(d), d.journal.value, d)
  {
    var j := d.journal.value;
    forall p ensures Get(d.files, p) == Get(RolledBack(d).files, p)
      || (p in After(j) && Get(d.files, p) == After(j)[p]) {
      PatchAt(d.files, Before(j), p);
      assert p in Edited(d) <==>
             p in j.entries && Get(d.files, p) != j.entries[p].before && Get(d.files, p) != j.entries[p].after;
    }
  }

  /** Putting journaled files back as they were leads only through crash states of the disk rolled back to. */
  lemma UndoneIsInFlight(d: Disk, x: Disk)
    requires d.journal.Some? && Complete(d.journal.value) && Edited(d) == {}
    requires Toward(d, d.journal.value.feature, Before(d.journal.value), x)
    ensures InFlight(RolledBack(d), d.journal.value, x)
  {
    var j, target := d.journal.value, RolledBack(d);
    RollbackIsInFlight(d);
    forall p ensures Get(x.files, p) == Get(target.files, p) || (p in After(j) && Get(x.files, p) == After(j)[p]) {
      PatchAt(d.files, Before(j), p);
    }
    forall q: (Name, Path) | q.0 != j.feature ensures Get(x.backups, q) == Get(target.backups, q) {
      assert Get(x.backups, q) == Get(d.backups, q) && Get(d.backups, q) == Get(target.backups, q);
    }
  }

  /** With the same recipe, continuing after a stop ends where the operation would have ended. */
  lemma ContinueEqualsNoStop(d0: Disk, operation: Operation, r: Recipe, f: Name, d: Disk)
    requires d0.journal == None && PerformVerdict(d0, operation, r, f).Proceed?
    requires InFlight(d0, Capture(d0, operation, f, Desired(d0, operation, r, f)), d)
    ensures Edited(d) == {} && Complete(d.journal.value)
    ensures var j := d.journal.value;
            Performed(RolledBack(d), j.operation, r, j.feature) == Performed(d0, operation, r, f)
  {
    RollbackRestores(d0, operation, f, Desired(d0, operation, r, f), d);
  }
}
