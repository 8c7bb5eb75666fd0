/** `create` plans every feature before it writes anything, remembering only the
    latest owner of each path; the install step checks every owner. They agree. */
module Planner {
  import opened Wrappers
  import opened Names
  import opened Reachability
  import opened Composition
  import opened Composer
  import opened Overlay
  import opened Runs
  import opened Checks

  /** The paths of a payload that may not cover the latest owner of theirs. */
  ghost function Overlaps(r: Recipe, owners: map<Path, Name>, f: Name): set<Path>
    requires f in r.features
  {
    set p | p in r.features[f].files && p in owners && !CanOverlay(r, f, {owners[p]})
  }

  function Claim(owners: map<Path, Name>, paths: set<Path>, f: Name): map<Path, Name> {
    owners + map p | p in paths :: f
  }

  /** The planning loop, from the owners, order and files reached so far. */
  ghost function Plan(r: Recipe, owners: map<Path, Name>, order: set<Name>, planned: map<Path, PayloadFile>,
      todo: seq<Name>)
    : Result<map<Path, PayloadFile>, Error>
    decreases |todo|
  {
    if todo == [] then Ok(planned)
    else
      var f := todo[0];
      if f !in r.features then Err(NotFound(f))
      else if DependencyVerdict(order, r, r.features[f]).Refuse? then
        Err(DependencyVerdict(order, r, r.features[f]).error)
      else if Overlaps(r, owners, f) != {} then Err(Conflict(Overlaps(r, owners, f)))
      else
        var files := r.features[f].files;
        Plan(r, Claim(owners, files.Keys, f), order + {f}, planned + files, todo[1..])
  }

  /** The install loop. */
  ghost function Install(d: Disk, r: Recipe, todo: seq<Name>): Result<Disk, Error>
    decreases |todo|
  {
    if todo == [] then Ok(d)
    else match AddVerdict(d, r, todo[0])
         case Refuse(error) => Err(error)
         case Proceed => Install(Added(d, r, todo[0]), r, todo[1..])
  }

  /** The disk the install loop leaves, at the end or at its first refusal. */
  ghost function Left(d: Disk, r: Recipe, todo: seq<Name>): Disk
    decreases |todo|
  {
    if todo == [] || AddVerdict(d, r, todo[0]).Refuse? then d else Left(Added(d, r, todo[0]), r, todo[1..])
  }

  function BaseOwners(base: map<Path, PayloadFile>): map<Path, Name> {
    map p | p in base :: "base"
  }

  method PlanFeatures(r: Recipe, base: map<Path, PayloadFile>, features: seq<Name>)
    returns (result: Result<map<Path, PayloadFile>, Error>)
    ensures result == Plan(r, BaseOwners(base), {}, base, features)
  {
    var owners, planned, order: set<Name> := BaseOwners(base), base, {};
    for i := 0 to |features|
      invariant Plan(r, BaseOwners(base), {}, base, features) == Plan(r, owners, order, planned, features[i..])
    {
      var f := features[i];
      assert features[i..][0] == f && features[i..][1..] == features[i + 1..];
      if f !in r.features {
        return Err(NotFound(f));
      }
      var dependencies := DependencyVerdict(order, r, r.features[f]);
      if dependencies.Refuse? {
        return Err(dependencies.error);
      }
      var overlaps := FindOverlaps(r, owners, f);
      if overlaps != {} {
        return Err(Conflict(overlaps));
      }
      owners, planned, order := Claim(owners, r.features[f].files.Keys, f), planned + r.features[f].files, order + {f};
    }
    result := Ok(planned);
  }

  method FindOverlaps(r: Recipe, owners: map<Path, Name>, f: Name) returns (overlaps: set<Path>)
    requires f in r.features
    ensures overlaps == Overlaps(r, owners, f)
  {
    overlaps := {};
    var paths := r.features[f].files.Keys;
    var todo := paths;
    while todo != {}
      invariant todo <= paths
      invariant overlaps == set p | p in paths - todo && p in owners && !CanOverlay(r, f, {owners[p]})
    {
      var path :| path in todo;
      if path in owners && owners[path] != "base" {
        var depends := DependsOn(Dependencies(r), f, owners[path]);
        if !depends {
          overlaps := overlaps + {path};
        }
      }
      todo := todo - {path};
    }
  }

  // ----- what one owner says about all

  predicate Covers(r: Recipe, n: Name, p: Path) {
    n in r.features && p in r.features[n].files
  }

  /** The latest owner of a path once the features of `done` are there; the template's files are owned by "base". */
  function Latest(r: Recipe, base: map<Path, PayloadFile>, done: seq<Name>, p: Path): Option<Name> {
    if done == [] then (if p in base then Some("base") else None)
    else if Covers(r, done[|done| - 1], p) then Some(done[|done| - 1])
    else Latest(r, base, done[..|done| - 1], p)
  }

  /** `f` covers a path whose latest owner is called "base", above an earlier owner that `f` does not reach. */
  ghost predicate HiddenAt(r: Recipe, base: map<Path, PayloadFile>, done: seq<Name>, f: Name, p: Path) {
    && Covers(r, f, p) && Latest(r, base, done, p) == Some("base")
    && exists n :: n in done && n != "base" && Covers(r, n, p) && !Reaches(Dependencies(r), f, n)
  }

  /** Some feature still to come does so. */
  ghost predicate SomeHidden(r: Recipe, base: map<Path, PayloadFile>, done: seq<Name>, todo: seq<Name>) {
    exists k, p :: 0 <= k < |todo| && HiddenAt(r, base, done + todo[..k], todo[k], p)
  }

  lemma {:induction false} LatestIsOwner(r: Recipe, base: map<Path, PayloadFile>, done: seq<Name>, p: Path)
    ensures match Latest(r, base, done, p)
            case Some(n) => (n in done && Covers(r, n, p)) ||
                            (n == "base" && p in base && forall m :: m in done ==> !Covers(r, m, p))
            case None => p !in base && forall m :: m in done ==> !Covers(r, m, p)
  {
    if done != [] {
      var front, last := done[..|done| - 1], done[|done| - 1];
      LatestIsOwner(r, base, front, p);
      assert done == front + [last];
    }
  }

  /** The plan knows the latest owner of the path, and unless that is called "base" it reaches the other owners. */
  ghost predicate OwnerFollows(
      r: Recipe, base: map<Path, PayloadFile>, owners: map<Path, Name>, done: seq<Name>, p: Path)
  {
    && Get(owners, p) == Latest(r, base, done, p)
    && (p in owners && owners[p] != "base" ==>
          forall n :: n in done && Covers(r, n, p) && n != owners[p] && n != "base" ==>
                        Reaches(Dependencies(r), owners[p], n))
  }

  /** Plan and disk in step once the features of `done` are there. */
  ghost predicate Follows(d: Disk, r: Recipe, base: map<Path, PayloadFile>, owners: map<Path, Name>, done: seq<Name>) {
    && d.journal == None && d.files == d.lock.managed
    && (forall n :: n in done <==> n in d.lock.features)
    && (forall n, p :: n in Owners(d.lock, p) <==> n in done && Covers(r, n, p))
    && forall p :: OwnerFollows(r, base, owners, done, p)
  }

  /** The install's rule for a path is the plan's rule, save where an owner is hidden by the name "base". */
  lemma OwnersDecide(
      r: Recipe, base: map<Path, PayloadFile>, owners: map<Path, Name>, done: seq<Name>, f: Name, p: Path,
        all: set<Name>)
    requires OwnerFollows(r, base, owners, done, p) && Covers(r, f, p)
    requires forall n :: n in all <==> n in done && Covers(r, n, p)
    ensures CanOverlay(r, f, all) <==>
            !(p in owners && !CanOverlay(r, f, {owners[p]})) && !HiddenAt(r, base, done, f, p)
  {
    LatestIsOwner(r, base, done, p);
    if p in owners && owners[p] != "base" {
      var top := owners[p];
      assert top in all && top in {top};
      if Reaches(Dependencies(r), f, top) {
        forall n | n in all && n != "base" ensures Reaches(Dependencies(r), f, n) {
          if n != top {
            ReachesTransitive(Dependencies(r), f, top, n);
          }
        }
      }
    }
  }

  /** One rule is as good as the other exactly where nothing is hidden. */
  lemma RulesDifferIff(
      d: Disk, r: Recipe, base: map<Path, PayloadFile>, owners: map<Path, Name>, done: seq<Name>, f: Name, p: Path)
    requires Follows(d, r, base, owners, done) && Covers(r, f, p)
    ensures AddConflict(d, r, f, p) <==> p in Overlaps(r, owners, f) || HiddenAt(r, base, done, f, p)
  {
    OwnersDecide(r, base, owners, done, f, p, Owners(d.lock, p));
  }

  lemma AddedFiles(d: Disk, r: Recipe, f: Name)
    requires f in r.features
    ensures Added(d, r, f).files == d.files + r.features[f].files && Added(d, r, f).journal == d.journal
    ensures d.files == d.lock.managed ==> Added(d, r, f).files == Added(d, r, f).lock.managed
  {
    forall p ensures Get(Added(d, r, f).files, p) == Get(d.files + r.features[f].files, p) {
      PatchAt(d.files, AddDesired(r.features[f]), p);
    }
    SameMap(Added(d, r, f).files, d.files + r.features[f].files);
  }

  /** The files of an install's outcome. */
  function FilesOf(installed: Result<Disk, Error>): Result<map<Path, PayloadFile>, Error> {
    match installed case Ok(d) => Ok(d.files) case Err(error) => Err(error)
  }

  lemma ClaimFollows(
      r: Recipe, base: map<Path, PayloadFile>, owners: map<Path, Name>, done: seq<Name>, f: Name, p: Path)
    requires f in r.features && OwnerFollows(r, base, owners, done, p)
    requires Covers(r, f, p) ==>
               forall n :: n in done && Covers(r, n, p) && n != "base" ==> Reaches(Dependencies(r), f, n)
    ensures OwnerFollows(r, base, Claim(owners, r.features[f].files.Keys, f), done + [f], p)
  {
    assert (done + [f])[..|done|] == done;
  }

  /** An accepted feature is new, and reaches the owners of what it covers. */
  lemma ClearReaches(d: Disk, r: Recipe, done: seq<Name>, f: Name, p: Path)
    requires AddClear(d, r, f) && forall n :: n in Owners(d.lock, p) <==> n in done && Covers(r, n, p)
    ensures f in r.features && f !in d.lock.features
    ensures Covers(r, f, p) ==>
              forall n :: n in done && Covers(r, n, p) && n != "base" ==> Reaches(Dependencies(r), f, n)
  {
    if Covers(r, f, p) {
      AddClearAt(d, r, f, p);
    }
  }

  /** An accepted add keeps plan and disk in step. */
  lemma StepFollows(d: Disk, r: Recipe, base: map<Path, PayloadFile>, owners: map<Path, Name>, done: seq<Name>, f: Name)
    requires Follows(d, r, base, owners, done) && AddVerdict(d, r, f).Proceed?
    ensures Follows(Added(d, r, f), r, base, Claim(owners, r.features[f].files.Keys, f), done + [f])
    ensures Added(d, r, f).files == d.files + r.features[f].files
    ensures Added(d, r, f).lock.features.Keys == d.lock.features.Keys + {f}
  {
    hide AddVerdict, AddClear, Added, Owners, OwnerFollows, Claim, Reaches, Latest;
    AddIsClear(d, r, f);
    ClearReaches(d, r, done, f, []);
    var claimed, e := Claim(owners, r.features[f].files.Keys, f), Added(d, r, f);
    forall p ensures OwnerFollows(r, base, claimed, done + [f], p) {
      ClearReaches(d, r, done, f, p);
      ClaimFollows(r, base, owners, done, f, p);
    }
    forall n, p ensures n in Owners(e.lock, p) <==> n in done + [f] && Covers(r, n, p) {
      OwnersAfterAdd(d, r, f, p);
      assert n in Owners(d.lock, p) <==> n in done && Covers(r, n, p);
    }
    OwnersAfterAdd(d, r, f, []);
    AddedFiles(d, r, f);
  }

  /** Distinct features, none of them installed. */
  ghost predicate Pending(installed: set<Name>, todo: seq<Name>) {
    (forall f :: f in todo ==> f !in installed) && (forall i, j :: 0 <= i < j < |todo| ==> todo[i] != todo[j])
  }

  lemma PendingTail(installed: set<Name>, todo: seq<Name>)
    requires Pending(installed, todo) && todo != []
    ensures todo[0] !in installed && Pending(installed + {todo[0]}, todo[1..])
  {
  }

  /** The conflicts of the install are the overlaps of the plan, where nothing is hidden. */
  lemma SameVerdict(d: Disk, r: Recipe, base: map<Path, PayloadFile>, owners: map<Path, Name>, done: seq<Name>, f: Name)
    requires Follows(d, r, base, owners, done) && f in r.features && f !in done
    requires forall p :: !HiddenAt(r, base, done, f, p)
    ensures AddVerdict(d, r, f) ==
            if DependencyVerdict(d.lock.features.Keys, r, r.features[f]).Refuse? then
              DependencyVerdict(d.lock.features.Keys, r, r.features[f])
            else if Overlaps(r, owners, f) != {} then Refuse(Conflict(Overlaps(r, owners, f))) else Proceed
  {
    forall p | p in r.features[f].files ensures p in Overlaps(r, owners, f) <==> AddConflict(d, r, f, p) {
      RulesDifferIff(d, r, base, owners, done, f, p);
    }
    assert Overlaps(r, owners, f) == set p | p in r.features[f].files && AddConflict(d, r, f, p);
  }

  /** A feature that covers a hidden owner is refused by the install. */
  lemma HiddenIsRefused(
      d: Disk, r: Recipe, base: map<Path, PayloadFile>, owners: map<Path, Name>, done: seq<Name>, f: Name, p: Path)
    requires Follows(d, r, base, owners, done) && HiddenAt(r, base, done, f, p)
    ensures AddVerdict(d, r, f).Refuse?
  {
    RulesDifferIff(d, r, base, owners, done, f, p);
    AddIsClear(d, r, f);
  }

  lemma HiddenLater(r: Recipe, base: map<Path, PayloadFile>, done: seq<Name>, todo: seq<Name>)
    requires todo != []
    ensures SomeHidden(r, base, done, todo) <==>
            (exists p :: HiddenAt(r, base, done, todo[0], p)) || SomeHidden(r, base, done + [todo[0]], todo[1..])
  {
    var later, rest := done + [todo[0]], todo[1..];
    assert done + todo[..0] == done;
    forall k | 0 <= k < |rest| ensures later + rest[..k] == done + todo[..k + 1] && rest[k] == todo[k + 1] {
      assert todo[..k + 1] == [todo[0]] + rest[..k];
    }
    if p :| HiddenAt(r, base, done, todo[0], p) {
      assert HiddenAt(r, base, done + todo[..0], todo[0], p);
    }
    if k, p :| 0 <= k < |rest| && HiddenAt(r, base, later + rest[..k], rest[k], p) {
      assert HiddenAt(r, base, done + todo[..k + 1], todo[k + 1], p);
    }
    if k, p :| 0 < k < |todo| && HiddenAt(r, base, done + todo[..k], todo[k], p) {
      assert HiddenAt(r, base, later + rest[..k - 1], rest[k - 1], p);
    }
  }

  /** From any point on: where nothing is hidden the two loops agree, and otherwise the install is refused. */
  lemma {:induction false} LoopsAgreeFrom(
      d: Disk, r: Recipe, base: map<Path, PayloadFile>, owners: map<Path, Name>, done: seq<Name>, todo: seq<Name>)
    requires Follows(d, r, base, owners, done) && Pending(d.lock.features.Keys, todo)
    ensures !SomeHidden(r, base, done, todo) ==>
              Plan(r, owners, d.lock.features.Keys, d.files, todo) == FilesOf(Install(d, r, todo))
    ensures SomeHidden(r, base, done, todo) ==> Install(d, r, todo).Err?
    decreases |todo|
  {
    hide Follows, HiddenAt, SomeHidden, AddVerdict, DependencyVerdict, Overlaps, Added, Reaches;
    if todo == [] {
      NothingHidden(r, base, done);
      return;
    }
    var f := todo[0];
    HiddenLater(r, base, done, todo);
    PendingTail(d.lock.features.Keys, todo);
    if p :| HiddenAt(r, base, done, f, p) {
      HiddenIsRefused(d, r, base, owners, done, f, p);
      return;
    }
    DoneIsInstalled(d, r, base, owners, done, f);
    if f in r.features {
      SameVerdict(d, r, base, owners, done, f);
      if AddVerdict(d, r, f).Proceed? {
        StepFollows(d, r, base, owners, done, f);
        LoopsAgreeFrom(Added(d, r, f), r, base, Claim(owners, r.features[f].files.Keys, f), done + [f], todo[1..]);
      }
    } else {
      UnknownIsRefused(d, r, f);
    }
  }

  lemma NothingHidden(r: Recipe, base: map<Path, PayloadFile>, done: seq<Name>)
    ensures !SomeHidden(r, base, done, [])
  {
  }

  lemma DoneIsInstalled(
      d: Disk, r: Recipe, base: map<Path, PayloadFile>, owners: map<Path, Name>, done: seq<Name>, f: Name)
    requires Follows(d, r, base, owners, done)
    ensures f in done <==> f in d.lock.features
  {
  }

  lemma UnknownIsRefused(d: Disk, r: Recipe, f: Name)
    requires f !in r.features && f !in d.lock.features
    ensures AddVerdict(d, r, f) == Refuse(NotFound(f))
  {
  }

  lemma CreatedFollows(r: Recipe, base: map<Path, PayloadFile>, template: string)
    ensures var d := Created(Origin(Dependencies(r), base, {}), template, r.identity);
            Follows(d, r, base, BaseOwners(base), []) && d.lock.features.Keys == {} && d.files == base
  {
    var d := Created(Origin(Dependencies(r), base, {}), template, r.identity);
    assert d.lock.managed == base;
  }

  /** For distinct features, the install accepts exactly if the plan does and no feature covers a path whose
      latest owner is the feature "base" above an earlier owner it does not reach. */
  lemma InstallAcceptsIff(r: Recipe, base: map<Path, PayloadFile>, template: string, features: seq<Name>)
    requires Pending({}, features)
    ensures Install(Created(Origin(Dependencies(r), base, {}), template, r.identity), r, features).Ok? <==>
            Plan(r, BaseOwners(base), {}, base, features).Ok? && !SomeHidden(r, base, [], features)
  {
    CreatedFollows(r, base, template);
    LoopsAgreeFrom(
      Created(Origin(Dependencies(r), base, {}), template, r.identity), r, base, BaseOwners(base), [], features);
  }

  /** Where there is no such feature and path, plan and install refuse with the same error or
      accept with the same files. */
  lemma PlanAgreesWithInstall(r: Recipe, base: map<Path, PayloadFile>, template: string, features: seq<Name>)
    requires Pending({}, features) && !SomeHidden(r, base, [], features)
    ensures Plan(r, BaseOwners(base), {}, base, features) ==
            FilesOf(Install(Created(Origin(Dependencies(r), base, {}), template, r.identity), r, features))
  {
    CreatedFollows(r, base, template);
    LoopsAgreeFrom(
      Created(Origin(Dependencies(r), base, {}), template, r.identity), r, base, BaseOwners(base), [], features);
  }

  /** So they agree wherever no feature called "base" is known or asked for. */
  lemma NobodyHidesWithoutBase(r: Recipe, base: map<Path, PayloadFile>, features: seq<Name>)
    requires "base" !in features || "base" !in r.features
    ensures !SomeHidden(r, base, [], features)
  {
    forall k, p | 0 <= k < |features| ensures !HiddenAt(r, base, [] + features[..k], features[k], p) {
      LatestIsOwner(r, base, [] + features[..k], p);
    }
  }

  // ----- the plan without its loop

  /** Of the features of `done`, the last one to cover the path. */
  predicate CoversLast(r: Recipe, done: seq<Name>, p: Path, k: nat) {
    k < |done| && Covers(r, done[k], p) && forall j :: k < j < |done| ==> !Covers(r, done[j], p)
  }

  lemma CoversLastOf(r: Recipe, done: seq<Name>, f: Name, p: Path, k: nat)
    ensures CoversLast(r, done + [f], p, k) <==>
            if Covers(r, f, p) then k == |done| else CoversLast(r, done, p, k)
  {
    var all := done + [f];
    assert all[|done|] == f;
    assert forall j :: 0 <= j < |done| ==> all[j] == done[j];
  }

  lemma LatestOf(r: Recipe, base: map<Path, PayloadFile>, done: seq<Name>, f: Name, p: Path)
    ensures Latest(r, base, done + [f], p) == if Covers(r, f, p) then Some(f) else Latest(r, base, done, p)
  {
    assert (done + [f])[..|done|] == done;
  }

  lemma {:induction false} LatestCoversLast(r: Recipe, base: map<Path, PayloadFile>, done: seq<Name>, p: Path)
    ensures forall k: nat :: CoversLast(r, done, p, k) ==> Latest(r, base, done, p) == Some(done[k])
    ensures (forall k: nat :: !CoversLast(r, done, p, k)) ==>
              Latest(r, base, done, p) == if p in base then Some("base") else None
    decreases |done|
  {
    if done != [] {
      var front, f := done[..|done| - 1], done[|done| - 1];
      assert done == front + [f];
      LatestCoversLast(r, base, front, p);
      LatestOf(r, base, front, f, p);
      forall k: nat ensures CoversLast(r, done, p, k) <==>
                            if Covers(r, f, p) then k == |front| else CoversLast(r, front, p, k)
      {
        CoversLastOf(r, front, f, p, k);
      }
      assert Covers(r, f, p) ==> CoversLast(r, done, p, |front|);
      assert forall k: nat | CoversLast(r, front, p, k) :: k < |front| && front[k] == done[k];
    }
  }

  /** The path does not belong, after the features of `done`, to one that `f` does not reach. */
  ghost predicate MayTake(r: Recipe, done: seq<Name>, f: Name, p: Path) {
    forall k: nat :: CoversLast(r, done, p, k) ==> done[k] == "base" || Reaches(Dependencies(r), f, done[k])
  }

  /** The feature is known, comes after its dependencies and after none of its conflicts, and may take its files. */
  ghost predicate Fits(r: Recipe, done: seq<Name>, f: Name) {
    && f in r.features
    && (forall e :: e in r.features[f].dependencies ==> e in done && e in r.features)
    && (forall c :: c in r.features[f].conflicts ==> c !in done)
    && (forall p :: p in r.features[f].files ==> MayTake(r, done, f, p))
  }

  function NamesOf(done: seq<Name>): set<Name> {
    set n | n in done
  }

  /** The error for a feature that does not fit. */
  ghost predicate Misfits(r: Recipe, done: seq<Name>, f: Name, error: Error) {
    if f !in r.features then error == NotFound(f)
    else
      var lists := DependencyVerdict(NamesOf(done), r, r.features[f]);
      if lists.Refuse? then error == lists.error
      else
        && error.Conflict? && error.paths != {}
        && forall p :: p in error.paths <==> p in r.features[f].files && !MayTake(r, done, f, p)
  }

  /** What a path holds when the features of `done` were written over the base in turn. */
  ghost predicate HoldsLast(
      r: Recipe, base: map<Path, PayloadFile>, done: seq<Name>, p: Path, content: Option<PayloadFile>)
  {
    && (forall k: nat :: CoversLast(r, done, p, k) ==> content == Some(r.features[done[k]].files[p]))
    && ((forall k: nat :: !CoversLast(r, done, p, k)) ==> content == Get(base, p))
  }

  /** The state of the planning loop after the features of `done`. */
  ghost predicate PlannedTo(r: Recipe, base: map<Path, PayloadFile>, owners: map<Path, Name>, order: set<Name>,
      planned: map<Path, PayloadFile>, done: seq<Name>)
  {
    && (forall n :: n in order <==> n in done)
    && forall p :: Get(owners, p) == Latest(r, base, done, p) && HoldsLast(r, base, done, p, Get(planned, p))
  }

  lemma OverlapsAre(r: Recipe, base: map<Path, PayloadFile>, owners: map<Path, Name>, done: seq<Name>, f: Name, p: Path)
    requires f in r.features && Get(owners, p) == Latest(r, base, done, p)
    ensures p in Overlaps(r, owners, f) <==> p in r.features[f].files && !MayTake(r, done, f, p)
  {
    hide Reaches, CoversLast, Latest;
    LatestCoversLast(r, base, done, p);
    if k: nat :| CoversLast(r, done, p, k) {
      OnlyLast(r, done, p, k);
    }
  }

  lemma OnlyLast(r: Recipe, done: seq<Name>, p: Path, k: nat)
    requires CoversLast(r, done, p, k)
    ensures k < |done| && forall j: nat :: CoversLast(r, done, p, j) ==> j == k
  {
  }

  lemma PlansOn(r: Recipe, base: map<Path, PayloadFile>, owners: map<Path, Name>, order: set<Name>,
      planned: map<Path, PayloadFile>, done: seq<Name>, f: Name)
    requires PlannedTo(r, base, owners, order, planned, done) && f in r.features
    ensures PlannedTo(
      r, base, Claim(owners, r.features[f].files.Keys, f), order + {f}, planned + r.features[f].files, done + [f])
  {
    hide CoversLast, Latest;
    var claimed, files := Claim(owners, r.features[f].files.Keys, f), planned + r.features[f].files;
    forall p ensures Get(claimed, p) == Latest(r, base, done + [f], p)
      ensures HoldsLast(r, base, done + [f], p, Get(files, p))
    {
      LatestOf(r, base, done, f, p);
      assert HoldsLast(r, base, done, p, Get(planned, p));
      HoldsOn(r, base, done, f, p, Get(planned, p));
    }
  }

  lemma HoldsOn(
      r: Recipe, base: map<Path, PayloadFile>, done: seq<Name>, f: Name, p: Path, content: Option<PayloadFile>)
    requires HoldsLast(r, base, done, p, content) && f in r.features
    ensures HoldsLast(r, base, done + [f], p, if Covers(r, f, p) then Some(r.features[f].files[p]) else content)
  {
    hide CoversLast;
    forall k: nat ensures CoversLast(r, done + [f], p, k) <==>
                          if Covers(r, f, p) then k == |done| else CoversLast(r, done, p, k)
    {
      CoversLastOf(r, done, f, p, k);
    }
    forall k: nat | CoversLast(r, done, p, k) ensures k < |done| && (done + [f])[k] == done[k] {
      OnlyLast(r, done, p, k);
    }
    assert Covers(r, f, p) ==> CoversLast(r, done + [f], p, |done|);
  }

  lemma FitsIff(r: Recipe, base: map<Path, PayloadFile>, owners: map<Path, Name>, order: set<Name>, done: seq<Name>,
      f: Name)
    requires f in r.features && forall n :: n in order <==> n in done
    requires forall p :: Get(owners, p) == Latest(r, base, done, p)
    ensures Fits(r, done, f) <==>
            DependencyVerdict(order, r, r.features[f]).Proceed? && Overlaps(r, owners, f) == {}
    ensures !Fits(r, done, f) ==>
              var lists := DependencyVerdict(order, r, r.features[f]);
              Misfits(r, done, f, if lists.Refuse? then lists.error else Conflict(Overlaps(r, owners, f)))
  {
    hide DependencyVerdict, Overlaps, MayTake, Latest;
    assert order == NamesOf(done);
    ListsRefuse(order, r, r.features[f]);
    forall p ensures p in Overlaps(r, owners, f) <==> p in r.features[f].files && !MayTake(r, done, f, p) {
      OverlapsAre(r, base, owners, done, f, p);
    }
  }

  lemma OnePlanned(done: seq<Name>, todo: seq<Name>, k: nat)
    requires k < |todo|
    ensures (done + [todo[0]]) + todo[1..][..k] == done + todo[..k + 1]
  {
  }

  lemma UnknownMisfits(r: Recipe, done: seq<Name>, f: Name)
    requires f !in r.features
    ensures !Fits(r, done, f) && Misfits(r, done, f, NotFound(f))
  {
  }

  /** The first feature that does not fit, and its error. */
  ghost predicate FirstMisfit(r: Recipe, done: seq<Name>, todo: seq<Name>, k: nat, error: Error) {
    && k < |todo| && !Fits(r, done + todo[..k], todo[k]) && Misfits(r, done + todo[..k], todo[k], error)
    && forall j :: 0 <= j < k ==> Fits(r, done + todo[..j], todo[j])
  }

  lemma MisfitLater(r: Recipe, done: seq<Name>, todo: seq<Name>, k: nat, error: Error)
    requires todo != [] && Fits(r, done, todo[0]) && FirstMisfit(r, done + [todo[0]], todo[1..], k, error)
    ensures FirstMisfit(r, done, todo, k + 1, error)
  {
    hide Fits, Misfits;
    var f, rest := todo[0], todo[1..];
    OnePlanned(done, todo, k);
    forall j | 0 <= j < k + 1 ensures Fits(r, done + todo[..j], todo[j]) {
      if j == 0 {
        assert done + todo[..0] == done;
      } else {
        OnePlanned(done, todo, j - 1);
        assert Fits(r, (done + [f]) + rest[..j - 1], rest[j - 1]);
      }
    }
  }

  /** How the plan of `todo` ends after the features of `done`: accepted, or refused at feature `k`. */
  ghost predicate PlanEnds(r: Recipe, base: map<Path, PayloadFile>, done: seq<Name>, todo: seq<Name>,
      result: Result<map<Path, PayloadFile>, Error>, k: nat)
  {
    match result
    case Ok(files) =>
      && (forall i :: 0 <= i < |todo| ==> Fits(r, done + todo[..i], todo[i]))
      && (forall p :: HoldsLast(r, base, done + todo, p, Get(files, p)))
    case Err(error) => FirstMisfit(r, done, todo, k, error)
  }

  lemma EndsAtOnce(r: Recipe, base: map<Path, PayloadFile>, owners: map<Path, Name>, order: set<Name>,
      planned: map<Path, PayloadFile>, done: seq<Name>)
    requires PlannedTo(r, base, owners, order, planned, done)
    ensures PlanEnds(r, base, done, [], Ok(planned), 0)
  {
    hide HoldsLast, Latest, Fits;
    assert done + [] == done;
  }

  lemma EndsHere(r: Recipe, base: map<Path, PayloadFile>, done: seq<Name>, todo: seq<Name>, error: Error)
    requires todo != [] && !Fits(r, done, todo[0]) && Misfits(r, done, todo[0], error)
    ensures PlanEnds(r, base, done, todo, Err(error), 0)
  {
    hide Fits, Misfits, HoldsLast;
    assert done + todo[..0] == done;
  }

  lemma EndsLater(r: Recipe, base: map<Path, PayloadFile>, done: seq<Name>, todo: seq<Name>,
      result: Result<map<Path, PayloadFile>, Error>, k: nat)
    requires todo != [] && Fits(r, done, todo[0]) && PlanEnds(r, base, done + [todo[0]], todo[1..], result, k)
    ensures PlanEnds(r, base, done, todo, result, k + 1)
  {
    hide Fits, Misfits, HoldsLast, FirstMisfit;
    var f, rest := todo[0], todo[1..];
    match result
    case Ok(files) =>
      assert (done + [f]) + rest == done + todo;
      forall i | 0 <= i < |todo| ensures Fits(r, done + todo[..i], todo[i]) {
        if i == 0 {
          assert done + todo[..0] == done;
        } else {
          OnePlanned(done, todo, i - 1);
          assert Fits(r, (done + [f]) + rest[..i - 1], rest[i - 1]);
        }
      }
    case Err(error) => MisfitLater(r, done, todo, k, error);
  }

  lemma PlanUnfolds(r: Recipe, owners: map<Path, Name>, order: set<Name>, planned: map<Path, PayloadFile>,
      todo: seq<Name>)
    requires todo != []
    ensures var f := todo[0];
            Plan(r, owners, order, planned, todo) ==
            if f !in r.features then Err(NotFound(f))
            else if DependencyVerdict(order, r, r.features[f]).Refuse? then
              Err(DependencyVerdict(order, r, r.features[f]).error)
            else if Overlaps(r, owners, f) != {} then Err(Conflict(Overlaps(r, owners, f)))
            else
              Plan(r, Claim(owners, r.features[f].files.Keys, f), order + {f}, planned + r.features[f].files, todo[1..])
  {
    hide DependencyVerdict, Overlaps, Claim;
  }

  lemma {:induction false} PlanFrom(r: Recipe, base: map<Path, PayloadFile>, owners: map<Path, Name>, order: set<Name>,
      planned: map<Path, PayloadFile>, done: seq<Name>, todo: seq<Name>) returns (k: nat)
    requires PlannedTo(r, base, owners, order, planned, done)
    ensures PlanEnds(r, base, done, todo, Plan(r, owners, order, planned, todo), k)
    decreases |todo|
  {
    hide Plan, PlanEnds, Fits, Misfits, HoldsLast, Overlaps, DependencyVerdict, Latest, Claim;
    k := 0;
    if todo == [] {
      NothingToPlan(r, owners, order, planned);
      EndsAtOnce(r, base, owners, order, planned, done);
    } else {
      var f := todo[0];
      PlanUnfolds(r, owners, order, planned, todo);
      if f !in r.features {
        UnknownMisfits(r, done, f);
        EndsHere(r, base, done, todo, NotFound(f));
      } else {
        FitsIff(r, base, owners, order, done, f);
        if Fits(r, done, f) {
          PlansOn(r, base, owners, order, planned, done, f);
          var claimed, files := Claim(owners, r.features[f].files.Keys, f), planned + r.features[f].files;
          var later := PlanFrom(r, base, claimed, order + {f}, files, done + [f], todo[1..]);
          EndsLater(r, base, done, todo, Plan(r, claimed, order + {f}, files, todo[1..]), later);
          k := later + 1;
        } else {
          var lists := DependencyVerdict(order, r, r.features[f]);
          EndsHere(r, base, done, todo, if lists.Refuse? then lists.error else Conflict(Overlaps(r, owners, f)));
        }
      }
    }
  }

  lemma NothingToPlan(r: Recipe, owners: map<Path, Name>, order: set<Name>, planned: map<Path, PayloadFile>)
    ensures Plan(r, owners, order, planned, []) == Ok(planned)
  {
  }

  /** The plan accepts exactly the lists in which each feature is known, comes after its dependencies and after none
      of its conflicts, and covers no file whose last owner before it is a feature it does not reach; then each path
      holds what the last feature to cover it brings, or the base. Otherwise the first feature that does not fit
      gives the error. */
  lemma PlanAcceptsIff(r: Recipe, base: map<Path, PayloadFile>, features: seq<Name>)
    ensures Plan(r, BaseOwners(base), {}, base, features).Ok? <==>
            forall k :: 0 <= k < |features| ==> Fits(r, features[..k], features[k])
    ensures match Plan(r, BaseOwners(base), {}, base, features)
            case Ok(files) => forall p :: HoldsLast(r, base, features, p, Get(files, p))
            case Err(error) => exists k: nat :: FirstMisfit(r, [], features, k, error)
  {
    hide Fits, Misfits, HoldsLast, Plan;
    NothingPlanned(r, base);
    var misfit := PlanFrom(r, base, BaseOwners(base), {}, base, [], features);
    forall k | 0 <= k < |features| ensures [] + features[..k] == features[..k] {}
    assert [] + features == features;
  }

  lemma NothingPlanned(r: Recipe, base: map<Path, PayloadFile>)
    ensures PlannedTo(r, base, BaseOwners(base), {}, base, [])
  {
  }

  // ----- what the install leaves

  /** The install leaves the features before the first refusal, and all of them where there is none. */
  lemma {:induction false} LeftIsInstalled(d: Disk, r: Recipe, todo: seq<Name>) returns (k: nat)
    ensures k <= |todo| && Install(d, r, todo[..k]) == Ok(Left(d, r, todo))
    ensures match Install(d, r, todo)
            case Ok(e) => k == |todo| && e == Left(d, r, todo)
            case Err(error) => k < |todo| && AddVerdict(Left(d, r, todo), r, todo[k]) == Refuse(error)
    decreases |todo|
  {
    hide AddVerdict, Added;
    if todo == [] || AddVerdict(d, r, todo[0]).Refuse? {
      k := 0;
    } else {
      UnknownFails(d, r, todo[0]);
      var e := Added(d, r, todo[0]);
      var j := LeftIsInstalled(e, r, todo[1..]);
      k := j + 1;
      assert todo[..k][0] == todo[0] && todo[..k][1..] == todo[1..][..j];
    }
  }

  lemma UnknownFails(d: Disk, r: Recipe, f: Name)
    requires AddVerdict(d, r, f).Proceed?
    ensures f in r.features && f in Added(d, r, f).lock.features
    ensures forall n :: n in d.lock.features ==> n in Added(d, r, f).lock.features
  {
  }

  /** A feature asked for twice is refused the second time, whatever the plan says. */
  lemma {:induction false} RepeatsAreRefused(d: Disk, r: Recipe, todo: seq<Name>)
    requires !Pending(d.lock.features.Keys, todo)
    ensures Install(d, r, todo).Err?
    decreases |todo|
  {
    hide AddVerdict, Added;
    if todo != [] && AddVerdict(d, r, todo[0]).Proceed? {
      InstalledIsRefused(d, r, todo[0]);
      UnknownFails(d, r, todo[0]);
      RepeatsAreRefused(Added(d, r, todo[0]), r, todo[1..]);
    }
  }

  lemma InstalledIsRefused(d: Disk, r: Recipe, f: Name)
    requires AddVerdict(d, r, f).Proceed?
    ensures f !in d.lock.features
  {
  }

  /** Plan first, and only then write the template and add the features one by one. What was
      written stays, also where a feature is refused. */
  method Create(r: Recipe, base: map<Path, PayloadFile>, template: string, features: seq<Name>)
    returns (result: Result<Project, Error>, left: Option<Project>)
    ensures var plan := Plan(r, BaseOwners(base), {}, base, features);
            var install := Install(Created(Origin(Dependencies(r), base, {}), template, r.identity), r, features);
            && (plan.Err? ==> result == Err(plan.error) && left == None)
            && (plan.Ok? ==>
                  && left.Some?
                  && left.value.Now() ==
                     Left(Created(Origin(Dependencies(r), base, {}), template, r.identity), r, features)
                  && match install
                     case Ok(d) => result == Ok(left.value) && left.value.Now() == d
                     case Err(error) => result == Err(error))
            && (Pending({}, features) && plan.Ok? ==> (result.Ok? <==> !SomeHidden(r, base, [], features)))
            && (Pending({}, features) && result.Ok? ==> plan.Ok? && result.value.files == plan.value)
  {
    var plan := PlanFeatures(r, base, features);
    if plan.Err? {
      return Err(plan.error), None;
    }
    var project := new Project(base, Lock(template, r.identity, base, map[]), map[]);
    ghost var created := Created(Origin(Dependencies(r), base, {}), template, r.identity);
    if Pending({}, features) {
      InstallAcceptsIff(r, base, template, features);
      if !SomeHidden(r, base, [], features) {
        PlanAgreesWithInstall(r, base, template, features);
      }
    }
    assert project.Now() == created;
    for i := 0 to |features|
      invariant Install(created, r, features) == Install(project.Now(), r, features[i..])
      invariant Left(created, r, features) == Left(project.Now(), r, features[i..])
    {
      assert features[i..][0] == features[i] && features[i..][1..] == features[i + 1..];
      var added := project.AddLoadedFeature(r, features[i]);
      if added.Err? {
        return Err(added.error), Some(project);
      }
    }
    return Ok(project), Some(project);
  }

  // ----- a feature called "base"

  function ThreeDeep(a: PayloadFile, b: PayloadFile, c: PayloadFile): Recipe {
    Recipe(Identity("t", "1", "d"), map[
      "x" := FeatureRecipe("1", [], [], map["a.txt" := a], {}),
      "base" := FeatureRecipe("1", ["x"], [], map["a.txt" := b], {}),
      "y" := FeatureRecipe("1", [], [], map["a.txt" := c], {})])
  }

  lemma ThreeDeepReaches(a: PayloadFile, b: PayloadFile, c: PayloadFile)
    ensures Reaches(Dependencies(ThreeDeep(a, b, c)), "base", "x")
    ensures !Reaches(Dependencies(ThreeDeep(a, b, c)), "y", "x")
  {
    var g := Dependencies(ThreeDeep(a, b, c));
    EdgeReaches(g, "base", "x");
    if Reaches(g, "y", "x") {
      var n := FirstStep(g, "y", "x");
    }
  }

  lemma PlanOne(r: Recipe, owners: map<Path, Name>, order: set<Name>, planned: map<Path, PayloadFile>, f: Name,
      rest: seq<Name>)
    requires f in r.features && DependencyVerdict(order, r, r.features[f]).Proceed? && Overlaps(r, owners, f) == {}
    ensures Plan(r, owners, order, planned, [f] + rest) ==
            Plan(r, Claim(owners, r.features[f].files.Keys, f), order + {f}, planned + r.features[f].files, rest)
  {
    assert ([f] + rest)[1..] == rest;
  }

  lemma NoOverlaps(a: PayloadFile, b: PayloadFile, c: PayloadFile, owners: map<Path, Name>, f: Name)
    requires f in ThreeDeep(a, b, c).features
    requires "a.txt" in owners ==> owners["a.txt"] == "base" || (f == "base" && owners["a.txt"] == "x")
    ensures ThreeDeep(a, b, c).features[f].files.Keys == {"a.txt"} && Overlaps(ThreeDeep(a, b, c), owners, f) == {}
  {
    ThreeDeepReaches(a, b, c);
  }

  /** The dependencies of each are there when its turn comes. */
  lemma ThreeDeepDepends(a: PayloadFile, b: PayloadFile, c: PayloadFile)
    ensures var r := ThreeDeep(a, b, c);
            && DependencyVerdict({}, r, r.features["x"]).Proceed?
            && DependencyVerdict({} + {"x"}, r, r.features["base"]).Proceed?
            && DependencyVerdict({} + {"x"} + {"base"}, r, r.features["y"]).Proceed?
  {
  }

  lemma ThreeDeepPlanned(a: PayloadFile, b: PayloadFile, c: PayloadFile)
    ensures Plan(ThreeDeep(a, b, c), map[], {}, map[], ["x", "base", "y"]).Ok?
  {
    hide Plan, DependencyVerdict, Overlaps;
    var r := ThreeDeep(a, b, c);
    var o1 := Claim(map[], {"a.txt"}, "x");
    var o2 := Claim(o1, {"a.txt"}, "base");
    NoOverlaps(a, b, c, map[], "x");
    NoOverlaps(a, b, c, o1, "base");
    NoOverlaps(a, b, c, o2, "y");
    ThreeDeepDepends(a, b, c);
    assert ["x"] + ["base", "y"] == ["x", "base", "y"] && ["base"] + ["y"] == ["base", "y"] && ["y"] + [] == ["y"];
    var p1 := map[] + r.features["x"].files;
    var p2 := p1 + r.features["base"].files;
    PlanOne(r, map[], {}, map[], "x", ["base", "y"]);
    PlanOne(r, o1, {} + {"x"}, p1, "base", ["y"]);
    PlanOne(r, o2, {} + {"x"} + {"base"}, p2, "y", []);
    NothingToPlan(r, Claim(o2, {"a.txt"}, "y"), {} + {"x"} + {"base"} + {"y"}, p2 + r.features["y"].files);
  }

  lemma ThreeDeepRefused(a: PayloadFile, b: PayloadFile, c: PayloadFile, d: Disk)
    requires "x" in Owners(d.lock, "a.txt") && "y" !in d.lock.features
    ensures AddVerdict(d, ThreeDeep(a, b, c), "y") == Refuse(Conflict({"a.txt"}))
  {
    hide Reaches;
    var r := ThreeDeep(a, b, c);
    ThreeDeepReaches(a, b, c);
    assert DependencyVerdict(d.lock.features.Keys, r, r.features["y"]) == Proceed;
    assert !CanOverlay(r, "y", Owners(d.lock, "a.txt"));
    assert (set p | p in r.features["y"].files && AddConflict(d, r, "y", p)) == {"a.txt"};
  }

  lemma OwnersAfterAdd(d: Disk, r: Recipe, f: Name, p: Path)
    requires f in r.features && f !in d.lock.features
    ensures Added(d, r, f).lock.features.Keys == d.lock.features.Keys + {f}
    ensures Owners(Added(d, r, f).lock, p) == Owners(d.lock, p) + if p in r.features[f].files then {f} else {}
  {
    hide Patch, BackUp, Covering;
    var e := Added(d, r, f);
    forall n | n in d.lock.features ensures n in Owners(e.lock, p) <==> n in Owners(d.lock, p) {
      assert e.lock.features[n] == d.lock.features[n];
    }
    assert e.lock.features[f].files.Keys == r.features[f].files.Keys;
  }

  lemma FirstInstalled(r: Recipe, f: Name, d0: Disk)
    requires d0.lock.features == map[] && d0.files == d0.lock.managed && d0.journal == None
    requires f in r.features && r.features[f].dependencies == [] == r.features[f].conflicts
    ensures AddVerdict(d0, r, f).Proceed?
  {
    forall p ensures Owners(d0.lock, p) == {} {}
    UnboundAddProceeds(d0, r, f);
  }

  lemma OneFileAddProceeds(d: Disk, r: Recipe, f: Name, p: Path)
    requires d.journal == None && f in r.features && f !in d.lock.features && r.features[f].files.Keys == {p}
    requires DependencyVerdict(d.lock.features.Keys, r, r.features[f]).Proceed?
    requires Get(d.files, p) == Get(d.lock.managed, p) && CanOverlay(r, f, Owners(d.lock, p))
    ensures AddVerdict(d, r, f).Proceed?
  {
    ClearAddProceeds(d, r, f);
  }

  lemma SecondInstalled(a: PayloadFile, b: PayloadFile, c: PayloadFile, d1: Disk)
    requires d1.lock.features.Keys == {"x"} && Owners(d1.lock, "a.txt") == {"x"} && d1.journal == None
    requires Get(d1.files, "a.txt") == Get(d1.lock.managed, "a.txt")
    ensures var r := ThreeDeep(a, b, c); var d2 := Added(d1, r, "base");
            AddVerdict(d1, r, "base").Proceed? && Owners(d2.lock, "a.txt") == {"x", "base"}
              && d2.lock.features.Keys == {"x", "base"}
  {
    hide Reaches, CanOverlay, Owners, Added, AddVerdict;
    ThreeDeepReaches(a, b, c);
    NoOverlaps(a, b, c, map[], "base");
    OwnersAfterAdd(d1, ThreeDeep(a, b, c), "base", "a.txt");
    OneFileAddProceeds(d1, ThreeDeep(a, b, c), "base", "a.txt");
  }

  lemma ThreeDeepInstalled(a: PayloadFile, b: PayloadFile, c: PayloadFile, d0: Disk)
    requires d0 == Created(Origin(Dependencies(ThreeDeep(a, b, c)), map[], {}), "t", ThreeDeep(a, b, c).identity)
    ensures var r := ThreeDeep(a, b, c); var d1 := Added(d0, r, "x"); var d2 := Added(d1, r, "base");
            && AddVerdict(d0, r, "x").Proceed? && AddVerdict(d1, r, "base").Proceed?
            && Owners(d2.lock, "a.txt") == {"x", "base"} && d2.lock.features.Keys == {"x", "base"}
  {
    FirstLayer(a, b, c, d0);
    SecondInstalled(a, b, c, Added(d0, ThreeDeep(a, b, c), "x"));
  }

  lemma FirstLayer(a: PayloadFile, b: PayloadFile, c: PayloadFile, d0: Disk)
    requires d0 == Created(Origin(Dependencies(ThreeDeep(a, b, c)), map[], {}), "t", ThreeDeep(a, b, c).identity)
    ensures var r := ThreeDeep(a, b, c); var d1 := Added(d0, r, "x");
            && AddVerdict(d0, r, "x").Proceed? && d1.journal == None
            && d1.lock.features.Keys == {"x"} && Owners(d1.lock, "a.txt") == {"x"}
            && Get(d1.files, "a.txt") == Get(d1.lock.managed, "a.txt")
  {
    var r := ThreeDeep(a, b, c);
    FirstInstalled(r, "x", d0);
    OwnersAfterAdd(d0, r, "x", "a.txt");
    PatchAt(d0.files, AddDesired(r.features["x"]), "a.txt");
    PatchAt(d0.lock.managed, AddDesired(r.features["x"]), "a.txt");
  }

  /** With a feature called "base" the latest owner no longer speaks for the others:
      the plan takes it for the template and accepts what the install refuses. */
  lemma PlanTrustsTheNameBase(a: PayloadFile, b: PayloadFile, c: PayloadFile)
    ensures var r := ThreeDeep(a, b, c);
            && Plan(r, map[], {}, map[], ["x", "base", "y"]).Ok?
            && Install(Created(Origin(Dependencies(r), map[], {}), "t", r.identity), r, ["x", "base", "y"]) ==
              Err(Conflict({"a.txt"}))
  {
    var r := ThreeDeep(a, b, c);
    var d0 := Created(Origin(Dependencies(r), map[], {}), "t", r.identity);
    var d1 := Added(d0, r, "x");
    var d2 := Added(d1, r, "base");
    ThreeDeepPlanned(a, b, c);
    ThreeDeepInstalled(a, b, c, d0);
    ThreeDeepRefused(a, b, c, d2);
    InstallOne(d0, r, ["x", "base", "y"]);
    InstallOne(d1, r, ["base", "y"]);
    InstallOne(d2, r, ["y"]);
  }

  lemma InstallOne(d: Disk, r: Recipe, todo: seq<Name>)
    requires todo != []
    ensures Install(d, r, todo) ==
            match AddVerdict(d, r, todo[0])
            case Refuse(error) => Err(error)
            case Proceed => Install(Added(d, r, todo[0]), r, todo[1..])
  {
  }
}
