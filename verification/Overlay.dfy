/** The overlay discipline over whole runs: the owners of a path form a stack,
    each keeping what the owner below it installed, with the base at the bottom. */
module Overlay {
  import opened Wrappers
  import opened Names
  import opened Reachability
  import opened Composition

  /** What a run knows beyond the disk: each path's owners from the bottom up, and
      when each installed feature was added. */
  datatype History = History(stacks: map<Path, seq<Name>>, rank: map<Name, nat>, clock: nat)

  /** Where a run starts: a created project, with the files its lock manages, and
      the app's own files, which it does not. */
  datatype Origin = Origin(graph: Edges, base: map<Path, PayloadFile>, app: set<Path>)

  function Stack(h: History, p: Path): seq<Name> {
    if p in h.stacks then h.stacks[p] else []
  }

  /** One owner's hold on a path: its lock entry and its backup. */
  datatype Layer = Layer(owner: Name, file: LockedFile, backup: Option<PayloadFile>)

  /** What a path shows under these layers. */
  function Shown(bottom: Option<PayloadFile>, layers: seq<Layer>): Option<PayloadFile> {
    if layers == [] then bottom else Some(layers[|layers| - 1].file.installed)
  }

  /** Each layer lies on layers its owner depends on, and keeps what they showed. */
  ghost predicate Layered(g: Edges, bottom: Option<PayloadFile>, layers: seq<Layer>) {
    && (forall i :: 0 <= i < |layers| ==> Keeps(layers[i], Shown(bottom, layers[..i])))
    && (forall i, j :: 0 <= i < j < |layers| ==> Reaches(g, layers[j].owner, layers[i].owner))
  }

  predicate Keeps(layer: Layer, below: Option<PayloadFile>) {
    layer.file.previous == below && layer.file.previousExisted == below.Some? && layer.backup == below
  }

  lemma PushLayer(g: Edges, bottom: Option<PayloadFile>, layers: seq<Layer>, top: Layer)
    requires Layered(g, bottom, layers) && Keeps(top, Shown(bottom, layers))
    requires forall i :: 0 <= i < |layers| ==> Reaches(g, top.owner, layers[i].owner)
    ensures Layered(g, bottom, layers + [top])
  {
    var all := layers + [top];
    forall i | 0 <= i < |all| ensures Keeps(all[i], Shown(bottom, all[..i])) {
      assert all[..i] == layers[..i];
      assert layers[..|layers|] == layers;
    }
  }

  lemma PopLayer(g: Edges, bottom: Option<PayloadFile>, layers: seq<Layer>, top: Layer)
    requires Layered(g, bottom, layers + [top])
    ensures Layered(g, bottom, layers) && Keeps(top, Shown(bottom, layers))
    ensures forall i :: 0 <= i < |layers| ==> Reaches(g, top.owner, layers[i].owner)
  {
    var all := layers + [top];
    assert all[|layers|] == top && all[..|layers|] == layers;
    forall i | 0 <= i < |layers| ensures Keeps(layers[i], Shown(bottom, layers[..i])) {
      assert all[i] == layers[i] && all[..i] == layers[..i];
    }
    forall i, j | 0 <= i < j < |layers| ensures Reaches(g, layers[j].owner, layers[i].owner) {
      assert all[i] == layers[i] && all[j] == layers[j];
    }
    forall i | 0 <= i < |layers| ensures Reaches(g, top.owner, layers[i].owner) {
      assert all[i] == layers[i];
    }
  }

  ghost predicate Owning(features: map<Name, LockedFeature>, owners: seq<Name>, p: Path) {
    forall i :: 0 <= i < |owners| ==> owners[i] in features && p in features[owners[i]].files
  }

  /** The layers of path `p`, read off the disk. */
  ghost function Column(d: Disk, owners: seq<Name>, p: Path): (layers: seq<Layer>)
    requires Owning(d.lock.features, owners, p)
    ensures |layers| == |owners|
    ensures forall i :: 0 <= i < |owners| ==> layers[i] == LayerOf(d, owners[i], p)
  {
    seq(|owners|, i requires 0 <= i < |owners| => LayerOf(d, owners[i], p))
  }

  ghost function LayerOf(d: Disk, f: Name, p: Path): Layer
    requires f in d.lock.features && p in d.lock.features[f].files
  {
    Layer(f, d.lock.features[f].files[p], Get(d.backups, (f, p)))
  }

  ghost predicate PathSound(o: Origin, d: Disk, owners: seq<Name>, p: Path) {
    && Owning(d.lock.features, owners, p)
    && (forall f :: f in d.lock.features && p in d.lock.features[f].files ==> f in owners)
    && Layered(o.graph, Get(o.base, p), Column(d, owners, p))
    && Get(d.files, p) == Shown(Get(o.base, p), Column(d, owners, p))
    && Get(d.lock.managed, p) == (if p in o.app then None else Get(d.files, p))
    && (p in o.app ==> owners == [] && p in o.base)
  }

  /** Each installed feature came after everything it lists. */
  ghost predicate Installed(g: Edges, h: History, features: map<Name, LockedFeature>) {
    && h.rank.Keys == features.Keys
    && (forall f :: f in h.rank ==> h.rank[f] < h.clock)
    && (forall f :: f in features ==> f in g && features[f].dependencies == g[f])
    && (forall f, e :: f in features && Edge(g, f, e) ==> e in features && h.rank[e] < h.rank[f])
  }

  ghost predicate Stacked(o: Origin, h: History, d: Disk) {
    && d.journal == None
    && Installed(o.graph, h, d.lock.features)
    && (forall p :: PathSound(o, d, Stack(h, p), p))
    && (forall q: (Name, Path) :: q in d.backups ==> q.0 in Stack(h, q.1))
  }

  // ----- facts about installed features

  lemma ReachesInstalled(g: Edges, h: History, features: map<Name, LockedFeature>, a: Name, b: Name)
    requires Installed(g, h, features) && a in features && Reaches(g, a, b)
    ensures b in features && h.rank[b] < h.rank[a]
  {
    var w :| IsWalk(g, w) && 2 <= |w| && w[0] == a && w[|w| - 1] == b;
    var i := 1;
    assert Edge(g, w[0], w[1]);
    while i < |w| - 1
      invariant 1 <= i < |w| && w[i] in features && h.rank[w[i]] < h.rank[a]
    {
      assert Edge(g, w[i], w[i + 1]);
      i := i + 1;
    }
  }

  /** Whoever reaches `b` does so through an installed feature that lists `b`. */
  lemma ReachedHasDependent(g: Edges, h: History, lock: Lock, a: Name, b: Name)
    requires Installed(g, h, lock.features) && a in lock.features && Reaches(g, a, b)
    ensures Dependents(lock, b) != {}
  {
    var x := LastStep(g, a, b);
    if x != a {
      ReachesInstalled(g, h, lock.features, a, x);
    }
    assert x in Dependents(lock, b);
  }

  /** The stack keeps no backup astray, so an installed feature's backups hold. */
  lemma StackedIsSound(o: Origin, h: History, d: Disk, f: Name)
    requires Stacked(o, h, d)
    ensures Sound(d, f)
  {
    if f in d.lock.features {
      var files := d.lock.features[f].files;
      forall p | p in files && files[p].previousExisted
        ensures files[p].previous.Some? && Get(d.backups, (f, p)) == files[p].previous
      {
        var owners := Stack(h, p);
        assert PathSound(o, d, owners, p);
        var i :| 0 <= i < |owners| && owners[i] == f;
        assert Keeps(Column(d, owners, p)[i], Shown(Get(o.base, p), Column(d, owners, p)[..i]));
      }
    }
  }

  lemma StackedAt(o: Origin, h: History, d: Disk, p: Path)
    requires Stacked(o, h, d)
    ensures PathSound(o, d, Stack(h, p), p)
    ensures forall f :: (f, p) in d.backups ==> f in Stack(h, p)
  {
    forall f | (f, p) in d.backups ensures f in Stack(h, p) {
      assert (f, p).0 in Stack(h, (f, p).1);
    }
  }

  // ----- one path of one operation: push, pop, replace the top, leave alone

  /** The layers of `owners` on `p` read the same on both disks. */
  ghost predicate SameLayers(d: Disk, e: Disk, owners: seq<Name>, p: Path) {
    forall i :: 0 <= i < |owners| ==>
                  && owners[i] in d.lock.features && p in d.lock.features[owners[i]].files
                  && owners[i] in e.lock.features && p in e.lock.features[owners[i]].files
                  && LayerOf(e, owners[i], p) == LayerOf(d, owners[i], p)
  }

  lemma SameColumn(d: Disk, e: Disk, owners: seq<Name>, p: Path)
    requires SameLayers(d, e, owners, p)
    ensures Column(e, owners, p) == Column(d, owners, p)
  {
  }

  ghost predicate OwnersListed(e: Disk, owners: seq<Name>, p: Path) {
    forall f :: f in e.lock.features && p in e.lock.features[f].files ==> f in owners
  }

  /** `p` shows `shown`, and unless it is the app's own the lock manages it. */
  ghost predicate Shows(o: Origin, e: Disk, p: Path, shown: Option<PayloadFile>) {
    Get(e.files, p) == shown && Get(e.lock.managed, p) == if p in o.app then None else shown
  }

  lemma LeavePath(o: Origin, d: Disk, e: Disk, owners: seq<Name>, p: Path)
    requires PathSound(o, d, owners, p) && SameLayers(d, e, owners, p) && OwnersListed(e, owners, p)
    requires Shows(o, e, p, Get(d.files, p))
    ensures PathSound(o, e, owners, p)
  {
    SameColumn(d, e, owners, p);
  }

  lemma PopPath(o: Origin, d: Disk, e: Disk, owners: seq<Name>, f: Name, p: Path)
    requires PathSound(o, d, owners + [f], p) && SameLayers(d, e, owners, p) && OwnersListed(e, owners, p)
    requires Shows(o, e, p, Restored(d.lock.features[f].files[p]))
    ensures PathSound(o, e, owners, p)
  {
    TopOf(d, owners, f, p);
    PopLayer(o.graph, Get(o.base, p), Column(d, owners, p), LayerOf(d, f, p));
    SameColumn(d, e, owners, p);
  }

  lemma TopOf(d: Disk, owners: seq<Name>, f: Name, p: Path)
    requires Owning(d.lock.features, owners + [f], p)
    ensures Owning(d.lock.features, owners, p) && f in d.lock.features && p in d.lock.features[f].files
    ensures Column(d, owners + [f], p) == Column(d, owners, p) + [LayerOf(d, f, p)]
  {
    assert (owners + [f])[|owners|] == f;
    assert forall i | 0 <= i < |owners| :: (owners + [f])[i] == owners[i];
    var layers := Column(d, owners + [f], p);
    assert layers[|owners|] == LayerOf(d, f, p);
  }

  lemma SplitLast<T>(s: seq<T>, x: T)
    requires s != [] && s[|s| - 1] == x
    ensures s == s[..|s| - 1] + [x]
  {
  }

  lemma OwningMore(features: map<Name, LockedFeature>, owners: seq<Name>, f: Name, p: Path)
    requires Owning(features, owners, p) && f in features && p in features[f].files
    ensures Owning(features, owners + [f], p)
  {
  }

  /** `f` on top of a sound column. */
  lemma OnTop(o: Origin, e: Disk, owners: seq<Name>, f: Name, p: Path)
    requires Owning(e.lock.features, owners, p) && f in e.lock.features && p in e.lock.features[f].files
    requires var layers := Column(e, owners, p);
             Layered(o.graph, Get(o.base, p), layers) && Keeps(LayerOf(e, f, p), Shown(Get(o.base, p), layers))
    requires forall i :: 0 <= i < |owners| ==> Reaches(o.graph, f, owners[i])
    requires p !in o.app && OwnersListed(e, owners + [f], p)
             && Shows(o, e, p, Some(e.lock.features[f].files[p].installed))
    ensures PathSound(o, e, owners + [f], p)
  {
    OwningMore(e.lock.features, owners, f, p);
    OnTopLayered(o, e, owners, f, p);
  }

  lemma OnTopLayered(o: Origin, e: Disk, owners: seq<Name>, f: Name, p: Path)
    requires Owning(e.lock.features, owners + [f], p) && Owning(e.lock.features, owners, p)
    requires f in e.lock.features && p in e.lock.features[f].files
    requires var layers := Column(e, owners, p);
             Layered(o.graph, Get(o.base, p), layers) && Keeps(LayerOf(e, f, p), Shown(Get(o.base, p), layers))
    requires forall i :: 0 <= i < |owners| ==> Reaches(o.graph, f, owners[i])
    ensures Layered(o.graph, Get(o.base, p), Column(e, owners + [f], p))
    ensures Shown(Get(o.base, p), Column(e, owners + [f], p)) == Some(e.lock.features[f].files[p].installed)
  {
    var layers := Column(e, owners, p);
    TopOf(e, owners, f, p);
    PushLayer(o.graph, Get(o.base, p), layers, LayerOf(e, f, p));
    assert (layers + [LayerOf(e, f, p)])[|layers|] == LayerOf(e, f, p);
  }

  lemma PushPath(o: Origin, d: Disk, e: Disk, owners: seq<Name>, f: Name, p: Path)
    requires PathSound(o, d, owners, p) && SameLayers(d, e, owners, p) && OwnersListed(e, owners + [f], p)
    requires f in e.lock.features && p in e.lock.features[f].files && p !in o.app
    requires Keeps(LayerOf(e, f, p), Get(d.files, p))
    requires forall i :: 0 <= i < |owners| ==> Reaches(o.graph, f, owners[i])
    requires Shows(o, e, p, Some(e.lock.features[f].files[p].installed))
    ensures PathSound(o, e, owners + [f], p)
  {
    SameColumn(d, e, owners, p);
    OnTop(o, e, owners, f, p);
  }

  lemma SwapTop(o: Origin, d: Disk, e: Disk, owners: seq<Name>, f: Name, p: Path)
    requires PathSound(o, d, owners + [f], p) && SameLayers(d, e, owners, p) && OwnersListed(e, owners + [f], p)
    requires f in d.lock.features && p in d.lock.features[f].files && f in e.lock.features
             && p in e.lock.features[f].files
    requires forall below :: Keeps(LayerOf(d, f, p), below) ==> Keeps(LayerOf(e, f, p), below)
    requires Shows(o, e, p, Some(e.lock.features[f].files[p].installed))
    ensures PathSound(o, e, owners + [f], p)
  {
    TopOf(d, owners, f, p);
    PopLayer(o.graph, Get(o.base, p), Column(d, owners, p), LayerOf(d, f, p));
    SameColumn(d, e, owners, p);
    forall i | 0 <= i < |owners| ensures Reaches(o.graph, f, owners[i]) {
      assert Column(d, owners, p)[i].owner == owners[i];
    }
    OnTop(o, e, owners, f, p);
  }

  // ----- add

  ghost function Pushed(h: History, f: Name, paths: set<Path>): History {
    History(
      map p | p in h.stacks.Keys + paths :: if p in paths then Stack(h, p) + [f] else h.stacks[p],
      h.rank[f := h.clock], h.clock + 1)
  }

  /** A feature that happens to be called "base" is taken for the template by the
      overlay rule, so it alone can be covered by a feature that does not need it. */
  ghost predicate BaseRespected(r: Recipe, lock: Lock, f: Name, paths: set<Path>) {
    forall p :: p in paths && "base" in Owners(lock, p) - {f} ==> Reaches(Dependencies(r), f, "base")
  }

  lemma OwnersAreBelow(r: Recipe, lock: Lock, f: Name, paths: set<Path>, p: Path, owner: Name)
    requires BaseRespected(r, lock, f, paths) && p in paths && owner in Owners(lock, p) - {f}
    requires CanOverlay(r, f, Owners(lock, p) - {f})
    ensures Reaches(Dependencies(r), f, owner)
  {
  }

  /** What the checks of `add` have settled about a path of the payload. */
  lemma AddAllowed(o: Origin, h: History, d: Disk, r: Recipe, f: Name, p: Path)
    requires Stacked(o, h, d) && Dependencies(r) == o.graph && AddClear(d, r, f)
    requires BaseRespected(r, d.lock, f, r.features[f].files.Keys) && p in r.features[f].files
    ensures p !in o.app && (f, p) !in d.backups
    ensures forall i :: 0 <= i < |Stack(h, p)| ==> Reaches(o.graph, f, Stack(h, p)[i])
  {
    var owners := Stack(h, p);
    StackedAt(o, h, d, p);
    AddClearAt(d, r, f, p);
    assert Owners(d.lock, p) - {f} == Owners(d.lock, p);
    forall i | 0 <= i < |owners| ensures Reaches(o.graph, f, owners[i]) {
      assert owners[i] in Owners(d.lock, p);
      OwnersAreBelow(r, d.lock, f, r.features[f].files.Keys, p, owners[i]);
    }
  }

  lemma AddPath(o: Origin, h: History, d: Disk, r: Recipe, f: Name, p: Path)
    requires PathSound(o, d, Stack(h, p), p) && f in r.features && f !in d.lock.features
    requires p in r.features[f].files ==>
               p !in o.app && (f, p) !in d.backups && forall i ::
                 0 <= i < |Stack(h, p)| ==> Reaches(o.graph, f, Stack(h, p)[i])
    ensures PathSound(o, Added(d, r, f), Stack(Pushed(h, f, r.features[f].files.Keys), p), p)
  {
    var feature, e, owners := r.features[f], Added(d, r, f), Stack(h, p);
    AddedAt(d, r, f, owners, p);
    if p in feature.files {
      PushPath(o, d, e, owners, f, p);
    } else {
      LeavePath(o, d, e, owners, p);
    }
  }

  lemma AddedAt(d: Disk, r: Recipe, f: Name, owners: seq<Name>, p: Path)
    requires Owning(d.lock.features, owners, p) && OwnersListed(d, owners, p) && f in r.features
             && f !in d.lock.features
    ensures var e, files := Added(d, r, f), r.features[f].files;
            && Get(e.files, p) == (if p in files then Some(files[p]) else Get(d.files, p))
            && Get(e.lock.managed, p) == (if p in files then Some(files[p]) else Get(d.lock.managed, p))
            && SameLayers(d, e, owners, p)
            && OwnersListed(e, if p in files then owners + [f] else owners, p)
            && (p in files ==>
                  f in e.lock.features && p in e.lock.features[f].files
                  && e.lock.features[f].files[p] == Covering(d.files, r.features[f], p)
                  && Get(e.backups, (f, p)) == if p in d.files then Some(d.files[p]) else Get(d.backups, (f, p)))
  {
    hide BackUp, Patch;
    var feature, e := r.features[f], Added(d, r, f);
    PatchAt(d.files, AddDesired(feature), p);
    PatchAt(d.lock.managed, AddDesired(feature), p);
    BackUpAt(d.files, d.backups, f, feature.files.Keys, (f, p));
    forall i | 0 <= i < |owners| ensures Get(e.backups, (owners[i], p)) == Get(d.backups, (owners[i], p)) {
      BackUpAt(d.files, d.backups, f, feature.files.Keys, (owners[i], p));
    }
  }

  lemma InstallOne(g: Edges, h: History, features: map<Name, LockedFeature>, f: Name, locked: LockedFeature,
      stacks: map<Path, seq<Name>>)
    requires Installed(g, h, features) && f !in features && f in g && locked.dependencies == g[f]
    requires forall e :: e in g[f] ==> e in features
    ensures Installed(g, History(stacks, h.rank[f := h.clock], h.clock + 1), features[f := locked])
  {
  }

  /** An accepted add leaves the stacks sound. */
  lemma AddKeepsStacks(o: Origin, h: History, d: Disk, r: Recipe, f: Name)
    requires Stacked(o, h, d) && Dependencies(r) == o.graph && AddClear(d, r, f)
    requires BaseRespected(r, d.lock, f, r.features[f].files.Keys)
    ensures Stacked(o, Pushed(h, f, r.features[f].files.Keys), Added(d, r, f))
  {
    var paths := r.features[f].files.Keys;
    var g, e := Pushed(h, f, paths), Added(d, r, f);
    InstallOne(o.graph, h, d.lock.features, f, e.lock.features[f], g.stacks);
    forall p ensures PathSound(o, e, Stack(g, p), p) {
      StackedAt(o, h, d, p);
      if p in paths {
        AddAllowed(o, h, d, r, f, p);
      }
      AddPath(o, h, d, r, f, p);
    }
    forall q: (Name, Path) | q in e.backups ensures q.0 in Stack(g, q.1) {
      BackUpAt(d.files, d.backups, f, paths, q);
    }
  }

  // ----- remove

  ghost function Popped(h: History, f: Name, paths: set<Path>): History {
    History(
      map p | p in h.stacks :: if p in paths && h.stacks[p] != [] then h.stacks[p][..|h.stacks[p]| - 1]
        else h.stacks[p],
      h.rank - {f}, h.clock)
  }

  /** An installed feature nothing depends on is on top of every path it owns. */
  lemma FreeIsOnTop(o: Origin, h: History, d: Disk, f: Name, p: Path)
    requires Stacked(o, h, d) && f in d.lock.features && Dependents(d.lock, f) == {} && p in d.lock.features[f].files
    ensures var owners := Stack(h, p);
            owners != [] && owners[|owners| - 1] == f && f !in owners[..|owners| - 1]
  {
    hide Stacked, Layered, Installed, Reaches, Dependents;
    var owners := Stack(h, p);
    StackedAt(o, h, d, p);
    StackedIsInstalled(o, h, d);
    forall i | 0 <= i < |owners| - 1 ensures owners[i] != f {
      OwnersDescend(o, d, owners, p, i, |owners| - 1);
      if owners[i] == f {
        ReachedHasDependent(o.graph, h, d.lock, owners[|owners| - 1], f);
      }
    }
  }

  lemma RemovedAt(d: Disk, f: Name, owners: seq<Name>, p: Path)
    requires f in d.lock.features && Owning(d.lock.features, owners, p) && f !in owners
    requires OwnersListed(d, if p in d.lock.features[f].files then owners + [f] else owners, p)
    ensures var e, files := Removed(d, f), d.lock.features[f].files;
            && Get(e.files, p) == (if p in files then Restored(files[p]) else Get(d.files, p))
            && Get(e.lock.managed, p) == (if p in files then Restored(files[p]) else Get(d.lock.managed, p))
            && SameLayers(d, e, owners, p) && OwnersListed(e, owners, p)
  {
    PatchAt(d.files, RemoveDesired(d.lock.features[f]), p);
    PatchAt(d.lock.managed, RemoveDesired(d.lock.features[f]), p);
  }

  lemma RemoveOwned(o: Origin, d: Disk, f: Name, below: seq<Name>, p: Path)
    requires PathSound(o, d, below + [f], p) && f in d.lock.features && p in d.lock.features[f].files && f !in below
    ensures PathSound(o, Removed(d, f), below, p)
  {
    TopOf(d, below, f, p);
    RemovedAt(d, f, below, p);
    PopPath(o, d, Removed(d, f), below, f, p);
  }

  lemma RemoveUnowned(o: Origin, d: Disk, f: Name, owners: seq<Name>, p: Path)
    requires PathSound(o, d, owners, p) && f in d.lock.features && p !in d.lock.features[f].files && f !in owners
    ensures PathSound(o, Removed(d, f), owners, p)
  {
    RemovedAt(d, f, owners, p);
    LeavePath(o, d, Removed(d, f), owners, p);
  }

  lemma RemovePath(o: Origin, h: History, d: Disk, f: Name, p: Path)
    requires Stacked(o, h, d) && f in d.lock.features && Dependents(d.lock, f) == {}
    ensures PathSound(o, Removed(d, f), Stack(Popped(h, f, d.lock.features[f].files.Keys), p), p)
    ensures forall g :: g in Stack(h, p) && g != f ==> g in Stack(Popped(h, f, d.lock.features[f].files.Keys), p)
  {
    var owners := Stack(h, p);
    StackedAt(o, h, d, p);
    if p in d.lock.features[f].files {
      FreeIsOnTop(o, h, d, f, p);
      SplitLast(owners, f);
      RemoveOwned(o, d, f, owners[..|owners| - 1], p);
    } else {
      RemoveUnowned(o, d, f, owners, p);
    }
  }

  lemma UninstallOne(g: Edges, h: History, lock: Lock, f: Name, stacks: map<Path, seq<Name>>)
    requires Installed(g, h, lock.features) && Dependents(lock, f) == {}
    ensures Installed(g, History(stacks, h.rank - {f}, h.clock), lock.features - {f})
  {
    forall n | n in lock.features && n != f ensures !Edge(g, n, f) {
      assert n !in Dependents(lock, f);
    }
  }

  /** An accepted removal leaves the stacks sound. */
  lemma RemoveKeepsStacks(o: Origin, h: History, d: Disk, f: Name)
    requires Stacked(o, h, d) && RemoveClear(d, f)
    ensures Stacked(o, Popped(h, f, d.lock.features[f].files.Keys), Removed(d, f))
  {
    var g, e := Popped(h, f, d.lock.features[f].files.Keys), Removed(d, f);
    UninstallOne(o.graph, h, d.lock, f, g.stacks);
    forall p ensures PathSound(o, e, Stack(g, p), p) {
      RemovePath(o, h, d, f, p);
    }
    forall q: (Name, Path) | q in e.backups ensures q.0 in Stack(g, q.1) {
      RemovePath(o, h, d, f, q.1);
    }
  }

  // ----- update

  lemma UpdatedOwners(d: Disk, r: Recipe, f: Name, owners: seq<Name>, p: Path)
    requires f in d.lock.features && f in r.features
    requires OwnersListed(d, if p in d.lock.features[f].files then owners + [f] else owners, p)
    ensures OwnersListed(Updated(d, r, f), if p in r.features[f].files then owners + [f] else owners, p)
  {
    UpdatedFilesAt(d, r, f, p);
  }

  lemma UpdatedAt(d: Disk, r: Recipe, f: Name, owners: seq<Name>, p: Path)
    requires f in d.lock.features && f in r.features && Owning(d.lock.features, owners, p) && f !in owners
    requires OwnersListed(d, if p in d.lock.features[f].files then owners + [f] else owners, p)
    ensures SameLayers(d, Updated(d, r, f), owners, p)
    ensures OwnersListed(Updated(d, r, f), if p in r.features[f].files then owners + [f] else owners, p)
  {
    hide Patch, BackUp;
    var files, prior := r.features[f].files.Keys, d.lock.features[f].files.Keys;
    forall i | 0 <= i < |owners| ensures LayerOf(Updated(d, r, f), owners[i], p) == LayerOf(d, owners[i], p) {
      BackUpAt(d.files, Drop(d.backups, f, prior - files), f, files - prior, (owners[i], p));
    }
    UpdatedOwners(d, r, f, owners, p);
  }

  /** A feature called "base" owns the path, and the updated feature does not reach it: the one owner
      the overlay rule lets it cover all the same. */
  ghost predicate Obstructed(r: Recipe, d: Disk, f: Name, p: Path) {
    "base" in Owners(d.lock, p) - {f} && !Reaches(Dependencies(r), f, "base")
  }

  lemma OthersReached(r: Recipe, d: Disk, f: Name, p: Path, owner: Name)
    requires CanOverlay(r, f, Owners(d.lock, p) - {f}) && owner in Owners(d.lock, p) && owner != f
    ensures owner != "base" || !Obstructed(r, d, f, p) ==> Reaches(Dependencies(r), f, owner)
  {
  }

  /** What the checks of `update` have settled about an unobstructed path of the old or new payload:
      the feature reaches its other owners, so it is, or will be, on top of it. */
  lemma UpdateReaches(o: Origin, d: Disk, r: Recipe, f: Name, owners: seq<Name>, p: Path)
    requires PathSound(o, d, owners, p) && Dependencies(r) == o.graph && UpdateClear(d, r, f)
    requires p in d.lock.features[f].files || p in r.features[f].files
    ensures p !in o.app
    ensures forall i :: 0 <= i < |owners| && owners[i] != f && (owners[i] != "base" || !Obstructed(r, d, f, p)) ==>
                          Reaches(o.graph, f, owners[i])
  {
    UpdateClearAt(d, r, f, p);
    assert forall i :: 0 <= i < |owners| ==> owners[i] in Owners(d.lock, p);
    hide UpdateClear, UpdateConflict, PathSound, CanOverlay, Reaches, Owners, Obstructed;
    forall i | 0 <= i < |owners| && owners[i] != f && (owners[i] != "base" || !Obstructed(r, d, f, p))
      ensures Reaches(o.graph, f, owners[i])
    {
      OthersReached(r, d, f, p, owners[i]);
    }
  }

  lemma UpdateAllowed(o: Origin, h: History, d: Disk, r: Recipe, f: Name, p: Path)
    requires Stacked(o, h, d) && Dependencies(r) == o.graph && UpdateClear(d, r, f) && !Obstructed(r, d, f, p)
    requires p in d.lock.features[f].files || p in r.features[f].files
    ensures var owners := Stack(h, p);
            && p !in o.app
            && (forall i :: 0 <= i < |owners| && owners[i] != f ==> Reaches(o.graph, f, owners[i]))
            && (p in d.lock.features[f].files ==>
                  owners != [] && owners[|owners| - 1] == f && f !in owners[..|owners| - 1])
            && (p !in d.lock.features[f].files ==> f !in owners && (f, p) !in d.backups)
  {
    var owners := Stack(h, p);
    StackedAt(o, h, d, p);
    UpdateReaches(o, d, r, f, owners, p);
    if p in d.lock.features[f].files {
      var k :| 0 <= k < |owners| && owners[k] == f;
      NothingAbove(o, h, d, owners, p, k);
    }
  }

  lemma NothingAbove(o: Origin, h: History, d: Disk, owners: seq<Name>, p: Path, k: nat)
    requires Installed(o.graph, h, d.lock.features) && PathSound(o, d, owners, p) && k < |owners|
    requires forall i :: 0 <= i < |owners| && owners[i] != owners[k] ==> Reaches(o.graph, owners[k], owners[i])
    ensures k == |owners| - 1 && owners[k] !in owners[..k]
  {
    hide Layered, Reaches;
    forall i, j | 0 <= i < j < |owners| ensures h.rank[owners[i]] < h.rank[owners[j]] {
      OwnersDescend(o, d, owners, p, i, j);
      ReachesInstalled(o.graph, h, d.lock.features, owners[j], owners[i]);
    }
    if k < |owners| - 1 {
      ReachesInstalled(o.graph, h, d.lock.features, owners[k], owners[|owners| - 1]);
    }
  }

  lemma UpdateOwned(o: Origin, d: Disk, r: Recipe, f: Name, below: seq<Name>, p: Path)
    requires PathSound(o, d, below + [f], p) && f in r.features && f !in below
    requires f in d.lock.features && p in d.lock.features[f].files
    ensures PathSound(o, Updated(d, r, f), if p in r.features[f].files then below + [f] else below, p)
  {
    TopOf(d, below, f, p);
    UpdatedAt(d, r, f, below, p);
    UpdatedFilesAt(d, r, f, p);
    UpdatedKeeps(d, r, f, (f, p));
    if p in r.features[f].files {
      SwapTop(o, d, Updated(d, r, f), below, f, p);
    } else {
      PopPath(o, d, Updated(d, r, f), below, f, p);
    }
  }

  lemma UpdateUnowned(o: Origin, d: Disk, r: Recipe, f: Name, owners: seq<Name>, p: Path)
    requires PathSound(o, d, owners, p) && f in r.features && f !in owners
    requires f in d.lock.features && p !in d.lock.features[f].files
    requires p in r.features[f].files ==>
               p !in o.app && (f, p) !in d.backups && forall i :: 0 <= i < |owners| ==> Reaches(o.graph, f, owners[i])
    ensures PathSound(o, Updated(d, r, f), if p in r.features[f].files then owners + [f] else owners, p)
  {
    UpdatedAt(d, r, f, owners, p);
    UpdatedFilesAt(d, r, f, p);
    UpdatedKeeps(d, r, f, (f, p));
    if p in r.features[f].files {
      PushPath(o, d, Updated(d, r, f), owners, f, p);
    } else {
      LeavePath(o, d, Updated(d, r, f), owners, p);
    }
  }

  /** An unobstructed path: the feature is, or comes to be, on top of it. */
  lemma ClearPath(o: Origin, h: History, d: Disk, r: Recipe, f: Name, p: Path)
    requires Stacked(o, h, d) && Dependencies(r) == o.graph && UpdateClear(d, r, f)
    requires (p in d.lock.features[f].files || p in r.features[f].files) ==> !Obstructed(r, d, f, p)
    ensures PathSound(o, Updated(d, r, f), StackAfter(h, d, r, f, p), p)
  {
    var prior, owners := d.lock.features[f].files, Stack(h, p);
    StackedAt(o, h, d, p);
    if p in prior || p in r.features[f].files {
      UpdateAllowed(o, h, d, r, f, p);
    }
    if p in prior {
      SplitLast(owners, f);
      UpdateOwned(o, d, r, f, owners[..|owners| - 1], p);
    } else {
      UpdateUnowned(o, d, r, f, owners, p);
    }
  }

  // ----- update, under a feature called "base"

  /** On a sound column owners come in the order in which they were added, above what they reach. */
  lemma Ranked(o: Origin, h: History, d: Disk, e: Disk, owners: seq<Name>, p: Path)
    requires Installed(o.graph, h, d.lock.features) && e.lock.features.Keys == d.lock.features.Keys
    requires PathSound(o, e, owners, p)
    ensures forall i :: 0 <= i < |owners| ==> owners[i] in h.rank
    ensures forall i, j :: 0 <= i < j < |owners| ==>
              Reaches(o.graph, owners[j], owners[i]) && h.rank[owners[i]] < h.rank[owners[j]]
  {
    forall i, j | 0 <= i < j < |owners|
      ensures Reaches(o.graph, owners[j], owners[i])
      ensures owners[i] in h.rank && owners[j] in h.rank && h.rank[owners[i]] < h.rank[owners[j]]
    {
      OwnersDescend(o, e, owners, p, i, j);
      ReachesInstalled(o.graph, h, d.lock.features, owners[j], owners[i]);
    }
  }

  /** Where `f` reaches all owners but "base", that one is on top, and `f`, if it owns the path, right below it. */
  lemma BaseTops(o: Origin, h: History, d: Disk, e: Disk, owners: seq<Name>, f: Name, p: Path)
    requires Installed(o.graph, h, d.lock.features) && e.lock.features.Keys == d.lock.features.Keys
    requires PathSound(o, e, owners, p) && f in h.rank && f != "base" && !Reaches(o.graph, f, "base")
    requires "base" in owners && forall n :: n in owners && n != f && n != "base" ==> Reaches(o.graph, f, n)
    ensures owners[|owners| - 1] == "base" && "base" !in owners[..|owners| - 1]
    ensures f in owners ==>
              |owners| >= 2 && owners[|owners| - 2] == f && f !in owners[..|owners| - 2] && Reaches(o.graph, "base", f)
  {
    hide PathSound, Installed, Reaches;
    Ranked(o, h, d, e, owners, p);
    var last := |owners| - 1;
    var k :| 0 <= k < |owners| && owners[k] == "base";
    if k < last {
      assert owners[last] in owners;
      if owners[last] != f {
        ReachesTransitive(o.graph, f, owners[last], "base");
      }
      assert false;
    }
    if f in owners {
      var m :| 0 <= m < |owners| && owners[m] == f;
      if m < last - 1 {
        var x := owners[last - 1];
        assert x in owners && Reaches(o.graph, x, f) && h.rank[f] < h.rank[x] && h.rank[x] < h.rank["base"];
        NeverAbove(o, h, d, f, x);
      }
    }
  }

  lemma NeverAbove(o: Origin, h: History, d: Disk, f: Name, x: Name)
    requires Installed(o.graph, h, d.lock.features) && f in h.rank && Reaches(o.graph, f, x)
    ensures x in h.rank && h.rank[x] < h.rank[f]
  {
    ReachesInstalled(o.graph, h, d.lock.features, f, x);
  }

  /** The path keeps its contents, and what "base" saved of it is what it will cover. A caller can read
      all of this off the project before the update. */
  ghost predicate Undisturbed(r: Recipe, d: Disk, f: Name, p: Path)
    requires f in d.lock.features && f in r.features
    requires p in d.lock.features[f].files || p in r.features[f].files
  {
    var prior, after := d.lock.features[f].files, UpdateDesired(d.lock.features[f], r.features[f])[p];
    && Get(d.files, p) == after
    && if p in prior then after == Some(prior[p].installed)
       else Reaches(Dependencies(r), "base", f) && Get(d.backups, ("base", p)) == after
  }

  /** No path of the old or new payload is obstructed, save where the update disturbs nothing. */
  ghost predicate UpdateRespects(r: Recipe, d: Disk, f: Name)
    requires f in d.lock.features && f in r.features
  {
    forall p :: p in d.lock.features[f].files || p in r.features[f].files ==>
                  Obstructed(r, d, f, p) ==> Undisturbed(r, d, f, p)
  }

  /** The owners of a path after an update: `f` stays, leaves or comes, on top or right below "base". */
  ghost function StackAfter(h: History, d: Disk, r: Recipe, f: Name, p: Path): seq<Name>
    requires f in d.lock.features && f in r.features
  {
    var owners, owned, owns := Stack(h, p), p in d.lock.features[f].files, p in r.features[f].files;
    if owned == owns then owners
    else if Obstructed(r, d, f, p) && |owners| >= 2 && owned then owners[..|owners| - 2] + ["base"]
    else if Obstructed(r, d, f, p) && owners != [] && owns then owners[..|owners| - 1] + [f, "base"]
    else if owns then owners + [f]
    else if owners != [] then owners[..|owners| - 1]
    else []
  }

  ghost function Restacked(h: History, d: Disk, r: Recipe, f: Name): History
    requires f in d.lock.features && f in r.features
  {
    History(
      map p | p in h.stacks.Keys + d.lock.features[f].files.Keys + r.features[f].files.Keys ::
        StackAfter(h, d, r, f, p),
      h.rank, h.clock)
  }

  lemma RestackedAt(h: History, d: Disk, r: Recipe, f: Name, p: Path)
    requires f in d.lock.features && f in r.features
    ensures Stack(Restacked(h, d, r, f), p) == StackAfter(h, d, r, f, p)
  {
  }

  /** The owners of an obstructed path, taken apart. */
  lemma ObstructedReaches(o: Origin, d: Disk, r: Recipe, f: Name, owners: seq<Name>, p: Path)
    requires PathSound(o, d, owners, p) && Dependencies(r) == o.graph && UpdateClear(d, r, f)
    requires p in d.lock.features[f].files || p in r.features[f].files
    ensures p !in o.app && forall n :: n in owners && n != f && n != "base" ==> Reaches(o.graph, f, n)
  {
    hide PathSound, UpdateConflict, CanOverlay, Reaches, Obstructed;
    UpdateReaches(o, d, r, f, owners, p);
    forall n | n in owners && n != f && n != "base" ensures Reaches(o.graph, f, n) {
      var i :| 0 <= i < |owners| && owners[i] == n;
    }
  }

  lemma ObstructedStack(o: Origin, h: History, d: Disk, r: Recipe, f: Name, p: Path) returns (below: seq<Name>)
    requires Stacked(o, h, d) && Dependencies(r) == o.graph && UpdateClear(d, r, f) && Obstructed(r, d, f, p)
    requires p in d.lock.features[f].files || p in r.features[f].files
    ensures f !in below && "base" !in below && p !in o.app
    ensures Stack(h, p) == below + if p in d.lock.features[f].files then [f, "base"] else ["base"]
    ensures forall n :: n in below ==> Reaches(o.graph, f, n)
  {
    hide PathSound, Reaches, UpdateClear, Obstructed, Stacked, Installed, Owners, Stack;
    var owners := Stack(h, p);
    ClearInstalled(d, r, f);
    StackedAt(o, h, d, p);
    StackedIsInstalled(o, h, d);
    InstalledRanks(o, h, d, f);
    ObstructedReaches(o, d, r, f, owners, p);
    ObstructedBy(r, d, f, p);
    OwnersOfStack(o, d, owners, p);
    BaseTops(o, h, d, d, owners, f, p);
    below := UnderTops(owners, f, p in d.lock.features[f].files);
  }

  lemma ObstructedBy(r: Recipe, d: Disk, f: Name, p: Path)
    requires Obstructed(r, d, f, p) && f in d.lock.features
    ensures "base" in Owners(d.lock, p) && f != "base" && !Reaches(Dependencies(r), f, "base")
    ensures f in Owners(d.lock, p) <==> p in d.lock.features[f].files
  {
  }

  /** What lies under "base", or under it and `f`. */
  lemma UnderTops(owners: seq<Name>, f: Name, owned: bool) returns (below: seq<Name>)
    requires owners != [] && owners[|owners| - 1] == "base" && "base" !in owners[..|owners| - 1] && f != "base"
    requires if owned then |owners| >= 2 && owners[|owners| - 2] == f && f !in owners[..|owners| - 2] else f !in owners
    ensures owners == below + (if owned then [f, "base"] else ["base"]) && f !in below && "base" !in below
    ensures forall n :: n in below ==> n in owners
  {
    if owned {
      below := owners[..|owners| - 2];
      SplitTwo(owners, f, "base");
    } else {
      below := owners[..|owners| - 1];
      SplitLast(owners, "base");
    }
    assert forall n :: n in below ==> n in owners[..|owners| - 1] && n in owners;
  }

  lemma InstalledRanks(o: Origin, h: History, d: Disk, f: Name)
    requires Installed(o.graph, h, d.lock.features)
    ensures f in d.lock.features <==> f in h.rank
  {
  }

  lemma SplitTwo<T>(s: seq<T>, x: T, y: T)
    requires |s| >= 2 && s[|s| - 2] == x && s[|s| - 1] == y
    ensures s == s[..|s| - 2] + [x, y] && s[..|s| - 1] == s[..|s| - 2] + [x]
  {
  }

  lemma OwnersOfStack(o: Origin, d: Disk, owners: seq<Name>, p: Path)
    requires PathSound(o, d, owners, p)
    ensures forall n :: n in owners <==> n in Owners(d.lock, p)
  {
  }

  /** Two sound columns with the same owners but for `f` have the same owner on top of the rest. */
  lemma SameTop(h: History, below: seq<Name>, others: seq<Name>)
    requires forall n :: n in below <==> n in others
    requires forall i :: 0 <= i < |below| ==> below[i] in h.rank
    requires forall i :: 0 <= i < |others| ==> others[i] in h.rank
    requires forall i, j :: 0 <= i < j < |below| ==> h.rank[below[i]] < h.rank[below[j]]
    requires forall i, j :: 0 <= i < j < |others| ==> h.rank[others[i]] < h.rank[others[j]]
    ensures below == [] <==> others == []
    ensures below != [] ==> below[|below| - 1] == others[|others| - 1]
  {
    if below != [] {
      assert below[0] in others;
      var a, b := below[|below| - 1], others[|others| - 1];
      assert a in others && b in below;
      var i :| 0 <= i < |others| && others[i] == a;
      var j :| 0 <= j < |below| && below[j] == b;
    }
    if others != [] {
      assert others[0] in others;
    }
  }

  /** A sound column with "base" on top and perhaps `f` right below it, read layer by layer. */
  ghost predicate BelowBaseSound(o: Origin, d: Disk, below: seq<Name>, f: Name, owned: bool, p: Path) {
    && Owning(d.lock.features, below, p) && Owning(d.lock.features, ["base"], p)
    && Layered(o.graph, Get(o.base, p), Column(d, below, p))
    && var shown := Shown(Get(o.base, p), Column(d, below, p));
    && var top := LayerOf(d, ["base"][0], p);
    && (forall n :: n in below ==> Reaches(o.graph, "base", n))
    && Shows(o, d, p, Some(top.file.installed))
    && (if owned then
          && f in d.lock.features && p in d.lock.features[f].files && Reaches(o.graph, "base", f)
          && (forall n :: n in below ==> Reaches(o.graph, f, n))
          && Keeps(LayerOf(d, f, p), shown) && Keeps(top, Some(d.lock.features[f].files[p].installed))
        else Keeps(top, shown))
  }

  /** The top layer of a sound column, and the layers under it. */
  lemma TopLayer(g: Edges, bottom: Option<PayloadFile>, d: Disk, under: seq<Name>, top: Name, p: Path)
    requires Owning(d.lock.features, under + [top], p) && Layered(g, bottom, Column(d, under + [top], p))
    ensures Owning(d.lock.features, under, p) && Owning(d.lock.features, [top], p)
    ensures Layered(g, bottom, Column(d, under, p))
    ensures top in d.lock.features && p in d.lock.features[top].files
    ensures Keeps(LayerOf(d, top, p), Shown(bottom, Column(d, under, p)))
    ensures Shown(bottom, Column(d, under + [top], p)) == Some(d.lock.features[top].files[p].installed)
    ensures forall n :: n in under ==> Reaches(g, top, n)
  {
    hide Reaches;
    TopOf(d, under, top, p);
    PopLayer(g, bottom, Column(d, under, p), LayerOf(d, top, p));
    forall n | n in under ensures Reaches(g, top, n) {
      var i :| 0 <= i < |under| && under[i] == n;
      assert Column(d, under, p)[i].owner == n;
    }
  }

  lemma BelowBase(o: Origin, d: Disk, below: seq<Name>, f: Name, owned: bool, p: Path)
    requires PathSound(o, d, below + if owned then [f, "base"] else ["base"], p)
    ensures BelowBaseSound(o, d, below, f, owned, p)
    ensures OwnersListed(d, below + if owned then [f, "base"] else ["base"], p)
  {
    hide Reaches, Layered;
    var under := if owned then below + [f] else below;
    assert under + ["base"] == below + if owned then [f, "base"] else ["base"];
    TopLayer(o.graph, Get(o.base, p), d, under, "base", p);
    assert ["base"][0] == "base";
    if owned {
      TopLayer(o.graph, Get(o.base, p), d, below, f, p);
      assert under[|below|] == f && forall n :: n in below ==> n in under;
    }
  }

  lemma UpdatedBelow(d: Disk, r: Recipe, f: Name, below: seq<Name>, p: Path)
    requires f in d.lock.features && f in r.features && f !in below && f != "base"
    requires Owning(d.lock.features, below, p) && Owning(d.lock.features, ["base"], p)
    requires OwnersListed(d, below + if p in d.lock.features[f].files then [f, "base"] else ["base"], p)
    ensures SameLayers(d, Updated(d, r, f), below, p) && SameLayers(d, Updated(d, r, f), ["base"], p)
    ensures OwnersListed(Updated(d, r, f), below + if p in r.features[f].files then [f, "base"] else ["base"], p)
  {
    var owned := p in d.lock.features[f].files;
    var rest := below + ["base"];
    assert Owning(d.lock.features, rest, p);
    assert OwnersListed(d, if owned then rest + [f] else rest, p);
    UpdatedAt(d, r, f, rest, p);
    var e := Updated(d, r, f);
    assert rest[|below|] == "base" && forall i | 0 <= i < |below| :: rest[i] == below[i];
    assert SameLayers(d, e, below, p) && SameLayers(d, e, ["base"], p);
  }

  /** The layers put together again. */
  lemma BaseOnTop(o: Origin, e: Disk, below: seq<Name>, f: Name, owned: bool, p: Path)
    requires BelowBaseSound(o, e, below, f, owned, p) && p !in o.app
    requires OwnersListed(e, below + if owned then [f, "base"] else ["base"], p)
    ensures PathSound(o, e, below + if owned then [f, "base"] else ["base"], p)
  {
    hide Reaches, Layered, PathSound, Shows, OwnersListed;
    var under := if owned then below + [f] else below;
    assert under + ["base"] == below + if owned then [f, "base"] else ["base"];
    assert ["base"][0] == "base" && forall i :: 0 <= i < |below| ==> below[i] in below;
    if owned {
      OwningMore(e.lock.features, below, f, p);
      OnTopLayered(o, e, below, f, p);
    }
    assert forall i :: 0 <= i < |under| ==> under[i] == if i < |below| then below[i] else f;
    OnTop(o, e, under, "base", p);
  }

  /** What `f` holds of the path after the update keeps what shows below it, and "base" keeps what `f` installs. */
  lemma UndisturbedLayers(d: Disk, r: Recipe, f: Name, p: Path, shown: Option<PayloadFile>)
    requires f in d.lock.features && f in r.features && (p in d.lock.features[f].files || p in r.features[f].files)
    requires Undisturbed(r, d, f, p)
    requires p in d.lock.features[f].files ==> Keeps(LayerOf(d, f, p), shown)
    requires p !in d.lock.features[f].files ==> (f, p) !in d.backups && Get(d.backups, ("base", p)) == shown
    ensures var e := Updated(d, r, f);
            && f in e.lock.features && (p in e.lock.features[f].files <==> p in r.features[f].files)
            && Get(e.files, p) == Get(e.lock.managed, p) == Get(d.files, p)
            && (p in r.features[f].files ==>
                  && Keeps(LayerOf(e, f, p), shown)
                  && Some(e.lock.features[f].files[p].installed) ==
                     (if p in d.lock.features[f].files then Some(d.lock.features[f].files[p].installed) else shown))
            && (p !in r.features[f].files ==> Some(d.lock.features[f].files[p].installed) == shown)
  {
    hide Reaches, Updated;
    UpdatedFilesAt(d, r, f, p);
    UpdatedKeeps(d, r, f, (f, p));
  }

  /** Under "base" nothing moves but the layer of `f`: it stays, is taken out, or is put in. */
  lemma UpdatedUnderBase(o: Origin, d: Disk, r: Recipe, f: Name, below: seq<Name>, p: Path)
    requires f in d.lock.features && f in r.features && p !in o.app
    requires p in d.lock.features[f].files || p in r.features[f].files
    requires BelowBaseSound(o, d, below, f, p in d.lock.features[f].files, p)
    requires SameLayers(d, Updated(d, r, f), below, p) && SameLayers(d, Updated(d, r, f), ["base"], p)
    requires p !in d.lock.features[f].files ==>
               (f, p) !in d.backups && forall n :: n in below ==> Reaches(o.graph, f, n)
    requires Dependencies(r) == o.graph && Undisturbed(r, d, f, p)
    ensures BelowBaseSound(o, Updated(d, r, f), below, f, p in r.features[f].files, p)
  {
    hide Reaches, Updated, Layered;
    SameColumn(d, Updated(d, r, f), below, p);
    assert ["base"][0] == "base";
    assert LayerOf(Updated(d, r, f), ["base"][0], p) == LayerOf(d, ["base"][0], p);
    UndisturbedLayers(d, r, f, p, Shown(Get(o.base, p), Column(d, below, p)));
  }

  /** An obstructed path that is not disturbed. */
  lemma UnderBase(o: Origin, d: Disk, r: Recipe, f: Name, below: seq<Name>, p: Path)
    requires f in d.lock.features && f in r.features && f != "base" && f !in below && p !in o.app
    requires p in d.lock.features[f].files || p in r.features[f].files
    requires PathSound(o, d, below + if p in d.lock.features[f].files then [f, "base"] else ["base"], p)
    requires p !in d.lock.features[f].files ==>
               (f, p) !in d.backups && forall n :: n in below ==> Reaches(o.graph, f, n)
    requires Dependencies(r) == o.graph && Undisturbed(r, d, f, p)
    ensures PathSound(o, Updated(d, r, f), below + if p in r.features[f].files then [f, "base"] else ["base"], p)
  {
    hide Reaches, PathSound, Updated, Undisturbed, SameLayers, OwnersListed, BelowBaseSound, Owning;
    BelowBase(o, d, below, f, p in d.lock.features[f].files, p);
    SoundOwning(o, d, below, f, p in d.lock.features[f].files, p);
    UpdatedBelow(d, r, f, below, p);
    UpdatedUnderBase(o, d, r, f, below, p);
    BaseOnTop(o, Updated(d, r, f), below, f, p in r.features[f].files, p);
  }

  lemma SoundOwning(o: Origin, d: Disk, below: seq<Name>, f: Name, owned: bool, p: Path)
    requires BelowBaseSound(o, d, below, f, owned, p)
    ensures Owning(d.lock.features, below, p) && Owning(d.lock.features, ["base"], p)
  {
  }

  lemma UpdatePath(o: Origin, h: History, d: Disk, r: Recipe, f: Name, p: Path)
    requires Stacked(o, h, d) && Dependencies(r) == o.graph && UpdateClear(d, r, f) && UpdateRespects(r, d, f)
    ensures PathSound(o, Updated(d, r, f), StackAfter(h, d, r, f, p), p)
  {
    hide Stacked, PathSound, Reaches, UpdateConflict, CanOverlay, Updated, Undisturbed;
    if (p in d.lock.features[f].files || p in r.features[f].files) && Obstructed(r, d, f, p) {
      var below := ObstructedStack(o, h, d, r, f, p);
      StackedAt(o, h, d, p);
      NotYetBackedUp(o, h, d, f, p);
      UnderBase(o, d, r, f, below, p);
      assert Stack(h, p)[..|below|] == below;
    } else {
      ClearPath(o, h, d, r, f, p);
    }
  }

  lemma NotYetBackedUp(o: Origin, h: History, d: Disk, f: Name, p: Path)
    requires Stacked(o, h, d) && f in d.lock.features
    ensures p !in d.lock.features[f].files ==> (f, p) !in d.backups
  {
    StackedAt(o, h, d, p);
    OwnersOfStack(o, d, Stack(h, p), p);
  }

  /** Nobody but `f` leaves or comes. */
  lemma SameOthers(o: Origin, h: History, d: Disk, r: Recipe, f: Name, p: Path)
    requires Stacked(o, h, d) && f in d.lock.features && f in r.features
    requires PathSound(o, Updated(d, r, f), StackAfter(h, d, r, f, p), p)
    ensures p in r.features[f].files ==> f in StackAfter(h, d, r, f, p)
    ensures forall n :: n in Stack(h, p) && n != f ==> n in StackAfter(h, d, r, f, p)
  {
    StackedAt(o, h, d, p);
    OwnersOfStack(o, d, Stack(h, p), p);
    OwnersOfStack(o, Updated(d, r, f), StackAfter(h, d, r, f, p), p);
    OwnersUpdated(d, r, f, p);
  }

  lemma OwnersUpdated(d: Disk, r: Recipe, f: Name, p: Path)
    requires f in d.lock.features && f in r.features
    ensures forall n :: n in Owners(Updated(d, r, f).lock, p) <==>
                        if n == f then p in r.features[f].files else n in Owners(d.lock, p)
  {
    UpdatedFilesAt(d, r, f, p);
  }

  /** An accepted update that respects a feature called "base" leaves the stacks sound. */
  lemma UpdateKeepsStacks(o: Origin, h: History, d: Disk, r: Recipe, f: Name)
    requires Stacked(o, h, d) && Dependencies(r) == o.graph && UpdateClear(d, r, f) && UpdateRespects(r, d, f)
    ensures Stacked(o, Restacked(h, d, r, f), Updated(d, r, f))
  {
    var e, g := Updated(d, r, f), Restacked(h, d, r, f);
    assert o.graph[f] == r.features[f].dependencies;
    ReplaceOne(o.graph, h, d.lock.features, f, e.lock.features[f], g.stacks);
    forall p ensures PathSound(o, e, Stack(g, p), p) {
      UpdatePath(o, h, d, r, f, p);
      RestackedAt(h, d, r, f, p);
    }
    forall q: (Name, Path) | q in e.backups ensures q.0 in Stack(g, q.1) {
      UpdatePath(o, h, d, r, f, q.1);
      SameOthers(o, h, d, r, f, q.1);
      UpdateBackup(o, h, d, r, f, q);
      RestackedAt(h, d, r, f, q.1);
    }
  }

  /** What other owners keep of a path does not move. */
  lemma OthersKeep(d: Disk, r: Recipe, f: Name, n: Name, p: Path)
    requires f in d.lock.features && f in r.features && n != f
    ensures Held(Updated(d, r, f), n, p) == Held(d, n, p)
    ensures Get(Updated(d, r, f).backups, (n, p)) == Get(d.backups, (n, p))
  {
    var files, prior := r.features[f].files.Keys, d.lock.features[f].files.Keys;
    BackUpAt(d.files, Drop(d.backups, f, prior - files), f, files - prior, (n, p));
  }

  /** If some stacking is sound after the update, "base" is on top of an obstructed path as before. */
  lemma BaseStaysOnTop(o: Origin, h: History, g: History, d: Disk, r: Recipe, f: Name, p: Path)
    requires Stacked(o, h, d) && UpdateClear(d, r, f) && Dependencies(r) == o.graph && Stacked(o, g, Updated(d, r, f))
    requires Obstructed(r, d, f, p) && (p in d.lock.features[f].files || p in r.features[f].files)
    ensures var owners := Stack(g, p);
            && owners != [] && owners[|owners| - 1] == "base" && "base" !in owners[..|owners| - 1]
            && (p in r.features[f].files ==> |owners| >= 2 && owners[|owners| - 2] == f && Reaches(o.graph, "base", f))
            && PathSound(o, Updated(d, r, f), owners, p)
            && forall n :: n in owners <==> if n == f then p in r.features[f].files else n in Stack(h, p)
  {
    hide PathSound, Reaches, UpdateConflict, CanOverlay, Updated, Stacked;
    var e, owners := Updated(d, r, f), Stack(g, p);
    StackedAt(o, h, d, p);
    StackedAt(o, g, e, p);
    StackedIsInstalled(o, h, d);
    InstalledRanks(o, h, d, f);
    OwnersOfStack(o, d, Stack(h, p), p);
    OwnersOfStack(o, e, owners, p);
    OwnersUpdated(d, r, f, p);
    UpdateReaches(o, d, r, f, Stack(h, p), p);
    UpdatedFeatures(d, r, f);
    BaseTops(o, h, d, e, owners, f, p);
  }

  lemma UpdatedFeatures(d: Disk, r: Recipe, f: Name)
    requires f in d.lock.features && f in r.features
    ensures Updated(d, r, f).lock.features.Keys == d.lock.features.Keys
    ensures forall g :: g in d.lock.features && g != f ==> Updated(d, r, f).lock.features[g] == d.lock.features[g]
  {
  }

  lemma ClearInstalled(d: Disk, r: Recipe, f: Name)
    requires UpdateClear(d, r, f)
    ensures f in d.lock.features && f in r.features
  {
  }

  lemma ObstructedIsOther(r: Recipe, d: Disk, f: Name, p: Path)
    requires Obstructed(r, d, f, p)
    ensures f != "base"
  {
  }

  lemma UpdatedShows(d: Disk, r: Recipe, f: Name, p: Path)
    requires f in d.lock.features && f in r.features && (p in d.lock.features[f].files || p in r.features[f].files)
    ensures Get(Updated(d, r, f).files, p) == UpdateDesired(d.lock.features[f], r.features[f])[p]
  {
    UpdatedFilesAt(d, r, f, p);
  }

  lemma UpdatedHeld(d: Disk, r: Recipe, f: Name, p: Path)
    requires f in d.lock.features && f in r.features && p in r.features[f].files
    ensures Held(Updated(d, r, f), f, p).Some? && Held(Updated(d, r, f), f, p).value.installed == r.features[f].files[p]
  {
    UpdatedFilesAt(d, r, f, p);
  }

  /** Then nothing shows differently. */
  lemma NothingShows(o: Origin, h: History, g: History, d: Disk, r: Recipe, f: Name, p: Path)
    requires Stacked(o, h, d) && UpdateClear(d, r, f) && Dependencies(r) == o.graph && Stacked(o, g, Updated(d, r, f))
    requires Obstructed(r, d, f, p) && (p in d.lock.features[f].files || p in r.features[f].files)
    ensures Get(d.files, p) == UpdateDesired(d.lock.features[f], r.features[f])[p]
  {
    hide Stacked, UpdateClear, Obstructed, PathSound, Reaches, Updated, Held;
    ClearInstalled(d, r, f);
    var below := ObstructedStack(o, h, d, r, f, p);
    BaseStaysOnTop(o, h, g, d, r, f, p);
    StackedAt(o, h, d, p);
    TopShowing(o, d, Stack(h, p), "base", p);
    TopShowing(o, Updated(d, r, f), Stack(g, p), "base", p);
    OthersKeep(d, r, f, "base", p);
    UpdatedShows(d, r, f, p);
  }

  /** Where the updated feature owns the path, "base" has saved what it installs. */
  lemma BaseKeepsOwned(o: Origin, h: History, g: History, d: Disk, r: Recipe, f: Name, p: Path)
    requires Stacked(o, h, d) && UpdateClear(d, r, f) && Dependencies(r) == o.graph && Stacked(o, g, Updated(d, r, f))
    requires Obstructed(r, d, f, p) && p in r.features[f].files
    ensures Get(d.backups, ("base", p)) == Some(r.features[f].files[p]) && Reaches(o.graph, "base", f)
  {
    hide Stacked, UpdateClear, Obstructed, PathSound, Reaches, Updated, Held;
    ClearInstalled(d, r, f);
    BaseStaysOnTop(o, h, g, d, r, f, p);
    var others := Stack(g, p);
    SplitTwo(others, f, "base");
    SplitLast(others, "base");
    assert others[..|others| - 1] + ["base"] + [] == others;
    BackupOver(o, Updated(d, r, f), others[..|others| - 1], "base", [], p);
    OthersKeep(d, r, f, "base", p);
    UpdatedHeld(d, r, f, p);
  }

  /** Where it gives the path up, "base" has saved what it covered. */
  lemma BaseKeepsDropped(o: Origin, h: History, g: History, d: Disk, r: Recipe, f: Name, p: Path)
    requires Stacked(o, h, d) && UpdateClear(d, r, f) && Dependencies(r) == o.graph && Stacked(o, g, Updated(d, r, f))
    requires Obstructed(r, d, f, p) && p in d.lock.features[f].files && p !in r.features[f].files
    ensures Get(d.backups, ("base", p)) == Restored(d.lock.features[f].files[p])
  {
    hide Stacked, UpdateClear, Obstructed, PathSound, Reaches, Updated, Held, Installed;
    ClearInstalled(d, r, f);
    var e, others := Updated(d, r, f), Stack(g, p);
    var below := ObstructedStack(o, h, d, r, f, p);
    BaseStaysOnTop(o, h, g, d, r, f, p);
    StackedAt(o, h, d, p);
    StackedIsInstalled(o, h, d);
    UpdatedFeatures(d, r, f);
    SplitLast(others, "base");
    ObstructedIsOther(r, d, f, p);
    ListedBelow(below, others, Stack(h, p), f);
    forall n | n != f ensures Held(e, n, p) == Held(d, n, p) && Get(e.backups, (n, p)) == Get(d.backups, (n, p)) {
      OthersKeep(d, r, f, n, p);
    }
    DroppedIsKept(o, h, d, e, below, others[..|others| - 1], f, p);
    RestoredIsKept(o, h, d, f, p);
  }

  lemma ListedBelow(below: seq<Name>, others: seq<Name>, owners: seq<Name>, f: Name)
    requires others != [] && others[|others| - 1] == "base" && "base" !in others[..|others| - 1]
    requires owners == below + [f, "base"] && f !in below && "base" !in below && f != "base"
    requires forall n :: n in others <==> n != f && n in owners
    ensures forall n :: n in below <==> n in others[..|others| - 1]
  {
    var rest := others[..|others| - 1];
    assert others == rest + ["base"];
    forall n ensures n in below <==> n in rest {
      assert n in others <==> n in rest || n == "base";
      assert n in owners <==> n in below || n == f || n == "base";
    }
  }

  /** If the column is sound with `f` and without it, "base" has saved what `f` has saved. */
  lemma DroppedIsKept(
      o: Origin, h: History, d: Disk, e: Disk, below: seq<Name>, rest: seq<Name>, f: Name, p: Path)
    requires Installed(o.graph, h, d.lock.features) && e.lock.features.Keys == d.lock.features.Keys
    requires PathSound(o, d, below + [f, "base"], p) && PathSound(o, e, rest + ["base"], p)
    requires f != "base" && f !in below && forall n :: n in below <==> n in rest
    requires forall n :: n != f ==> Held(e, n, p) == Held(d, n, p) && Get(e.backups, (n, p)) == Get(d.backups, (n, p))
    ensures Get(d.backups, ("base", p)) == Get(d.backups, (f, p))
  {
    hide PathSound, Installed, Held, Reaches;
    RestIsBelow(o, h, d, e, below, rest, f, p);
    assert below + [f] + ["base"] == below + [f, "base"] && rest + ["base"] + [] == rest + ["base"];
    BackupOver(o, d, below, f, ["base"], p);
    BackupOver(o, e, rest, "base", [], p);
    assert below != [] ==> below[|below| - 1] in below;
  }

  /** An owner has saved what the owners under it show. */
  lemma BackupOver(o: Origin, d: Disk, under: seq<Name>, n: Name, above: seq<Name>, p: Path)
    requires PathSound(o, d, under + [n] + above, p)
    ensures under != [] ==> Held(d, under[|under| - 1], p).Some?
    ensures Get(d.backups, (n, p)) ==
            if under == [] then Get(o.base, p) else Some(Held(d, under[|under| - 1], p).value.installed)
  {
    hide PathSound, Held;
    var owners := under + [n] + above;
    KeptIsBelow(o, d, owners, p, |under|);
    assert owners[|under|] == n && (under != [] ==> owners[|under| - 1] == under[|under| - 1]);
  }

  /** The owner on top of a sound column shows, and the lock manages it. */
  lemma TopShowing(o: Origin, d: Disk, owners: seq<Name>, n: Name, p: Path)
    requires PathSound(o, d, owners, p) && owners != [] && owners[|owners| - 1] == n
    ensures Held(d, n, p).Some? && Get(d.files, p) == Some(Held(d, n, p).value.installed)
  {
    TopShows(o, d, owners, p);
  }

  lemma StackedIsInstalled(o: Origin, h: History, d: Disk)
    requires Stacked(o, h, d)
    ensures Installed(o.graph, h, d.lock.features)
  {
  }

  /** Before and after, the same owner is on top of those that "base" and `f` lie above. */
  lemma RestIsBelow(
      o: Origin, h: History, d: Disk, e: Disk, below: seq<Name>, rest: seq<Name>, f: Name, p: Path)
    requires Installed(o.graph, h, d.lock.features) && e.lock.features.Keys == d.lock.features.Keys
    requires PathSound(o, d, below + [f, "base"], p) && PathSound(o, e, rest + ["base"], p)
    requires forall n :: n in below <==> n in rest
    ensures below == [] <==> rest == []
    ensures below != [] ==> below[|below| - 1] == rest[|rest| - 1]
  {
    Ranked(o, h, d, d, below + [f, "base"], p);
    Ranked(o, h, d, e, rest + ["base"], p);
    hide PathSound, Installed, Reaches;
    assert forall i :: 0 <= i < |below| ==> below[i] == (below + [f, "base"])[i];
    assert forall i :: 0 <= i < |rest| ==> rest[i] == (rest + ["base"])[i];
    SameTop(h, below, rest);
  }

  /** Giving a path up restores what the backup holds. */
  lemma RestoredIsKept(o: Origin, h: History, d: Disk, f: Name, p: Path)
    requires Stacked(o, h, d) && f in d.lock.features && p in d.lock.features[f].files
    ensures Restored(d.lock.features[f].files[p]) == Get(d.backups, (f, p))
  {
    var owners := Stack(h, p);
    StackedAt(o, h, d, p);
    OwnersOfStack(o, d, owners, p);
    assert f in owners;
    var i :| 0 <= i < |owners| && owners[i] == f;
    assert Keeps(Column(d, owners, p)[i], Shown(Get(o.base, p), Column(d, owners, p)[..i]));
  }

  /** What "base" has saved of a path that the updated feature owns is what that one installed. */
  lemma BaseKeepsInstalled(o: Origin, h: History, d: Disk, r: Recipe, f: Name, p: Path)
    requires Stacked(o, h, d) && Dependencies(r) == o.graph && UpdateClear(d, r, f)
    requires Obstructed(r, d, f, p) && p in d.lock.features[f].files
    ensures Get(d.backups, ("base", p)) == Some(d.lock.features[f].files[p].installed)
  {
    var below := ObstructedStack(o, h, d, r, f, p);
    StackedAt(o, h, d, p);
    KeptIsBelow(o, d, Stack(h, p), p, |below| + 1);
  }

  /** An accepted update keeps some stacking exactly if it respects an installed feature called "base". */
  lemma UpdateKeepsStacksIff(o: Origin, h: History, d: Disk, r: Recipe, f: Name)
    requires Stacked(o, h, d) && Dependencies(r) == o.graph && UpdateVerdict(d, r, f).Proceed?
    ensures (exists g :: Stacked(o, g, Updated(d, r, f))) <==> UpdateRespects(r, d, f)
  {
    hide Stacked, UpdateClear, UpdateVerdict, Updated, Obstructed;
    UpdateIsClear(d, r, f);
    ClearInstalled(d, r, f);
    if UpdateRespects(r, d, f) {
      UpdateKeepsStacks(o, h, d, r, f);
    }
    if g :| Stacked(o, g, Updated(d, r, f)) {
      forall p | (p in d.lock.features[f].files || p in r.features[f].files) && Obstructed(r, d, f, p)
        ensures Undisturbed(r, d, f, p)
      {
        NothingShows(o, h, g, d, r, f, p);
        if p in r.features[f].files {
          BaseKeepsOwned(o, h, g, d, r, f, p);
        } else {
          BaseKeepsDropped(o, h, g, d, r, f, p);
        }
        if p in d.lock.features[f].files {
          BaseKeepsInstalled(o, h, d, r, f, p);
        }
      }
    }
  }

  lemma ReplaceOne(g: Edges, h: History, features: map<Name, LockedFeature>, f: Name, locked: LockedFeature,
      stacks: map<Path, seq<Name>>)
    requires Installed(g, h, features) && f in features && locked.dependencies == g[f]
    ensures Installed(g, History(stacks, h.rank, h.clock), features[f := locked])
  {
  }

  lemma UpdateBackup(o: Origin, h: History, d: Disk, r: Recipe, f: Name, q: (Name, Path))
    requires Stacked(o, h, d) && f in d.lock.features && f in r.features && q in Updated(d, r, f).backups
    ensures if q.0 == f then q.1 in r.features[f].files else q.0 in Stack(h, q.1)
  {
    var feature, prior := r.features[f], d.lock.features[f];
    StackedAt(o, h, d, q.1);
    BackUpAt(d.files, Drop(d.backups, f, prior.files.Keys - feature.files.Keys), f,
      feature.files.Keys - prior.files.Keys, q);
  }

  // ----- what the discipline gives

  /** With features installed there is always one that may be removed. */
  lemma SomeFeatureIsRemovable(o: Origin, h: History, d: Disk) returns (f: Name)
    requires Stacked(o, h, d) && d.lock.features != map[]
    ensures f in d.lock.features && RemoveVerdict(d, f).Proceed?
  {
    f := Latest(h, h.rank.Keys);
    forall n | n in Dependents(d.lock, f) ensures false {
      assert Edge(o.graph, n, f);
    }
    forall p | p in d.lock.features[f].files ensures !RemoveConflict(d, f, p) {
      StackedAt(o, h, d, p);
      FreeIsOnTop(o, h, d, f, p);
      assert Column(d, Stack(h, p), p)[|Stack(h, p)| - 1] == LayerOf(d, f, p);
    }
    RemoveIsClear(d, f);
  }

  lemma Latest(h: History, names: set<Name>) returns (f: Name)
    requires names != {} && names <= h.rank.Keys
    ensures f in names && forall n :: n in names ==> h.rank[n] <= h.rank[f]
    decreases names
  {
    f :| f in names;
    if names != {f} {
      var g := Latest(h, names - {f});
      f := if h.rank[g] > h.rank[f] then g else f;
    }
  }

  /** With no feature left, the project is the base again, down to the last file. */
  lemma NoFeaturesIsBase(o: Origin, h: History, d: Disk)
    requires Stacked(o, h, d) && d.lock.features == map[]
    ensures d.files == o.base && d.lock.managed == o.base - o.app && d.backups == map[]
  {
    forall p ensures Get(d.files, p) == Get(o.base, p) && Get(d.lock.managed, p) == Get(o.base - o.app, p)
      && Stack(h, p) == [] {
      StackedAt(o, h, d, p);
      assert forall f :: f in Stack(h, p) ==> f in d.lock.features;
    }
    SameMap(d.files, o.base);
    SameMap(d.lock.managed, o.base - o.app);
    assert forall q: (Name, Path) | q in d.backups :: q.0 in Stack(h, q.1);
  }

  /** The file of an owner, as the lock has it. */
  ghost function Held(d: Disk, f: Name, p: Path): Option<LockedFile> {
    if f in d.lock.features then Get(d.lock.features[f].files, p) else None
  }

  lemma TopShows(o: Origin, d: Disk, owners: seq<Name>, p: Path)
    requires PathSound(o, d, owners, p) && owners != []
    ensures var held := Held(d, owners[|owners| - 1], p);
            held.Some? && Get(d.files, p) == Get(d.lock.managed, p) == Some(held.value.installed)
  {
  }

  lemma KeptIsBelow(o: Origin, d: Disk, owners: seq<Name>, p: Path, i: nat)
    requires PathSound(o, d, owners, p) && i < |owners|
    ensures Held(d, owners[i], p).Some? && (i > 0 ==> Held(d, owners[i - 1], p).Some?)
    ensures Get(d.backups, (owners[i], p)) ==
            if i == 0 then Get(o.base, p) else Some(Held(d, owners[i - 1], p).value.installed)
  {
    hide Reaches;
    var layers := Column(d, owners, p);
    assert Keeps(layers[i], Shown(Get(o.base, p), layers[..i]));
    assert i > 0 ==> layers[..i][i - 1] == layers[i - 1];
  }

  lemma OwnersDescend(o: Origin, d: Disk, owners: seq<Name>, p: Path, i: nat, j: nat)
    requires PathSound(o, d, owners, p) && i < j < |owners|
    ensures Reaches(o.graph, owners[j], owners[i])
  {
    hide Reaches;
    var layers := Column(d, owners, p);
    assert Reaches(o.graph, layers[j].owner, layers[i].owner);
  }

  /** What the top owner installed is what the lock manages and what is on disk, and
      each owner's saved file is what the owner below it installed, the base at the bottom. */
  lemma StackInWords(o: Origin, h: History, d: Disk, p: Path, i: nat)
    requires Stacked(o, h, d) && i < |Stack(h, p)|
    ensures var owners := Stack(h, p); var held := Held(d, owners[i], p);
            && held.Some?
            && (i == |owners| - 1 ==> Get(d.files, p) == Get(d.lock.managed, p) == Some(held.value.installed))
            && (i == 0 ==> Get(d.backups, (owners[i], p)) == Get(o.base, p))
            && (i > 0 ==> Held(d, owners[i - 1], p).Some? && Reaches(o.graph, owners[i], owners[i - 1])
                          && Get(d.backups, (owners[i], p)) == Some(Held(d, owners[i - 1], p).value.installed))
  {
    StackedAt(o, h, d, p);
    hide Stacked, Installed, PathSound, Held, Reaches;
    var owners := Stack(h, p);
    KeptIsBelow(o, d, owners, p, i);
    TopShows(o, d, owners, p);
    if i > 0 {
      OwnersDescend(o, d, owners, p, i - 1, i);
    }
  }

  /** An accepted add keeps some stacking exactly when it respects an installed
      feature called "base", which the overlay rule lets anyone cover. */
  lemma AddKeepsStacksIff(o: Origin, h: History, d: Disk, r: Recipe, f: Name)
    requires Stacked(o, h, d) && Dependencies(r) == o.graph && AddVerdict(d, r, f).Proceed?
    ensures (exists g :: Stacked(o, g, Added(d, r, f))) <==> BaseRespected(r, d.lock, f, r.features[f].files.Keys)
  {
    AddIsClear(d, r, f);
    if BaseRespected(r, d.lock, f, r.features[f].files.Keys) {
      AddKeepsStacks(o, h, d, r, f);
    } else {
      forall g ensures !Stacked(o, g, Added(d, r, f)) {
        if Stacked(o, g, Added(d, r, f)) {
          StackedRespectsBase(o, h, g, d, r, f);
        }
      }
    }
  }

  lemma StackedRespectsBase(o: Origin, h: History, g: History, d: Disk, r: Recipe, f: Name)
    requires Installed(o.graph, h, d.lock.features) && Dependencies(r) == o.graph && f in r.features
             && f !in d.lock.features
    requires Stacked(o, g, Added(d, r, f))
    ensures BaseRespected(r, d.lock, f, r.features[f].files.Keys)
  {
    forall p | p in r.features[f].files && "base" in Owners(d.lock, p) - {f} ensures Reaches(o.graph, f, "base") {
      StackedAt(o, g, Added(d, r, f), p);
      AddedOwns(d, r, f, "base", p);
      CoverersReach(o, h, d, Added(d, r, f), Stack(g, p), f, "base", p);
    }
  }

  lemma AddedOwns(d: Disk, r: Recipe, f: Name, owner: Name, p: Path)
    requires f in r.features && p in r.features[f].files && owner in Owners(d.lock, p) - {f}
    ensures Owners(Added(d, r, f).lock, p) >= {f, owner}
  {
  }

  /** On one sound column a new feature can only lie above an installed one. */
  lemma CoverersReach(o: Origin, h: History, d: Disk, e: Disk, owners: seq<Name>, f: Name, installed: Name, p: Path)
    requires Installed(o.graph, h, d.lock.features) && f !in d.lock.features && installed in d.lock.features
    requires PathSound(o, e, owners, p) && Owners(e.lock, p) >= {f, installed}
    ensures Reaches(o.graph, f, installed)
  {
    hide Reaches, Installed, Shown;
    assert f in Owners(e.lock, p) && installed in Owners(e.lock, p);
    var i :| 0 <= i < |owners| && owners[i] == f;
    var j :| 0 <= j < |owners| && owners[j] == installed;
    var layers := Column(e, owners, p);
    assert layers[i].owner == f && layers[j].owner == installed;
    if i < j && Reaches(o.graph, installed, f) {
      ReachesInstalled(o.graph, h, d.lock.features, installed, f);
    }
  }
}
