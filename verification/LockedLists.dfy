/** The stacks where recipes change: what counts for an installed feature is the dependency list in the lock,
    whatever later versions of the recipe list. */
module LockedLists {
  import opened Wrappers
  import opened Names
  import opened Reachability
  import opened Composition
  import opened Overlay

  /** The dependency lists of the installed features, as they were when each was added or last updated. */
  function Listed(lock: Lock): Edges {
    map n | n in lock.features :: lock.features[n].dependencies
  }

  function ByLock(o: Origin, d: Disk): Origin {
    o.(graph := Listed(d.lock))
  }

  /** The lists once `f` is added or updated. */
  function Relisted(d: Disk, r: Recipe, f: Name): Edges
    requires f in r.features
  {
    Listed(d.lock)[f := r.features[f].dependencies]
  }

  /** The recipe for `f` alone, with everything else as the lock lists it. */
  function Local(d: Disk, r: Recipe, f: Name): Recipe
    requires f in r.features
  {
    r.(features := map n | n in d.lock.features.Keys + {f} ::
      if n == f then r.features[f] else FeatureRecipe("", d.lock.features[n].dependencies, [], map[], {}))
  }

  lemma LocalLists(d: Disk, r: Recipe, f: Name)
    requires f in r.features
    ensures f in Local(d, r, f).features && Local(d, r, f).features[f] == r.features[f]
    ensures Dependencies(Local(d, r, f)) == Relisted(d, r, f) && Local(d, r, f).identity == r.identity
  {
  }

  /** By the locked lists `f` reaches every owner of what it is to cover. */
  ghost predicate CoversByLock(d: Disk, r: Recipe, f: Name)
    requires f in r.features
  {
    forall p, n :: p in r.features[f].files && n in Owners(d.lock, p) && n != f ==> Reaches(Relisted(d, r, f), f, n)
  }

  /** The locked lists, too, would let `f` lie over the owners of each path of its old or new payload, and of these
      it loses none called "base". */
  ghost predicate DecidesByLock(d: Disk, r: Recipe, f: Name)
    requires f in r.features && f in d.lock.features
  {
    forall p :: p in d.lock.features[f].files || p in r.features[f].files ==>
                  && CanOverlay(Local(d, r, f), f, Owners(d.lock, p) - {f})
                  && ("base" in Owners(d.lock, p) && Reaches(Listed(d.lock), f, "base") ==>
                        Reaches(Relisted(d, r, f), f, "base"))
  }

  /** With the new list of `f` there is still no cycle, and of two owners of a path one still reaches the other. */
  ghost predicate StillRelated(d: Disk, r: Recipe, f: Name)
    requires f in r.features
  {
    && !Reaches(Relisted(d, r, f), f, f)
    && forall p, a, b :: a in Owners(d.lock, p) && b in Owners(d.lock, p) && a != b ==>
                           Reaches(Relisted(d, r, f), a, b) || Reaches(Relisted(d, r, f), b, a)
  }

  /** An update is decided as the locked lists would decide it. */
  ghost predicate RespectsLists(d: Disk, operation: Operation, r: Recipe, f: Name) {
    operation == Update && PerformVerdict(d, operation, r, f).Proceed? ==> DecidesByLock(d, r, f)
  }

  // ----- two graphs that agree on the installed features

  /** On a closed set the same lists give the same paths. */
  lemma SameListsReach(g: Edges, h: Edges, s: set<Name>, a: Name, b: Name)
    requires Closed(g, s) && a in s && Reaches(g, a, b)
    requires forall n :: n in s && n in g ==> n in h && h[n] == g[n]
    ensures Reaches(h, a, b)
  {
    var w :| IsWalk(g, w) && 2 <= |w| && w[0] == a && w[|w| - 1] == b;
    var i := 0;
    while i < |w| - 1
      invariant 0 <= i < |w| && w[i] in s && forall j :: 0 <= j < i ==> Edge(h, w[j], w[j + 1])
    {
      assert Edge(g, w[i], w[i + 1]);
      i := i + 1;
    }
    assert IsWalk(h, w);
  }

  lemma InstalledIsClosed(g: Edges, h: History, features: map<Name, LockedFeature>)
    requires Installed(g, h, features)
    ensures Closed(g, features.Keys)
  {
  }

  /** Two owners of a path, one of which reaches the other, and still does. */
  ghost predicate OrderStays(lock: Lock, from: Edges, to: Edges) {
    forall p, a, b :: a in Owners(lock, p) && b in Owners(lock, p) && Reaches(from, a, b) ==> Reaches(to, a, b)
  }

  /** The same files and layers, seen over another graph in which the owners still reach each other. */
  lemma Regraph(o: Origin, graph: Edges, h: History, g: History, d: Disk, e: Disk)
    requires Stacked(o, h, d) && g.stacks == h.stacks && Installed(graph, g, e.lock.features)
    requires e == d.(lock := d.lock.(features := e.lock.features)) && e.lock.features.Keys == d.lock.features.Keys
    requires forall n :: n in d.lock.features ==> e.lock.features[n].files == d.lock.features[n].files
    requires OrderStays(d.lock, o.graph, graph)
    ensures Stacked(o.(graph := graph), g, e)
  {
    hide Reaches, Installed, OrderStays;
    forall p ensures Stack(g, p) == Stack(h, p) && PathSound(o.(graph := graph), e, Stack(h, p), p) {
      StackedAt(o, h, d, p);
      RegraphPath(o, graph, d, e, Stack(h, p), p);
    }
  }

  lemma RegraphLayers(from: Edges, to: Edges, bottom: Option<PayloadFile>, layers: seq<Layer>)
    requires Layered(from, bottom, layers)
    requires forall i, j :: 0 <= i < j < |layers| && Reaches(from, layers[j].owner, layers[i].owner) ==>
                              Reaches(to, layers[j].owner, layers[i].owner)
    ensures Layered(to, bottom, layers)
  {
    hide Reaches, Keeps, Shown;
    forall i, j | 0 <= i < j < |layers| ensures Reaches(to, layers[j].owner, layers[i].owner) {
      assert Reaches(from, layers[j].owner, layers[i].owner);
    }
  }

  lemma RegraphPath(o: Origin, graph: Edges, d: Disk, e: Disk, owners: seq<Name>, p: Path)
    requires PathSound(o, d, owners, p)
    requires e == d.(lock := d.lock.(features := e.lock.features)) && e.lock.features.Keys == d.lock.features.Keys
    requires forall n :: n in d.lock.features ==> e.lock.features[n].files == d.lock.features[n].files
    requires OrderStays(d.lock, o.graph, graph)
    ensures PathSound(o.(graph := graph), e, owners, p)
  {
    hide Reaches, Layered;
    SameColumn(d, e, owners, p);
    var layers := Column(d, owners, p);
    forall i | 0 <= i < |layers| ensures layers[i].owner in Owners(d.lock, p) {
      assert layers[i].owner == owners[i];
    }
    RegraphLayers(o.graph, graph, Get(o.base, p), layers);
  }

  /** Of two owners of a path, one reaches the other. */
  lemma StackedOwnersReach(o: Origin, h: History, d: Disk, f: Name, g: Name, p: Path)
    requires Stacked(o, h, d) && f != g && f in Owners(d.lock, p) && g in Owners(d.lock, p)
    ensures Reaches(o.graph, f, g) || Reaches(o.graph, g, f)
  {
    hide Stacked, Reaches, Layered;
    var owners := Stack(h, p);
    StackedAt(o, h, d, p);
    var i: nat :| i < |owners| && owners[i] == f;
    var j: nat :| j < |owners| && owners[j] == g;
    if i < j {
      OwnersDescend(o, d, owners, p, i, j);
    } else {
      OwnersDescend(o, d, owners, p, j, i);
    }
  }

  // ----- add

  lemma AddReaches(h: History, d: Disk, r: Recipe, f: Name)
    requires Installed(Listed(d.lock), h, d.lock.features) && f in r.features && f !in d.lock.features
    ensures Installed(Relisted(d, r, f), h, d.lock.features)
    ensures OrderStays(d.lock, Listed(d.lock), Relisted(d, r, f))
  {
    hide Reaches, Installed;
    var g, all := Relisted(d, r, f), d.lock.features.Keys;
    InstalledIsClosed(Listed(d.lock), h, d.lock.features);
    FewerInstalled(Listed(d.lock), g, h, d.lock.features);
    forall p, a, b | a in Owners(d.lock, p) && b in Owners(d.lock, p) && Reaches(Listed(d.lock), a, b)
      ensures Reaches(g, a, b)
    {
      SameListsReach(Listed(d.lock), g, all, a, b);
    }
  }

  lemma AddRegraphs(o: Origin, h: History, d: Disk, r: Recipe, f: Name)
    requires Stacked(ByLock(o, d), h, d) && f in r.features && f !in d.lock.features
    ensures Stacked(o.(graph := Relisted(d, r, f)), h, d)
  {
    hide Stacked, Reaches, Installed, Relisted, Listed, OrderStays;
    StackedIsInstalled(ByLock(o, d), h, d);
    AddReaches(h, d, r, f);
    Regraph(ByLock(o, d), Relisted(d, r, f), h, h, d, d);
  }

  lemma LocalDependencies(d: Disk, r: Recipe, f: Name, installed: set<Name>)
    requires f in r.features && installed <= d.lock.features.Keys
    requires DependencyVerdict(installed, r, r.features[f]).Proceed?
    ensures DependencyVerdict(installed, Local(d, r, f), r.features[f]).Proceed?
  {
  }

  lemma AddProceedsLocally(d: Disk, r: Recipe, f: Name)
    requires AddVerdict(d, r, f).Proceed? && CoversByLock(d, r, f)
    ensures AddVerdict(d, Local(d, r, f), f).Proceed?
    ensures BaseRespected(Local(d, r, f), d.lock, f, r.features[f].files.Keys)
  {
    hide DependencyVerdict, Reaches;
    AddIsClear(d, r, f);
    LocalLists(d, r, f);
    LocalDependencies(d, r, f, d.lock.features.Keys);
    var local := Local(d, r, f);
    forall p | p in r.features[f].files ensures !AddConflict(d, local, f, p) {
      assert !AddConflict(d, r, f, p);
    }
    assert (set p | p in local.features[f].files && AddConflict(d, local, f, p)) == {};
  }

  /** Nothing reaches the new feature. */
  lemma NewIsUnreached(d: Disk, r: Recipe, f: Name, n: Name)
    requires AddClear(d, r, f) && Closed(Listed(d.lock), d.lock.features.Keys) && n in d.lock.features
    ensures !Reaches(Relisted(d, r, f), n, f)
  {
    var g, all := Relisted(d, r, f), d.lock.features.Keys;
    if Reaches(g, n, f) {
      forall x, y | x in all && Edge(g, x, y) ensures y in all {
        assert Edge(Listed(d.lock), x, y);
      }
      StaysInside(g, all, n, f);
    }
  }

  lemma AddedCovers(o: Origin, h: History, g: History, d: Disk, r: Recipe, f: Name)
    requires Stacked(ByLock(o, d), h, d) && AddClear(d, r, f) && Stacked(ByLock(o, Added(d, r, f)), g, Added(d, r, f))
    ensures CoversByLock(d, r, f)
  {
    hide Stacked, Added, Reaches, Installed;
    var e := Added(d, r, f);
    AddedLists(o, d, r, f);
    StackedIsInstalled(ByLock(o, d), h, d);
    InstalledIsClosed(Listed(d.lock), h, d.lock.features);
    forall p, n | p in r.features[f].files && n in Owners(d.lock, p) && n != f
      ensures Reaches(Relisted(d, r, f), f, n)
    {
      AddedOwners(d, r, f, n, p);
      StackedOwnersReach(ByLock(o, e), g, e, f, n, p);
      NewIsUnreached(d, r, f, n);
    }
  }

  lemma AddedOwners(d: Disk, r: Recipe, f: Name, n: Name, p: Path)
    requires f in r.features && p in r.features[f].files && n in Owners(d.lock, p) && n != f
    ensures n in Owners(Added(d, r, f).lock, p) && f in Owners(Added(d, r, f).lock, p)
  {
    hide Patch, BackUp;
  }

  lemma AddedLists(o: Origin, d: Disk, r: Recipe, f: Name)
    requires f in r.features
    ensures ByLock(o, Added(d, r, f)) == o.(graph := Relisted(d, r, f))
    ensures f in Local(d, r, f).features && Added(d, Local(d, r, f), f) == Added(d, r, f)
  {
    hide Patch, BackUp, AddDesired, Covering, Local, Dependencies;
    LocalLists(d, r, f);
  }

  /** An accepted add leaves some sound stacking exactly if it covers as the locked lists allow. */
  lemma AddKeepsByListIff(o: Origin, h: History, d: Disk, r: Recipe, f: Name)
    requires Stacked(ByLock(o, d), h, d) && AddVerdict(d, r, f).Proceed?
    ensures var e := Added(d, r, f); (exists g :: Stacked(ByLock(o, e), g, e)) <==> CoversByLock(d, r, f)
  {
    hide Stacked, AddVerdict, Added, BaseRespected, CoversByLock, Local, Relisted, AddConflict;
    AddIsClear(d, r, f);
    if CoversByLock(d, r, f) {
      AddRegraphs(o, h, d, r, f);
      AddProceedsLocally(d, r, f);
      AddedLists(o, d, r, f);
      LocalLists(d, r, f);
      AddKeepsStacksIff(o.(graph := Relisted(d, r, f)), h, d, Local(d, r, f), f);
    }
    if g :| Stacked(ByLock(o, Added(d, r, f)), g, Added(d, r, f)) {
      AddedCovers(o, h, g, d, r, f);
    }
  }

  // ----- update

  /** The disk with the new list of `f` already in the lock. */
  function Ready(d: Disk, r: Recipe, f: Name): Disk
    requires f in r.features && f in d.lock.features
  {
    d.(lock := d.lock.(features :=
      d.lock.features[f := d.lock.features[f].(dependencies := r.features[f].dependencies)]))
  }

  /** Where two graphs differ in the list of `f` alone, a path of one is a path of the other or leads by way of `f`. */
  lemma {:induction false} ByWayOf(g: Edges, h: Edges, f: Name, w: seq<Name>)
    requires IsWalk(g, w) && 2 <= |w| && forall n :: n in g && n != f ==> n in h && h[n] == g[n]
    ensures var a, b := w[0], w[|w| - 1];
            Reaches(h, a, b) || ((a == f || Reaches(h, a, f)) && Reaches(g, f, b))
    decreases |w|
  {
    var a, b, rest := w[0], w[|w| - 1], w[1..];
    assert Edge(g, w[0], w[1]);
    if a == f {
      assert Reaches(g, f, b);
    } else {
      EdgeReaches(h, a, w[1]);
      if |w| > 2 {
        RestOfWalk(g, w);
        ByWayOf(g, h, f, rest);
        if Reaches(h, w[1], b) {
          ReachesTransitive(h, a, w[1], b);
        } else if w[1] != f {
          ReachesTransitive(h, a, w[1], f);
        }
      }
    }
  }

  lemma RestOfWalk(g: Edges, w: seq<Name>)
    requires IsWalk(g, w) && 2 <= |w|
    ensures IsWalk(g, w[1..]) && w[1..][|w| - 2] == w[|w| - 1]
  {
    forall i | 0 <= i < |w[1..]| - 1 ensures Edge(g, w[1..][i], w[1..][i + 1]) {
      assert Edge(g, w[i + 1], w[i + 2]);
    }
  }

  lemma ByWay(g: Edges, h: Edges, f: Name, a: Name, b: Name)
    requires Reaches(g, a, b) && forall n :: n in g && n != f ==> n in h && h[n] == g[n]
    ensures Reaches(h, a, b) || ((a == f || Reaches(h, a, f)) && Reaches(g, f, b))
  {
    var w :| IsWalk(g, w) && 2 <= |w| && w[0] == a && w[|w| - 1] == b;
    ByWayOf(g, h, f, w);
  }

  /** No cycle through `f`, no cycle at all. */
  lemma NoNewCycle(h: History, d: Disk, r: Recipe, f: Name, a: Name)
    requires Installed(Listed(d.lock), h, d.lock.features) && f in d.lock.features && f in r.features
    requires !Reaches(Relisted(d, r, f), f, f) && a in d.lock.features
    ensures !Reaches(Relisted(d, r, f), a, a)
  {
    hide Reaches, Installed;
    var was, now := Listed(d.lock), Relisted(d, r, f);
    if Reaches(now, a, a) {
      ByWay(now, was, f, a, a);
      if Reaches(was, a, a) {
        ReachesInstalled(was, h, d.lock.features, a, a);
      } else if a != f {
        ByWay(was, now, f, a, f);
        ReachesTransitive(now, f, a, f);
      }
    }
  }

  /** Without a new cycle the owners that are still related are related as they were. */
  lemma OrderIsKept(h: History, d: Disk, r: Recipe, f: Name, a: Name, b: Name)
    requires Installed(Listed(d.lock), h, d.lock.features) && f in d.lock.features && f in r.features
    requires a in d.lock.features && Reaches(Listed(d.lock), a, b) && !Reaches(Relisted(d, r, f), f, f)
    requires Reaches(Relisted(d, r, f), a, b) || Reaches(Relisted(d, r, f), b, a)
    ensures Reaches(Relisted(d, r, f), a, b)
  {
    hide Reaches, Installed;
    var was, now := Listed(d.lock), Relisted(d, r, f);
    if !Reaches(now, a, b) {
      ByWay(was, now, f, a, b);
      ByWay(now, was, f, b, a);
      if Reaches(was, b, a) {
        ReachesTransitive(was, a, b, a);
        ReachesInstalled(was, h, d.lock.features, a, a);
      } else if a != f {
        ReachesTransitive(now, f, a, f);
      }
    }
  }

  lemma SmallerSet<T>(a: set<T>, b: set<T>)
    requires a <= b
    ensures |a| <= |b| && (a < b ==> |a| < |b|)
  {
    assert b == a + (b - a);
    if a < b {
      assert b - a != {};
    }
  }

  /** The order in which the features might have been added with the new list. */
  ghost function Reordered(h: History, g: Edges, installed: set<Name>): History {
    History(h.stacks, map n | n in installed :: |Below(g, n)|, |g.Keys| + 1)
  }

  lemma ReadyEdge(h: History, d: Disk, r: Recipe, f: Name, a: Name, b: Name)
    requires Installed(Listed(d.lock), h, d.lock.features) && UpdateClear(d, r, f)
    requires a in d.lock.features && Edge(Relisted(d, r, f), a, b)
    ensures b in d.lock.features && b in Relisted(d, r, f)
  {
    hide UpdateConflict;
    assert a != f ==> Edge(Listed(d.lock), a, b);
  }

  lemma ReadyDescends(h: History, d: Disk, r: Recipe, f: Name, a: Name, b: Name)
    requires Installed(Listed(d.lock), h, d.lock.features) && UpdateClear(d, r, f)
    requires !Reaches(Relisted(d, r, f), f, f) && a in d.lock.features && Edge(Relisted(d, r, f), a, b)
    ensures b in d.lock.features && |Below(Relisted(d, r, f), b)| < |Below(Relisted(d, r, f), a)|
  {
    ReadyEdge(h, d, r, f, a, b);
    NoNewCycle(h, d, r, f, b);
    BelowShrinks(Relisted(d, r, f), a, b);
    SmallerSet(Below(Relisted(d, r, f), b), Below(Relisted(d, r, f), a));
  }

  lemma ReadyLists(d: Disk, r: Recipe, f: Name)
    requires f in d.lock.features && f in r.features
    ensures Listed(Ready(d, r, f).lock) == Relisted(d, r, f) && Relisted(d, r, f).Keys == d.lock.features.Keys
    ensures Ready(d, r, f).lock.features.Keys == d.lock.features.Keys
  {
  }

  lemma ReadyIsInstalled(h: History, d: Disk, r: Recipe, f: Name)
    requires Installed(Listed(d.lock), h, d.lock.features) && UpdateClear(d, r, f)
    requires !Reaches(Relisted(d, r, f), f, f)
    ensures Installed(Relisted(d, r, f), Reordered(h, Relisted(d, r, f), d.lock.features.Keys),
      Ready(d, r, f).lock.features)
  {
    hide Reaches, UpdateConflict, Below, Relisted, Ready, Edge;
    var g, all := Relisted(d, r, f), d.lock.features.Keys;
    ReadyLists(d, r, f);
    forall a | a in all ensures |Below(g, a)| <= |g.Keys| {
      BelowIsKnown(g, a);
      SmallerSet(Below(g, a), g.Keys);
    }
    forall a, b | a in all && Edge(g, a, b) ensures b in all && |Below(g, b)| < |Below(g, a)| {
      ReadyDescends(h, d, r, f, a, b);
    }
  }

  lemma BelowIsKnown(g: Edges, a: Name)
    ensures Below(g, a) <= g.Keys
  {
  }

  lemma UpdateRegraphs(o: Origin, h: History, d: Disk, r: Recipe, f: Name) returns (g: History)
    requires Stacked(ByLock(o, d), h, d) && UpdateClear(d, r, f) && StillRelated(d, r, f)
    ensures Stacked(o.(graph := Relisted(d, r, f)), g, Ready(d, r, f))
  {
    hide Stacked, Reaches, Installed, UpdateConflict;
    StackedIsInstalled(ByLock(o, d), h, d);
    ReadyIsInstalled(h, d, r, f);
    g := Reordered(h, Relisted(d, r, f), d.lock.features.Keys);
    forall p, a, b | a in Owners(d.lock, p) && b in Owners(d.lock, p) && Reaches(Listed(d.lock), a, b)
      ensures Reaches(Relisted(d, r, f), a, b)
    {
      if a == b {
        ReachesInstalled(Listed(d.lock), h, d.lock.features, a, b);
      } else {
        OrderIsKept(h, d, r, f, a, b);
      }
    }
    Regraph(ByLock(o, d), Relisted(d, r, f), h, g, d, Ready(d, r, f));
  }

  /** What an update leaves stacked was related all along. */
  lemma UpdatedRelates(o: Origin, h: History, g: History, d: Disk, r: Recipe, f: Name)
    requires Stacked(ByLock(o, d), h, d) && UpdateClear(d, r, f) && DecidesByLock(d, r, f)
    requires Stacked(ByLock(o, Updated(d, r, f)), g, Updated(d, r, f))
    ensures StillRelated(d, r, f)
  {
    hide Stacked, Updated, Reaches, Installed, UpdateConflict, DecidesByLock, OrderStays;
    var e := Updated(d, r, f);
    UpdatedLists(o, d, r, f);
    UpdatedFeatures(d, r, f);
    StackedIsInstalled(ByLock(o, e), g, e);
    if Reaches(Relisted(d, r, f), f, f) {
      ReachesInstalled(Relisted(d, r, f), g, e.lock.features, f, f);
    }
    forall p, a, b | a in Owners(d.lock, p) && b in Owners(d.lock, p) && a != b
      ensures Reaches(Relisted(d, r, f), a, b) || Reaches(Relisted(d, r, f), b, a)
    {
      if a == f {
        UpdatedRelatesTo(o, h, d, r, f, b, p);
      } else if b == f {
        UpdatedRelatesTo(o, h, d, r, f, a, p);
      } else {
        StackedOwnersReach(ByLock(o, e), g, e, a, b, p);
      }
    }
  }

  lemma UpdatedRelatesTo(o: Origin, h: History, d: Disk, r: Recipe, f: Name, n: Name, p: Path)
    requires Stacked(ByLock(o, d), h, d) && UpdateClear(d, r, f) && DecidesByLock(d, r, f)
    requires f in Owners(d.lock, p) && n in Owners(d.lock, p) && n != f
    ensures Reaches(Relisted(d, r, f), f, n) || Reaches(Relisted(d, r, f), n, f)
  {
    hide Stacked, Reaches, UpdateConflict;
    LocalLists(d, r, f);
    assert CanOverlay(Local(d, r, f), f, Owners(d.lock, p) - {f});
    if n == "base" {
      StackedOwnersReach(ByLock(o, d), h, d, f, n, p);
      if Reaches(Listed(d.lock), n, f) {
        ByWay(Listed(d.lock), Relisted(d, r, f), f, n, f);
      }
    }
  }

  lemma ReadyOwners(d: Disk, r: Recipe, f: Name, p: Path)
    requires f in r.features && f in d.lock.features
    ensures Owners(Ready(d, r, f).lock, p) == Owners(d.lock, p)
  {
  }

  lemma UpdateConflictsLocally(d: Disk, r: Recipe, f: Name, p: Path)
    requires f in r.features && f in d.lock.features && DecidesByLock(d, r, f)
    requires p in d.lock.features[f].files || p in r.features[f].files
    requires !UpdateConflict(d, r, f, p)
    ensures f in Local(d, r, f).features && !UpdateConflict(Ready(d, r, f), Local(d, r, f), f, p)
  {
    hide CanOverlay, Owners, Reaches;
    ReadyOwners(d, r, f, p);
    LocalLists(d, r, f);
  }

  lemma UpdateProceedsLocally(d: Disk, r: Recipe, f: Name)
    requires UpdateVerdict(d, r, f).Proceed? && DecidesByLock(d, r, f)
    ensures UpdateVerdict(Ready(d, r, f), Local(d, r, f), f).Proceed?
  {
    hide CanOverlay, DependencyVerdict, DecidesByLock, UpdateConflict;
    UpdateIsClear(d, r, f);
    LocalLists(d, r, f);
    LocalDependencies(d, r, f, d.lock.features.Keys - {f});
    var e, local := Ready(d, r, f), Local(d, r, f);
    assert e.lock.features.Keys == d.lock.features.Keys;
    var paths := e.lock.features[f].files.Keys + local.features[f].files.Keys;
    forall p | p in paths ensures !UpdateConflict(e, local, f, p) {
      UpdateConflictsLocally(d, r, f, p);
    }
    assert (set p | p in paths && UpdateConflict(e, local, f, p)) == {};
  }

  lemma UpdatedLists(o: Origin, d: Disk, r: Recipe, f: Name)
    requires f in r.features && f in d.lock.features
    ensures ByLock(o, Updated(d, r, f)) == o.(graph := Relisted(d, r, f))
    ensures f in Ready(d, r, f).lock.features && f in Local(d, r, f).features
    ensures Updated(Ready(d, r, f), Local(d, r, f), f) == Updated(d, r, f)
  {
    hide Patch, BackUp, KeptFiles, UpdateDesired, Drop, Local, Dependencies, Covering;
    LocalLists(d, r, f);
    var e, local := Ready(d, r, f), Local(d, r, f);
    SameDesired(d.lock.features[f], e.lock.features[f], r.features[f]);
    SameUpdate(d.lock.features, f, e.lock.features[f], Updated(d, r, f).lock.features[f]);
  }

  lemma SameUpdate<K, V>(m: map<K, V>, k: K, x: V, y: V)
    ensures m[k := x][k := y] == m[k := y]
  {
  }

  lemma SameDesired(was: LockedFeature, now: LockedFeature, feature: FeatureRecipe)
    requires was.files == now.files
    ensures UpdateDesired(was, feature) == UpdateDesired(now, feature)
  {
  }

  lemma ReadyRespects(d: Disk, r: Recipe, f: Name)
    requires f in r.features && f in d.lock.features
    ensures f in Ready(d, r, f).lock.features && f in Local(d, r, f).features
    ensures UpdateRespects(Local(d, r, f), Ready(d, r, f), f) <==> UpdateRespects(Local(d, r, f), d, f)
  {
    hide Reaches, Owners, UpdateDesired;
    LocalLists(d, r, f);
    var e, local := Ready(d, r, f), Local(d, r, f);
    SameDesired(d.lock.features[f], e.lock.features[f], r.features[f]);
    forall p ensures Obstructed(local, e, f, p) <==> Obstructed(local, d, f, p) {
      ReadyOwners(d, r, f, p);
    }
  }

  /** An accepted update that is decided as the lock would decide it leaves some sound stacking exactly if, with
      its new list, the owners of each path are still related and it respects a feature called "base". */
  lemma UpdateKeepsByListIff(o: Origin, h: History, d: Disk, r: Recipe, f: Name)
    requires Stacked(ByLock(o, d), h, d) && UpdateVerdict(d, r, f).Proceed? && DecidesByLock(d, r, f)
    ensures f in Local(d, r, f).features
    ensures var e := Updated(d, r, f);
            (exists g :: Stacked(ByLock(o, e), g, e)) <==>
              StillRelated(d, r, f) && UpdateRespects(Local(d, r, f), d, f)
  {
    hide Stacked, UpdateVerdict, Updated, UpdateRespects, DecidesByLock, StillRelated, Local, Relisted, Ready,
      UpdateClear;
    UpdateIsClear(d, r, f);
    ClearInstalled(d, r, f);
    LocalLists(d, r, f);
    UpdatedLists(o, d, r, f);
    if g :| Stacked(ByLock(o, Updated(d, r, f)), g, Updated(d, r, f)) {
      UpdatedRelates(o, h, g, d, r, f);
    }
    if StillRelated(d, r, f) {
      var g := UpdateRegraphs(o, h, d, r, f);
      UpdateProceedsLocally(d, r, f);
      ReadyRespects(d, r, f);
      UpdateKeepsStacksIff(o.(graph := Relisted(d, r, f)), g, Ready(d, r, f), Local(d, r, f), f);
    }
  }

  // ----- remove

  lemma RemovedLists(h: History, d: Disk, f: Name)
    requires Installed(Listed(d.lock), h, d.lock.features) && RemoveClear(d, f)
    ensures var lock := Removed(d, f).lock;
            Closed(Listed(d.lock), lock.features.Keys)
              && forall n :: n in lock.features ==> n in d.lock.features && Listed(lock)[n] == Listed(d.lock)[n]
  {
    var lock := Removed(d, f).lock;
    forall x, y | x in lock.features && Edge(Listed(d.lock), x, y) ensures y in lock.features {
      assert y in d.lock.features;
      assert x !in Dependents(d.lock, f);
    }
  }

  /** An accepted removal leaves the stacks sound, whatever recipes came before. */
  lemma RemoveKeepsByList(o: Origin, h: History, d: Disk, f: Name) returns (g: History)
    requires Stacked(ByLock(o, d), h, d) && RemoveClear(d, f)
    ensures Stacked(ByLock(o, Removed(d, f)), g, Removed(d, f))
  {
    hide Stacked, Removed, Reaches, Installed;
    var e := Removed(d, f);
    g := Popped(h, f, d.lock.features[f].files.Keys);
    RemoveKeepsStacks(ByLock(o, d), h, d, f);
    StackedIsInstalled(ByLock(o, d), h, d);
    StackedIsInstalled(ByLock(o, d), g, e);
    RemovedLists(h, d, f);
    forall p, a, b | a in Owners(e.lock, p) && b in Owners(e.lock, p) && Reaches(Listed(d.lock), a, b)
      ensures Reaches(Listed(e.lock), a, b)
    {
      SameListsReach(Listed(d.lock), Listed(e.lock), e.lock.features.Keys, a, b);
    }
    FewerInstalled(Listed(d.lock), Listed(e.lock), g, e.lock.features);
    Regraph(ByLock(o, d), Listed(e.lock), g, g, e, e);
  }

  lemma FewerInstalled(graph: Edges, fewer: Edges, h: History, features: map<Name, LockedFeature>)
    requires Installed(graph, h, features)
    requires forall n :: n in features ==> n in fewer && n in graph && fewer[n] == graph[n]
    ensures Installed(fewer, h, features)
  {
    assert forall a, b | a in features && Edge(fewer, a, b) :: Edge(graph, a, b);
  }

  // ----- recipes that change no installed feature's list

  lemma SameBothWays(g: Edges, h: Edges, s: set<Name>, a: Name, b: Name)
    requires Closed(g, s) && a in s && forall n :: n in s ==> n in g && n in h && h[n] == g[n]
    ensures Reaches(g, a, b) <==> Reaches(h, a, b)
  {
    hide Reaches;
    assert forall x, y | x in s && Edge(h, x, y) :: Edge(g, x, y);
    if Reaches(g, a, b) {
      SameListsReach(g, h, s, a, b);
    }
    if Reaches(h, a, b) {
      SameListsReach(h, g, s, a, b);
    }
  }

  /** Each installed feature is listed as `g` lists it, and what it lists is installed. */
  ghost predicate AsListed(d: Disk, g: Edges) {
    && Closed(Listed(d.lock), d.lock.features.Keys)
    && forall n :: n in d.lock.features ==> n in g && g[n] == d.lock.features[n].dependencies
  }

  lemma RemovedAsListed(d: Disk, g: Edges, f: Name)
    requires AsListed(d, g) && RemoveClear(d, f)
    ensures AsListed(Removed(d, f), g)
  {
    var e := Removed(d, f);
    forall x, y | x in e.lock.features && Edge(Listed(e.lock), x, y) ensures y in e.lock.features {
      assert Edge(Listed(d.lock), x, y) && x !in Dependents(d.lock, f);
    }
  }

  lemma ChangedLists(d: Disk, r: Recipe, f: Name)
    requires f in r.features
    ensures Listed(Added(d, r, f).lock) == Relisted(d, r, f)
    ensures f in d.lock.features ==> Listed(Updated(d, r, f).lock) == Relisted(d, r, f)
  {
    hide Patch, BackUp, AddDesired, UpdateDesired, Covering, KeptFiles, Drop;
  }

  lemma PerformedAsListed(d: Disk, operation: Operation, r: Recipe, f: Name)
    requires AsListed(d, Dependencies(r))
    ensures AsListed(Performed(d, operation, r, f), Dependencies(r))
  {
    hide AsListed, Added, Updated, Removed, Dependencies, RemoveClear;
    if PerformVerdict(d, operation, r, f).Proceed? {
      if operation == Remove {
        RemoveIsClear(d, f);
        RemovedAsListed(d, Dependencies(r), f);
      } else {
        ChangedLists(d, r, f);
        ListedAfter(d, Performed(d, operation, r, f), r, f, operation);
      }
    }
  }

  lemma ListedAfter(d: Disk, e: Disk, r: Recipe, f: Name, operation: Operation)
    requires PerformVerdict(d, operation, r, f).Proceed? && operation != Remove && f in r.features
    requires AsListed(d, Dependencies(r)) && Listed(e.lock) == Relisted(d, r, f)
    ensures AsListed(e, Dependencies(r))
  {
    ProceedsClear(d, operation, r, f);
    hide PerformVerdict;
    assert e.lock.features.Keys == Listed(e.lock).Keys;
    forall n | n in e.lock.features ensures Listed(e.lock)[n] == e.lock.features[n].dependencies {}
    forall x, y | x in e.lock.features && Edge(Listed(e.lock), x, y) ensures y in e.lock.features {
      assert x != f ==> Edge(Listed(d.lock), x, y);
    }
  }

  /** A recipe with the locked lists for all installed features respects them. */
  lemma UnchangedListsRespect(d: Disk, operation: Operation, r: Recipe, f: Name)
    requires AsListed(d, Dependencies(r))
    ensures RespectsLists(d, operation, r, f)
  {
    hide Reaches, UpdateVerdict, UpdateClear, AsListed, DecidesByLock;
    if operation == Update && PerformVerdict(d, operation, r, f).Proceed? {
      UpdateIsClear(d, r, f);
      UnchangedListsDecide(d, r, f);
    }
  }

  lemma UnchangedListsDecide(d: Disk, r: Recipe, f: Name)
    requires AsListed(d, Dependencies(r)) && UpdateClear(d, r, f)
    ensures DecidesByLock(d, r, f)
  {
    hide Reaches, AsListed, UpdateConflict;
    UnchangedDecide(d, r, f);
    LocalLists(d, r, f);
    UnchangedLists(d, r, f);
    forall p | p in d.lock.features[f].files || p in r.features[f].files
      ensures CanOverlay(Local(d, r, f), f, Owners(d.lock, p) - {f})
    {
      UpdateClearAt(d, r, f, p);
    }
  }

  lemma UnchangedLists(d: Disk, r: Recipe, f: Name)
    requires AsListed(d, Dependencies(r)) && f in r.features && f in d.lock.features
    ensures Relisted(d, r, f) == Listed(d.lock)
  {
  }

  lemma ProceedsClear(d: Disk, operation: Operation, r: Recipe, f: Name)
    requires PerformVerdict(d, operation, r, f).Proceed? && operation != Remove
    ensures f in r.features && forall e :: e in r.features[f].dependencies ==> e in d.lock.features
    ensures operation == Update ==> f in d.lock.features
  {
    AddIsClear(d, r, f);
    UpdateIsClear(d, r, f);
  }

  lemma UnchangedDecide(d: Disk, r: Recipe, f: Name)
    requires AsListed(d, Dependencies(r)) && f in r.features
    requires forall e :: e in r.features[f].dependencies ==> e in d.lock.features
    ensures forall n :: n in d.lock.features && n != f ==>
                          (Reaches(Dependencies(r), f, n) <==> Reaches(Relisted(d, r, f), f, n))
  {
    hide Reaches;
    var all := d.lock.features.Keys + {f};
    forall x, y | x in all && Edge(Relisted(d, r, f), x, y) ensures y in all {
      assert x != f ==> Edge(Listed(d.lock), x, y);
    }
    forall n | n in d.lock.features && n != f
      ensures Reaches(Dependencies(r), f, n) <==> Reaches(Relisted(d, r, f), f, n)
    {
      SameBothWays(Relisted(d, r, f), Dependencies(r), all, f, n);
    }
  }

  /** It covers as the locked lists allow, unless it covers a feature called "base" that it does not reach. */
  lemma UnchangedListsCover(d: Disk, r: Recipe, f: Name)
    requires AsListed(d, Dependencies(r)) && AddClear(d, r, f) && "base" !in d.lock.features
    ensures CoversByLock(d, r, f)
  {
    hide Reaches, AsListed;
    UnchangedDecide(d, r, f);
    forall p, n | p in r.features[f].files && n in Owners(d.lock, p) && n != f
      ensures Reaches(Relisted(d, r, f), f, n)
    {
      AddClearAt(d, r, f, p);
    }
  }

  lemma UnchangedListsRelate(o: Origin, h: History, d: Disk, r: Recipe, f: Name)
    requires AsListed(d, Dependencies(r)) && UpdateClear(d, r, f) && Stacked(ByLock(o, d), h, d)
    ensures StillRelated(d, r, f)
  {
    hide Reaches, Stacked, UpdateConflict;
    UnchangedLists(d, r, f);
    StackedIsInstalled(ByLock(o, d), h, d);
    if Reaches(Listed(d.lock), f, f) {
      ReachesInstalled(Listed(d.lock), h, d.lock.features, f, f);
    }
    forall p, a, b | a in Owners(d.lock, p) && b in Owners(d.lock, p) && a != b
      ensures Reaches(Relisted(d, r, f), a, b) || Reaches(Relisted(d, r, f), b, a)
    {
      StackedOwnersReach(ByLock(o, d), h, d, a, b, p);
    }
  }
}
