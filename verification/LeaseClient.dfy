/** The acquiring code itself: its loops take the steps of one attempt, while the rest
    of the world moves between any two of them. */
module LeaseClient {
  import opened Wrappers
  import opened Leases
  import opened LeaseSearch

  /** Something that happens around attempt `a`: a step of another attempt, the exit of
      another process, or the release of a dead attempt's lock. */
  predicate Around(c: seq<Attempt>, a: nat, m: Move) {
    !Moves(m, a) && (m.Exit? && a < |c| ==> m.process != c[a].owner)
  }

  lemma AroundLeavesAlone(c: seq<Attempt>, s: State, m: Move, a: nat)
    requires Enabled(c, s, m) && |s.stages| == |c| && a < |c| && Around(c, a, m)
    ensures |After(c, s, m).stages| == |c| && After(c, s, m).stages[a] == s.stages[a]
  {
  }

  class World {
    const attempts: seq<Attempt>
    var now: State
    /** What others will do at each of the points where they can. */
    var schedule: seq<seq<Move>>
    ghost const start: State
    ghost var run: seq<Move>

    /** Requests come in any order and may repeat a resource. */
    constructor (requests: seq<Attempt>, records: map<Unit, Record>, dead: set<Process>, schedule: seq<seq<Move>>)
      requires forall u :: u in records && records[u].owner == None ==> records[u].children == {}
      ensures Valid() && run == [] && |attempts| == |requests|
      ensures forall a :: 0 <= a < |requests| ==> attempts[a] == requests[a].(names := InOrder(requests[a].names))
      ensures now.records == records && now.dead == dead
    {
      attempts := seq(|requests|, a requires 0 <= a < |requests| => requests[a].(names := InOrder(requests[a].names)));
      var recorded := set u, p | u in records && p in records[u].children :: (u, p);
      now := State(seq(|requests|, _ => Trying([], 0)), map[], records, dead, recorded);
      start := State(seq(|requests|, _ => Trying([], 0)), map[], records, dead, recorded);
      this.schedule := schedule;
      run := [];
      new;
      forall a | 0 <= a < |attempts| ensures Ascending(attempts[a].names) {
        InOrderAscends(requests[a].names);
      }
      InitialIsInvariant(attempts, start);
    }

    ghost predicate Valid()
      reads this
    {
      Initial(attempts, start) && CanRun(attempts, start, run) && now == Led(attempts, start, run)
        && Invariant(attempts, now)
    }

    /** The moves since an earlier point are its own or happen around it. */
    ghost predicate OnlyAround(a: nat, before: seq<Move>)
      reads this
    {
      |before| <= |run| && run[..|before|] == before && forall k ::
        |before| <= k < |run| ==> Around(attempts, a, run[k])
    }

    method Do(m: Move)
      requires Valid() && Enabled(attempts, now, m)
      modifies `now, `run
      ensures Valid() && now == After(attempts, old(now), m) && run == old(run) + [m]
    {
      MoveKeepsInvariant(attempts, now, m);
      now := After(attempts, now, m);
      run := run + [m];
      assert run[..|run| - 1] == old(run);
    }

    /** Others move. */
    method Yield(a: nat)
      requires Valid() && a < |attempts|
      modifies this
      ensures Valid() && now.stages[a] == old(now.stages[a]) && OnlyAround(a, old(run))
    {
      if schedule == [] {
        return;
      }
      var batch := schedule[0];
      schedule := schedule[1..];
      for k := 0 to |batch|
        invariant Valid() && now.stages[a] == old(now.stages[a]) && OnlyAround(a, old(run))
      {
        if Enabled(attempts, now, batch[k]) && Around(attempts, a, batch[k]) {
          AroundLeavesAlone(attempts, now, batch[k], a);
          Do(batch[k]);
        }
      }
    }

    /** One unit: locked, examined and marked as ours, or left. */
    method TryUnit(a: nat, files: seq<Unit>, i: nat) returns (taken: bool)
      requires Valid() && a < |attempts| && now.stages[a] == Trying(files, i)
      requires |files| < |attempts[a].names| && Known(attempts[a], attempts[a].names[|files|])
      requires i < attempts[a].capacity[attempts[a].names[|files|]]
      modifies this
      ensures Valid() && old(run) <= run
      ensures now.stages[a] == if taken then Trying(files + [UnitOf(attempts[a], attempts[a].names[|files|], i)], 0)
              else Trying(files, i + 1)
    {
      var u := UnitOf(attempts[a], attempts[a].names[|files|], i);
      Yield(a);
      var contended := u in now.locks;
      Do(Try(a));
      if contended {
        return false;
      }
      taken := TakeOver(a, files, u);
    }

    method TakeOver(a: nat, files: seq<Unit>, u: Unit) returns (taken: bool)
      requires Valid() && a < |attempts| && now.stages[a] == Checking(files, u.id)
      requires |files| < |attempts[a].names| && u == UnitOf(attempts[a], attempts[a].names[|files|], u.id)
      modifies this
      ensures Valid() && old(run) <= run
      ensures now.stages[a] == if taken then Trying(files + [u], 0) else Trying(files, u.id + 1)
    {
      Yield(a);
      taken := Recoverable(now, u);
      Do(Recover(a));
      if taken {
        Yield(a);
        Do(Write(a));
      }
    }

    /** What the search since an earlier point has seen. */
    lemma SearchHasSeen(a: nat, before: seq<Move>, at: State, files: seq<Unit>)
      requires Valid() && a < |attempts| && before <= run && CanRun(attempts, start, before)
      requires at == Led(attempts, start, before) && |at.stages| == |attempts| && at.stages[a] == Trying(files, 0)
      ensures SeenBy(attempts, start, run, |before|, |files|, a, now.stages[a])
    {
      hide Invariant;
      InitialIsInvariant(attempts, start);
      assert run[..|before|] == before;
      SearchSees(attempts, start, run, |before|, a, files);
    }

    /** The first unit of a pool that can be locked and taken over. Each unit before it was taken when the search
        came to it. */
    method TryPool(a: nat, files: seq<Unit>) returns (id: Option<nat>)
      requires Valid() && a < |attempts| && now.stages[a] == Trying(files, 0)
      requires |files| < |attempts[a].names| && Known(attempts[a], attempts[a].names[|files|])
      modifies this
      ensures Valid() && old(run) <= run
      ensures match id
              case Some(i) =>
                && i < attempts[a].capacity[attempts[a].names[|files|]]
                && now.stages[a] == Trying(files + [UnitOf(attempts[a], attempts[a].names[|files|], i)], 0)
                && SeenBelow(attempts, start, run, |old(run)|, a, attempts[a].names[|files|], i)
              case None =>
                && now.stages[a] == Trying(files, attempts[a].capacity[attempts[a].names[|files|]])
                && SeenBelow(attempts, start, run, |old(run)|, a, attempts[a].names[|files|],
                             attempts[a].capacity[attempts[a].names[|files|]])
    {
      hide SeenBelow, LocksAgree, ChildrenKept, OwnersFirst, StageOk, RecordOk, CanRun, Initial, Led;
      ghost var before, at := run, now;
      for i := 0 to attempts[a].capacity[attempts[a].names[|files|]]
        invariant Valid() && now.stages[a] == Trying(files, i) && old(run) <= run
      {
        var taken := TryUnit(a, files, i);
        if taken {
          SearchHasSeen(a, before, at, files);
          assert now.stages[a].files[|files|] == UnitOf(attempts[a], attempts[a].names[|files|], i);
          return Some(i);
        }
      }
      SearchHasSeen(a, before, at, files);
      return None;
    }

    /** Gives back what was locked so far, file by file. */
    method Release(a: nat, files: seq<Unit>, outcome: Outcome)
      requires Valid() && a < |attempts| && now.stages[a] == Releasing(files, 0, outcome)
      modifies this
      ensures Valid() && now.stages[a] == Ended(outcome) && old(run) <= run
    {
      for k := 0 to |files|
        invariant Valid() && now.stages[a] == Releasing(files, k, outcome) && old(run) <= run
      {
        Yield(a);
        Do(Unlock(a));
      }
      Do(Unlock(a));
    }

    /** Takes every requested resource or none, without ever waiting for one: of each the first unit that was not
        taken when it came to it, and none where all units of some pool were. With nobody else moving, that is the
        lowest free one. */
    method TryAcquire(a: nat) returns (result: Result<seq<Unit>, Outcome>)
      requires Valid() && a < |attempts| && now.stages[a] == Trying([], 0)
      modifies this
      ensures Valid() && old(run) <= run
      ensures match result
              case Ok(files) => now.stages[a] == Acquired(files) && |files| == |attempts[a].names|
              case Err(outcome) => now.stages[a] == Ended(outcome) && forall u :: Get(now.locks, u) != Some(a)
      ensures result.Err? ==>
                match result.error
                case BlockedOn(r) => r in attempts[a].names && Known(attempts[a], r)
                case Failed => exists r :: r in attempts[a].names && !Known(attempts[a], r)
                case Dropped => false
      ensures match result
              case Ok(files) =>
                forall j :: 0 <= j < |files| ==>
                  && files[j] == UnitOf(attempts[a], attempts[a].names[j], files[j].id)
                  && Known(attempts[a], attempts[a].names[j])
                  && files[j].id < attempts[a].capacity[attempts[a].names[j]]
                  && SeenBelow(attempts, start, run, |old(run)|, a, attempts[a].names[j], files[j].id)
              case Err(BlockedOn(r)) =>
                Known(attempts[a], r)
                && SeenBelow(attempts, start, run, |old(run)|, a, r, attempts[a].capacity[r])
              case _ => true
      ensures (forall r :: r in attempts[a].names ==>
                 Known(attempts[a], r) && OpenThroughout(attempts, start, run, |old(run)|, a, r)) ==>
                result.Ok?
      ensures Alone(run, |old(run)|, a) ==>
                match result
                case Ok(files) =>
                  forall j :: 0 <= j < |files| ==>
                    && Free(old(now), files[j])
                    && forall id: nat :: id < files[j].id ==>
                         !Free(old(now), UnitOf(attempts[a], attempts[a].names[j], id))
                case Err(BlockedOn(r)) =>
                  Known(attempts[a], r)
                  && forall id: nat :: id < attempts[a].capacity[r] ==> !Free(old(now), UnitOf(attempts[a], r, id))
                case _ => true
    {
      hide SeenBelow, LocksAgree, ChildrenKept, OwnersFirst, StageOk, RecordOk, CanRun, Initial, Led, OpenThroughout,
        Free, Alone;
      ghost var before, at := run, now;
      var names := attempts[a].names;
      var files: seq<Unit> := [];
      for k := 0 to |names|
        invariant Valid() && now.stages[a] == Trying(files, 0) && |files| == k && old(run) <= run
      {
        if !Known(attempts[a], names[k]) {
          Do(Try(a));
          Release(a, files, Failed);
          HoldsNothing(a);
          return Err(Failed);
        }
        var id := TryPool(a, files);
        if id == None {
          Do(Try(a));
          Release(a, files, BlockedOn(names[k]));
          HoldsNothing(a);
          WhatItMeans(a, before, at);
          return Err(BlockedOn(names[k]));
        }
        files := files + [UnitOf(attempts[a], names[k], id.value)];
      }
      Do(Try(a));
      WhatItMeans(a, before, at);
      return Ok(files);
    }

    /** What an attempt that has ended, or has its units, can say of the pools. */
    lemma WhatItMeans(a: nat, before: seq<Move>, at: State)
      requires Valid() && a < |attempts| && before <= run && CanRun(attempts, start, before)
      requires at == Led(attempts, start, before) && |at.stages| == |attempts| && at.stages[a] == Trying([], 0)
      ensures match now.stages[a]
              case Acquired(files) =>
                forall j :: 0 <= j < |files| ==>
                  && j < |attempts[a].names| && files[j] == UnitOf(attempts[a], attempts[a].names[j], files[j].id)
                  && Known(attempts[a], attempts[a].names[j])
                  && files[j].id < attempts[a].capacity[attempts[a].names[j]]
                  && SeenBelow(attempts, start, run, |before|, a, attempts[a].names[j], files[j].id)
                  && (Alone(run, |before|, a) ==>
                        && Free(at, files[j])
                        && forall id: nat :: id < files[j].id ==>
                             !Free(at, UnitOf(attempts[a], attempts[a].names[j], id)))
              case Ended(BlockedOn(r)) =>
                && Known(attempts[a], r) && SeenBelow(attempts, start, run, |before|, a, r, attempts[a].capacity[r])
                && !OpenThroughout(attempts, start, run, |before|, a, r)
                && (Alone(run, |before|, a) ==>
                      forall id: nat :: id < attempts[a].capacity[r] ==> !Free(at, UnitOf(attempts[a], r, id)))
              case _ => true
    {
      hide SeenBelow, Invariant, Led, OpenThroughout, Free, Alone, Known;
      SearchHasSeen(a, before, at, []);
      InitialIsInvariant(attempts, start);
      InvariantAt(attempts, now, a);
      assert run[..|before|] == before;
      if Alone(run, |before|, a) {
        AloneTakesLowest(attempts, start, run, |before|, a);
      }
      match now.stages[a]
      case Ended(BlockedOn(r)) => OpenIsNotAllSeen(attempts, start, run, |before|, a, r);
      case _ =>
    }

    lemma HoldsNothing(a: nat)
      requires Valid() && a < |attempts| && now.stages[a].Ended?
      ensures forall u :: Get(now.locks, u) != Some(a)
    {
      forall u ensures Get(now.locks, u) != Some(a) {
        EndedHoldsNothing(attempts, start, run, a, u);
      }
    }
  }
}
