/** Slots of coexisting worktrees: each call locks the registry file, reads it, sweeps
    the claims of dead processes, and writes back what it changed. */
module Slots {
  import opened Wrappers

  type Pid = nat
  type Instance = string

  const MAX_SLOT := 15
  const DEFAULT_MAX_SLOTS := MAX_SLOT + 1

  datatype ClaimRecord = ClaimRecord(slot: nat, instance: Instance, pid: Pid, claimedAt: nat)

  datatype ClaimError = Exhausted(max: nat)

  // ----- the registry

  function FindByInstance(claims: seq<ClaimRecord>, instance: Instance): Option<ClaimRecord> {
    if claims == [] then None
    else if claims[0].instance == instance then Some(claims[0])
    else FindByInstance(claims[1..], instance)
  }

  function FindBySlot(claims: seq<ClaimRecord>, slot: nat): Option<ClaimRecord> {
    if claims == [] then None
    else if claims[0].slot == slot then Some(claims[0])
    else FindBySlot(claims[1..], slot)
  }

  lemma {:induction false} FindBySlotMeans(claims: seq<ClaimRecord>, slot: nat)
    ensures FindBySlot(claims, slot) == None <==> forall c :: c in claims ==> c.slot != slot
    ensures FindBySlot(claims, slot).Some? ==>
              FindBySlot(claims, slot).value in claims && FindBySlot(claims, slot).value.slot == slot
  {
    if claims != [] {
      FindBySlotMeans(claims[1..], slot);
      assert claims == [claims[0]] + claims[1..];
    }
  }

  lemma {:induction false} FindByInstanceMeans(claims: seq<ClaimRecord>, instance: Instance)
    ensures FindByInstance(claims, instance) == None <==> forall c :: c in claims ==> c.instance != instance
    ensures FindByInstance(claims, instance).Some? ==>
              FindByInstance(claims, instance).value in claims
                && FindByInstance(claims, instance).value.instance == instance
  {
    if claims != [] {
      FindByInstanceMeans(claims[1..], instance);
      assert claims == [claims[0]] + claims[1..];
    }
  }

  function RemoveByInstance(claims: seq<ClaimRecord>, instance: Instance): seq<ClaimRecord> {
    if claims == [] then []
    else if claims[0].instance == instance then claims[1..]
    else [claims[0]] + RemoveByInstance(claims[1..], instance)
  }

  function Swept(claims: seq<ClaimRecord>, alive: set<Pid>): seq<ClaimRecord> {
    if claims == [] then []
    else if claims[0].pid in alive then [claims[0]] + Swept(claims[1..], alive)
    else Swept(claims[1..], alive)
  }

  /** No slot and no instance is claimed twice, and every slot is a slot. */
  ghost predicate Consistent(claims: seq<ClaimRecord>, max: nat) {
    && (forall c :: c in claims ==> c.slot < max)
    && forall i, j :: 0 <= i < j < |claims| ==>
      claims[i].slot != claims[j].slot && claims[i].instance != claims[j].instance
  }

  /** `part` keeps some of the claims of `whole`, in order. */
  ghost predicate Thinned(part: seq<ClaimRecord>, whole: seq<ClaimRecord>)
    decreases |whole|
  {
    part == [] || (whole != []
      && ((part[0] == whole[0] && Thinned(part[1..], whole[1..])) || Thinned(part, whole[1..])))
  }

  lemma {:induction false} ThinnedIsPart(part: seq<ClaimRecord>, whole: seq<ClaimRecord>)
    requires Thinned(part, whole)
    ensures forall c :: c in part ==> c in whole
    decreases |whole|
  {
    if part != [] {
      assert whole == [whole[0]] + whole[1..] && part == [part[0]] + part[1..];
      if part[0] == whole[0] && Thinned(part[1..], whole[1..]) {
        ThinnedIsPart(part[1..], whole[1..]);
      } else {
        ThinnedIsPart(part, whole[1..]);
      }
    }
  }

  lemma {:induction false} ThinnedStaysConsistent(part: seq<ClaimRecord>, whole: seq<ClaimRecord>, max: nat)
    requires Thinned(part, whole) && Consistent(whole, max)
    ensures Consistent(part, max)
    decreases |whole|
  {
    if part != [] {
      assert whole == [whole[0]] + whole[1..] && part == [part[0]] + part[1..];
      if part[0] == whole[0] && Thinned(part[1..], whole[1..]) {
        ThinnedStaysConsistent(part[1..], whole[1..], max);
        ThinnedIsPart(part[1..], whole[1..]);
        forall c | c in part[1..] ensures c.slot != part[0].slot && c.instance != part[0].instance {
          var j :| 0 <= j < |whole[1..]| && whole[1..][j] == c;
          assert whole[0].slot != whole[j + 1].slot;
        }
        forall i, j | 0 <= i < j < |part| ensures part[i].slot != part[j].slot && part[i].instance != part[j].instance {
          assert part[j] == part[1..][j - 1];
          assert i > 0 ==> part[i] == part[1..][i - 1];
        }
      } else {
        ThinnedStaysConsistent(part, whole[1..], max);
      }
    }
  }

  lemma {:induction false} SweptIsThinned(claims: seq<ClaimRecord>, alive: set<Pid>)
    ensures Thinned(Swept(claims, alive), claims)
    ensures forall c :: c in Swept(claims, alive) <==> c in claims && c.pid in alive
  {
    if claims != [] {
      SweptIsThinned(claims[1..], alive);
      assert claims == [claims[0]] + claims[1..];
    }
  }

  lemma {:induction false} ThinnedAll(claims: seq<ClaimRecord>)
    ensures Thinned(claims, claims)
  {
    if claims != [] {
      ThinnedAll(claims[1..]);
    }
  }

  lemma {:induction false} RemovedIsThinned(claims: seq<ClaimRecord>, instance: Instance, max: nat)
    requires Consistent(claims, max)
    ensures Thinned(RemoveByInstance(claims, instance), claims)
    ensures forall c :: c in RemoveByInstance(claims, instance) <==> c in claims && c.instance != instance
  {
    if claims != [] {
      assert claims == [claims[0]] + claims[1..];
      if claims[0].instance == instance {
        ThinnedAll(claims[1..]);
        forall c | c in claims[1..] ensures c.instance != instance {
          var j :| 0 <= j < |claims[1..]| && claims[1..][j] == c;
          assert claims[0].instance != claims[j + 1].instance;
        }
      } else {
        RemovedIsThinned(claims[1..], instance, max);
      }
    }
  }

  // ----- what the calls do to the registry

  predicate Taken(claims: seq<ClaimRecord>, slot: nat) {
    FindBySlot(claims, slot).Some?
  }

  /** The first slot from `n` on that no claim holds. */
  function FirstFree(claims: seq<ClaimRecord>, n: nat, max: nat): (r: Option<nat>)
    ensures match r
            case Some(slot) => n <= slot < max && !Taken(claims, slot) && forall m :: n <= m < slot ==> Taken(claims, m)
            case None => forall m :: n <= m < max ==> Taken(claims, m)
    decreases max - n
  {
    if n >= max then None else if !Taken(claims, n) then Some(n) else FirstFree(claims, n + 1, max)
  }

  /** A call, and the processes that are alive while it runs. */
  datatype Call =
    | Claim(instance: Instance, pid: Pid, alive: set<Pid>, time: nat)
    | Release(instance: Instance)

  function Answer(max: nat, claims: seq<ClaimRecord>, call: Call): Result<nat, ClaimError>
    requires call.Claim?
  {
    var registry := Swept(claims, call.alive);
    match FindByInstance(registry, call.instance)
    case Some(existing) => Ok(existing.slot)
    case None =>
      match FirstFree(registry, 0, max)
      case Some(slot) => Ok(slot)
      case None => Err(Exhausted(max))
  }

  /** Only a fresh claim and an actual release write the registry back. */
  function After(max: nat, claims: seq<ClaimRecord>, call: Call): seq<ClaimRecord> {
    match call
    case Claim(instance, pid, alive, time) =>
      var registry := Swept(claims, alive);
      if FindByInstance(registry, instance).Some? || Answer(max, claims, call).Err? then claims
      else registry + [ClaimRecord(Answer(max, claims, call).value, instance, pid, time)]
    case Release(instance) => RemoveByInstance(claims, instance)
  }

  /** The claims a run of calls from an empty registry leaves. */
  function RunClaims(max: nat, calls: seq<Call>): seq<ClaimRecord> {
    if calls == [] then [] else After(max, RunClaims(max, calls[..|calls| - 1]), calls[|calls| - 1])
  }

  ghost predicate LiveSlot(claims: seq<ClaimRecord>, alive: set<Pid>, slot: nat) {
    exists c :: c in claims && c.pid in alive && c.slot == slot
  }

  ghost predicate LiveInstance(claims: seq<ClaimRecord>, alive: set<Pid>, instance: Instance, slot: nat) {
    exists c :: c in claims && c.pid in alive && c.instance == instance && c.slot == slot
  }

  lemma TakenIsLive(claims: seq<ClaimRecord>, alive: set<Pid>, slot: nat)
    ensures Taken(Swept(claims, alive), slot) <==> LiveSlot(claims, alive, slot)
  {
    SweptIsThinned(claims, alive);
    FindBySlotMeans(Swept(claims, alive), slot);
    if c :| c in claims && c.pid in alive && c.slot == slot {
      assert c in Swept(claims, alive);
    }
  }

  /** A claim is answered with the slot of the instance's live claim, or else with the lowest
      slot that has no live holder, and with exhaustion exactly when every slot has one. */
  lemma AnswerIsLowest(max: nat, claims: seq<ClaimRecord>, call: Call)
    requires call.Claim? && Consistent(claims, max)
    ensures match Answer(max, claims, call)
            case Ok(slot) =>
              && slot < max
              && (|| LiveInstance(claims, call.alive, call.instance, slot)
                  || (&& (forall n :: !LiveInstance(claims, call.alive, call.instance, n))
                      && !LiveSlot(claims, call.alive, slot)
                      && forall n :: 0 <= n < slot ==> LiveSlot(claims, call.alive, n)))
            case Err(e) =>
              && e == Exhausted(max)
              && (forall n :: !LiveInstance(claims, call.alive, call.instance, n))
              && forall n :: 0 <= n < max ==> LiveSlot(claims, call.alive, n)
  {
    var registry := Swept(claims, call.alive);
    SweptIsThinned(claims, call.alive);
    FindByInstanceMeans(registry, call.instance);
    forall n: nat ensures Taken(registry, n) <==> LiveSlot(claims, call.alive, n) {
      TakenIsLive(claims, call.alive, n);
    }
    if FindByInstance(registry, call.instance).Some? {
      var c := FindByInstance(registry, call.instance).value;
      assert LiveInstance(claims, call.alive, call.instance, c.slot);
    }
  }

  lemma AddedIsConsistent(claims: seq<ClaimRecord>, c: ClaimRecord, max: nat)
    requires Consistent(claims, max) && c.slot < max
    requires forall d :: d in claims ==> d.slot != c.slot && d.instance != c.instance
    ensures Consistent(claims + [c], max)
  {
  }

  lemma CallKeepsConsistent(max: nat, claims: seq<ClaimRecord>, call: Call)
    requires Consistent(claims, max)
    ensures Consistent(After(max, claims, call), max)
  {
    match call
    case Release(instance) =>
      RemovedIsThinned(claims, instance, max);
      ThinnedStaysConsistent(RemoveByInstance(claims, instance), claims, max);
    case Claim(instance, pid, alive, time) =>
      var registry := Swept(claims, alive);
      SweptIsThinned(claims, alive);
      ThinnedStaysConsistent(registry, claims, max);
      FindByInstanceMeans(registry, instance);
      if FindByInstance(registry, instance).None? && Answer(max, claims, call).Ok? {
        FindBySlotMeans(registry, Answer(max, claims, call).value);
        AddedIsConsistent(registry, ClaimRecord(Answer(max, claims, call).value, instance, pid, time), max);
      }
  }

  /** Over any interleaving of claims, releases and deaths, slots and instances stay distinct. */
  lemma {:induction false} RunIsConsistent(max: nat, calls: seq<Call>)
    ensures Consistent(RunClaims(max, calls), max)
    decreases |calls|
  {
    if calls != [] {
      RunIsConsistent(max, calls[..|calls| - 1]);
      CallKeepsConsistent(max, RunClaims(max, calls[..|calls| - 1]), calls[|calls| - 1]);
    }
  }

  /** The call leaves the claim `c` alone: it does not release its instance, and its process is alive. */
  predicate Spares(call: Call, c: ClaimRecord) {
    match call
    case Claim(_, _, alive, _) => c.pid in alive
    case Release(instance) => instance != c.instance
  }

  /** A claim writes, and so sweeps, exactly if its instance has no live claim and some slot no live holder. */
  lemma ClaimWritesIff(max: nat, claims: seq<ClaimRecord>, call: Call)
    requires call.Claim? && Consistent(claims, max)
    ensures FindByInstance(Swept(claims, call.alive), call.instance).None? && Answer(max, claims, call).Ok? <==>
            && (forall n :: !LiveInstance(claims, call.alive, call.instance, n))
            && exists n: nat :: n < max && !LiveSlot(claims, call.alive, n)
  {
    hide FirstFree, LiveSlot, Consistent;
    var registry := Swept(claims, call.alive);
    AnswerIsLowest(max, claims, call);
    SweptIsThinned(claims, call.alive);
    FindByInstanceMeans(registry, call.instance);
    if FindByInstance(registry, call.instance).Some? {
      var c := FindByInstance(registry, call.instance).value;
      assert LiveInstance(claims, call.alive, call.instance, c.slot);
    } else {
      assert forall d | d in claims && d.pid in call.alive :: d in registry && d.instance != call.instance;
    }
  }

  /** A call drops a claim exactly if it releases its instance, or claims for an instance without a live
      claim while the process of this one is dead and some slot has no live holder, and does not write the very
      same claim again, as a caller that is dead itself might. */
  lemma CallDropsIff(max: nat, claims: seq<ClaimRecord>, call: Call, c: ClaimRecord)
    requires Consistent(claims, max) && c in claims
    ensures c !in After(max, claims, call) <==>
            match call
            case Release(instance) => instance == c.instance
            case Claim(instance, pid, alive, time) =>
              && c.pid !in alive
              && (forall n :: !LiveInstance(claims, alive, instance, n))
              && (exists n: nat :: n < max && !LiveSlot(claims, alive, n))
              && (c == ClaimRecord(c.slot, instance, pid, time) ==> Answer(max, claims, call) != Ok(c.slot))
  {
    hide LiveSlot, LiveInstance;
    match call
    case Release(instance) => RemovedIsThinned(claims, instance, max);
    case Claim(instance, pid, alive, time) =>
      ClaimWritesIff(max, claims, call);
      SweptIsThinned(claims, alive);
  }

  /** A claim outlives every call that spares it. */
  lemma {:induction false} SparedClaimsStay(max: nat, calls: seq<Call>, k: nat, c: ClaimRecord)
    requires k <= |calls| && c in RunClaims(max, calls[..k])
    requires forall j :: k <= j < |calls| ==> Spares(calls[j], c)
    ensures c in RunClaims(max, calls)
    decreases |calls|
  {
    if k == |calls| {
      assert calls[..k] == calls;
    } else {
      var before, last := calls[..|calls| - 1], calls[|calls| - 1];
      assert before[..k] == calls[..k];
      SparedClaimsStay(max, before, k, c);
      RunIsConsistent(max, before);
      SparedOnce(max, RunClaims(max, before), last, c);
    }
  }

  lemma SparedOnce(max: nat, claims: seq<ClaimRecord>, call: Call, c: ClaimRecord)
    requires Consistent(claims, max) && c in claims && Spares(call, c)
    ensures c in After(max, claims, call)
  {
    match call
    case Release(instance) => RemovedIsThinned(claims, instance, max);
    case Claim(_, _, alive, _) => SweptIsThinned(claims, alive);
  }

  lemma DistinctClaims(claims: seq<ClaimRecord>, max: nat, c: ClaimRecord, d: ClaimRecord)
    requires Consistent(claims, max) && c in claims && d in claims && c != d
    ensures c.slot != d.slot && c.instance != d.instance && c.slot < max && d.slot < max
  {
    var i :| 0 <= i < |claims| && claims[i] == c;
    var j :| 0 <= j < |claims| && claims[j] == d;
    if i < j {
      assert claims[i].slot != claims[j].slot;
    } else {
      assert claims[j].slot != claims[i].slot;
    }
  }

  // ----- what an answer is worth

  /** A claim of an instance that has a live one changes nothing, nor does one that finds no slot. Any other leaves
      the live claims, in order, and behind them one record of what was answered. */
  lemma ClaimRecords(max: nat, claims: seq<ClaimRecord>, call: Call)
    requires call.Claim? && Consistent(claims, max)
    ensures var after := After(max, claims, call);
            match Answer(max, claims, call)
            case Err(_) => after == claims
            case Ok(slot) =>
              if exists n :: LiveInstance(claims, call.alive, call.instance, n) then after == claims
              else
                && after != [] && after[|after| - 1] == ClaimRecord(slot, call.instance, call.pid, call.time)
                && Thinned(after[..|after| - 1], claims)
                && forall c :: c in after[..|after| - 1] <==> c in claims && c.pid in call.alive
  {
    hide FirstFree, Consistent, LiveInstance;
    ClaimWritesIff(max, claims, call);
    AnswerIsLowest(max, claims, call);
    var registry := Swept(claims, call.alive);
    SweptIsThinned(claims, call.alive);
    var after := After(max, claims, call);
    if FindByInstance(registry, call.instance).None? && Answer(max, claims, call).Ok? {
      assert after[..|after| - 1] == registry;
    }
  }

  /** Who is given a slot holds it: the registry has a record of it, of the caller or of a process alive. */
  lemma GrantedIsRecorded(max: nat, claims: seq<ClaimRecord>, call: Call) returns (holder: ClaimRecord)
    requires call.Claim? && Consistent(claims, max) && Answer(max, claims, call).Ok?
    ensures holder in After(max, claims, call)
    ensures holder.instance == call.instance && Answer(max, claims, call) == Ok(holder.slot)
    ensures if exists n :: LiveInstance(claims, call.alive, call.instance, n) then holder.pid in call.alive
            else holder == ClaimRecord(holder.slot, call.instance, call.pid, call.time)
    ensures call.pid in call.alive ==> LiveInstance(After(max, claims, call), call.alive, call.instance, holder.slot)
  {
    ClaimRecords(max, claims, call);
    AnswerIsLowest(max, claims, call);
    hide After, Answer, Consistent;
    var slot := Answer(max, claims, call).value;
    if exists n :: LiveInstance(claims, call.alive, call.instance, n) {
      holder :| holder in claims && holder.pid in call.alive && holder.instance == call.instance && holder.slot == slot;
    } else {
      holder := ClaimRecord(slot, call.instance, call.pid, call.time);
    }
  }

  function AnswerAt(max: nat, calls: seq<Call>, k: nat): Result<nat, ClaimError>
    requires k < |calls| && calls[k].Claim?
  {
    Answer(max, RunClaims(max, calls[..k]), calls[k])
  }

  lemma RunOneMore(max: nat, calls: seq<Call>, k: nat)
    requires k < |calls|
    ensures RunClaims(max, calls[..k + 1]) == After(max, RunClaims(max, calls[..k]), calls[k])
  {
    assert calls[..k + 1][..k] == calls[..k];
  }

  /** While a claim stands, its instance is answered with its slot and every other instance with another one. */
  lemma StandingDecides(max: nat, claims: seq<ClaimRecord>, call: Call, c: ClaimRecord)
    requires call.Claim? && Consistent(claims, max) && c in claims && c.pid in call.alive
    ensures call.instance == c.instance ==> Answer(max, claims, call) == Ok(c.slot)
    ensures call.instance != c.instance ==> Answer(max, claims, call) != Ok(c.slot)
  {
    hide FirstFree, Answer;
    AnswerIsLowest(max, claims, call);
    assert LiveInstance(claims, call.alive, c.instance, c.slot) && LiveSlot(claims, call.alive, c.slot);
    forall d | d in claims && d != c ensures d.slot != c.slot && d.instance != c.instance {
      DistinctClaims(claims, max, c, d);
    }
  }

  /** Each granted claim has a holder, its caller where nobody alive held the worktree before. As long as that
      process lives and nobody releases the worktree, a claim for the same worktree is answered with the same slot,
      and a claim for another one with another. */
  lemma GrantsStayApart(max: nat, calls: seq<Call>, j: nat, k: nat) returns (holder: ClaimRecord)
    requires j < k < |calls| && calls[j].Claim? && calls[k].Claim? && AnswerAt(max, calls, j).Ok?
    ensures holder.instance == calls[j].instance && AnswerAt(max, calls, j) == Ok(holder.slot)
    ensures holder.pid == calls[j].pid || holder.pid in calls[j].alive
    ensures (forall n :: !LiveInstance(RunClaims(max, calls[..j]), calls[j].alive, calls[j].instance, n)) ==>
              holder.pid == calls[j].pid
    ensures (forall i :: j < i <= k ==> Spares(calls[i], holder)) ==>
              if calls[k].instance == calls[j].instance then AnswerAt(max, calls, k) == AnswerAt(max, calls, j)
              else AnswerAt(max, calls, k) != AnswerAt(max, calls, j)
  {
    hide Answer, After, Consistent, LiveInstance, RunClaims;
    RunIsConsistent(max, calls[..j]);
    RunIsConsistent(max, calls[..k]);
    holder := GrantedIsRecorded(max, RunClaims(max, calls[..j]), calls[j]);
    RunOneMore(max, calls, j);
    if forall i :: j < i <= k ==> Spares(calls[i], holder) {
      assert calls[..k][..j + 1] == calls[..j + 1];
      SparedClaimsStay(max, calls[..k], j + 1, holder);
      assert Spares(calls[k], holder);
      StandingDecides(max, RunClaims(max, calls[..k]), calls[k], holder);
    }
  }

  // ----- ports

  const MAX_PORT := 65535

  datatype PortSpec = SlotOffset(base: nat, slotOffset: nat) | Fixed(fixed: nat)

  function Saturated(n: nat): nat {
    if n > MAX_PORT then MAX_PORT else n
  }

  /** 16-bit arithmetic that stops at the largest port. */
  function Resolve(spec: PortSpec, slot: nat): nat {
    match spec
    case SlotOffset(base, offset) => Saturated(base + Saturated(slot * offset))
    case Fixed(port) => port
  }

  /** The port is the base plus an offset for each slot below, as long as that is a port, and the largest one after
      that; a fixed port is the same in every slot. */
  lemma ResolveMeans(base: nat, offset: nat, fixed: nat, slot: nat)
    ensures base + slot * offset <= MAX_PORT ==> Resolve(SlotOffset(base, offset), slot) == base + slot * offset
    ensures base + slot * offset > MAX_PORT ==> Resolve(SlotOffset(base, offset), slot) == 65535
    ensures Resolve(Fixed(fixed), slot) == fixed
  {
    assert slot * offset >= 0;
  }

  lemma OffsetsGrow(offset: nat, s: nat, t: nat)
    requires s < t
    ensures s * offset + offset <= t * offset
  {
    var gap := t - s;
    assert t * offset == s * offset + gap * offset;
    assert gap * offset == offset + (gap - 1) * offset;
  }

  /** Two slots get different ports exactly if there is an offset and the lower one does not saturate. */
  lemma PortsDifferIff(base: nat, offset: nat, s: nat, t: nat)
    requires s < t
    ensures Resolve(SlotOffset(base, offset), s) != Resolve(SlotOffset(base, offset), t) <==>
            0 < offset && base + s * offset < MAX_PORT
  {
    OffsetsGrow(offset, s, t);
    if offset == 0 {
      assert s * offset == 0 && t * offset == 0;
    }
  }

  lemma OwnPorts(base: nat, offset: nat, s: nat, t: nat)
    requires s < t && 0 < offset && base + t * offset <= MAX_PORT
    ensures Resolve(SlotOffset(base, offset), s) != Resolve(SlotOffset(base, offset), t)
  {
    OffsetsGrow(offset, s, t);
    PortsDifferIff(base, offset, s, t);
  }

  /** Two claims standing at the same time have distinct slots, so a service with an offset whose
      ports fit in 16 bits has a port of its own in each worktree. */
  lemma WorktreesGetTheirOwnPorts(max: nat, calls: seq<Call>, c: ClaimRecord, d: ClaimRecord, base: nat, offset: nat)
    requires c in RunClaims(max, calls) && d in RunClaims(max, calls) && c != d
    requires 0 < offset && base + c.slot * offset <= MAX_PORT && base + d.slot * offset <= MAX_PORT
    ensures c.instance != d.instance && c.slot < max && d.slot < max
    ensures Resolve(SlotOffset(base, offset), c.slot) != Resolve(SlotOffset(base, offset), d.slot)
  {
    RunIsConsistent(max, calls);
    DistinctClaims(RunClaims(max, calls), max, c, d);
    if c.slot < d.slot {
      OwnPorts(base, offset, c.slot, d.slot);
    } else {
      OwnPorts(base, offset, d.slot, c.slot);
    }
  }

  /** A worktree served by a second process is not protected: its slot goes when the first process
      does, although the second was given the same slot, is alive and released nothing. */
  lemma SharedWorktreeLosesItsSlot()
    ensures var shared := [Claim("a", 1, {1, 2}, 0), Claim("a", 2, {1, 2}, 0)];
            && Answer(DEFAULT_MAX_SLOTS, RunClaims(DEFAULT_MAX_SLOTS, shared[..1]), shared[1]) == Ok(0)
            && Answer(DEFAULT_MAX_SLOTS, RunClaims(DEFAULT_MAX_SLOTS, shared), Claim("b", 3, {2, 3}, 0)) == Ok(0)
  {
    var shared := [Claim("a", 1, {1, 2}, 0), Claim("a", 2, {1, 2}, 0)];
    var c := ClaimRecord(0, "a", 1, 0);
    assert shared[..1] == [shared[0]] && shared[..1][..0] == [];
    assert RunClaims(DEFAULT_MAX_SLOTS, shared[..1]) == [c];
    assert [c][1..] == [];
    assert RunClaims(DEFAULT_MAX_SLOTS, shared) == [c];
    assert Swept([c], {2, 3}) == [];
  }

  // ----- the allocator

  class SlotAllocator {
    const max: nat
    var claims: seq<ClaimRecord>
    ghost var history: seq<Call>

    constructor (max: nat)
      requires 0 < max <= DEFAULT_MAX_SLOTS
      ensures this.max == max && history == [] && Valid()
    {
      this.max := max;
      claims := [];
      history := [];
    }

    ghost predicate Valid()
      reads this
    {
      0 < max <= DEFAULT_MAX_SLOTS && claims == RunClaims(max, history)
    }

    method FirstFreeSlot(registry: seq<ClaimRecord>) returns (r: Result<nat, ClaimError>)
      ensures match FirstFree(registry, 0, max)
              case Some(slot) => r == Ok(slot)
              case None => r == Err(Exhausted(max))
    {
      for n := 0 to max
        invariant FirstFree(registry, n, max) == FirstFree(registry, 0, max)
      {
        if FindBySlot(registry, n) == None {
          return Ok(n);
        }
      }
      return Err(Exhausted(max));
    }

    /** Claims a slot for `instance` on behalf of process `pid`, while the processes `alive` run. */
    method Claim(instance: Instance, pid: Pid, alive: set<Pid>, time: nat) returns (r: Result<nat, ClaimError>)
      requires Valid()
      modifies this
      ensures Valid() && history == old(history) + [Call.Claim(instance, pid, alive, time)]
      ensures r == Answer(max, old(claims), Call.Claim(instance, pid, alive, time))
      ensures claims == After(max, old(claims), Call.Claim(instance, pid, alive, time))
      ensures r.Ok? && pid in alive ==> LiveInstance(claims, alive, instance, r.value)
      ensures r.Ok? && pid !in alive ==> exists c :: c in claims && c.instance == instance && c.slot == r.value
    {
      ghost var call := Call.Claim(instance, pid, alive, time);
      RunIsConsistent(max, history);
      if Answer(max, claims, call).Ok? {
        var holder := GrantedIsRecorded(max, claims, call);
      }
      var registry := Swept(claims, alive);
      history := history + [Call.Claim(instance, pid, alive, time)];
      assert history[..|history| - 1] == old(history);
      var existing := FindByInstance(registry, instance);
      if existing.Some? {
        return Ok(existing.value.slot);
      }
      r := FirstFreeSlot(registry);
      if r.Err? {
        return;
      }
      registry := registry + [ClaimRecord(r.value, instance, pid, time)];
      claims := registry;
    }

    /** Gives up the slot of `instance`, if it has one. */
    method Release(instance: Instance)
      requires Valid()
      modifies this
      ensures Valid() && history == old(history) + [Call.Release(instance)]
      ensures claims == After(max, old(claims), Call.Release(instance))
      ensures forall c :: c in claims <==> c in old(claims) && c.instance != instance
    {
      RunIsConsistent(max, history);
      RemovedIsThinned(claims, instance, max);
      claims := RemoveByInstance(claims, instance);
      history := history + [Call.Release(instance)];
      assert history[..|history| - 1] == old(history);
    }

    /** The live claims; the registry is left as it is. */
    method List(alive: set<Pid>) returns (live: seq<ClaimRecord>)
      requires Valid()
      ensures Thinned(live, claims) && Consistent(live, max)
      ensures forall c :: c in live <==> c in claims && c.pid in alive
    {
      RunIsConsistent(max, history);
      SweptIsThinned(claims, alive);
      ThinnedStaysConsistent(Swept(claims, alive), claims, max);
      live := Swept(claims, alive);
    }
  }
}
