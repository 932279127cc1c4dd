/** The cache of opened provider runtimes (internal/backend/provider_runtime_cache.go).

    Each method is one section under the cache lock, one provider call or one close, so
    any sequence of calls is an interleaving of callers. `history` is never read by the
    code: it records when builds started and what became of each opened runtime. */
module RuntimeCaching {
  import opened Records

  datatype Entry = Entry(fingerprint: string, runtime: nat)

  /** What a builder keeps across the provider call. */
  datatype Ticket = Ticket(build: nat, ref: string, fingerprint: string, cacheEpoch: nat, destinationEpoch: nat)

  datatype Lookup = Hit(runtime: nat) | Wait(build: nat) | Build(ticket: Ticket)

  // -------------------------------------------------------------------- history

  /** Owned means one caller holds it and will close it. */
  datatype RuntimeState = Owned(caller: nat) | Cached | Closed

  datatype Runtime = Runtime(ref: string, fingerprint: string, started: nat, state: RuntimeState, closes: nat)

  datatype Running = Running(ticket: Ticket, started: nat)

  /** `cleared` and `invalidated` hold the times of the latest clear and invalidations. */
  datatype History = History(
    clock: nat, cleared: nat, invalidated: map<string, nat>, running: map<nat, Running>, runtimes: map<nat, Runtime>)
  {
    function InvalidatedAt(ref: string): nat { if ref in invalidated then invalidated[ref] else 0 }

    function Tick(): History { this.(clock := clock + 1) }

    function With(runtime: nat, state: RuntimeState): History
      requires runtime in runtimes
    {
      var r := runtimes[runtime];
      this.(runtimes := runtimes[runtime := r.(state := state, closes := r.closes + if state == Closed then 1 else 0)])
    }
  }

  /** Runtimes after `runtime` is cached and the replaced one handed to the caller. */
  ghost function Handover(h: History, stale: Option<nat>, caller: nat, runtime: nat): map<nat, Runtime>
    requires runtime in h.runtimes && (stale.Some? ==> stale.value in h.runtimes)
  {
    (if stale.Some? then h.With(stale.value, Owned(caller)) else h).With(runtime, Cached).runtimes
  }

  /** A cached runtime comes from a build that started after the latest clear and the
      latest invalidation of its destination, with the fingerprint of its entry. */
  ghost predicate CacheIsCurrent(cache: map<string, Entry>, h: History) {
    forall ref :: ref in cache ==>
      var runtime := cache[ref].runtime;
      runtime in h.runtimes &&
      var o := h.runtimes[runtime];
      o.state == Cached && o.ref == ref && o.fingerprint == cache[ref].fingerprint &&
      h.cleared < o.started && h.InvalidatedAt(ref) < o.started
  }

  /** Every opened runtime is cached under its destination, owned by one caller, or
      closed; and it was closed once if closed, never otherwise. */
  ghost predicate OwnedOnce(cache: map<string, Entry>, h: History, nextRuntime: nat) {
    (forall r :: r in h.runtimes ==>
      r < nextRuntime && h.runtimes[r].closes == (if h.runtimes[r].state == Closed then 1 else 0)) &&
    forall r :: r in h.runtimes && h.runtimes[r].state == Cached ==>
      h.runtimes[r].ref in cache && cache[h.runtimes[r].ref].runtime == r
  }

  /** Runtimes after a clear hands the cached ones to its caller. */
  ghost function HandedTo(runtimes: map<nat, Runtime>, removed: set<nat>, caller: nat): map<nat, Runtime> {
    map r | r in runtimes :: if r in removed then runtimes[r].(state := Owned(caller)) else runtimes[r]
  }

  /** What a build's right to publish depends on. */
  datatype Epochs = Epochs(
    clock: nat, cleared: nat, invalidated: map<string, nat>, cacheEpoch: nat, destinationEpochs: map<string, nat>,
    runtimeBuilds: map<string, nat>, nextBuild: nat)

  ghost predicate Tracked(b: nat, running: Running, e: Epochs) {
    var t := running.ticket;
    t.build == b < e.nextBuild && 0 < running.started <= e.clock && t.cacheEpoch <= e.cacheEpoch &&
    (t.cacheEpoch == e.cacheEpoch ==>
      e.cleared < running.started && t.ref in e.runtimeBuilds && e.runtimeBuilds[t.ref] == b &&
      t.destinationEpoch <= EpochOf(e.destinationEpochs, t.ref) &&
      (t.destinationEpoch == EpochOf(e.destinationEpochs, t.ref) ==>
        t.ref in e.invalidated ==> e.invalidated[t.ref] < running.started))
  }

  ghost predicate AllTracked(running: map<nat, Running>, e: Epochs) {
    (forall b :: b in running ==> Tracked(b, running[b], e)) &&
    forall ref :: ref in e.runtimeBuilds ==> e.runtimeBuilds[ref] in running && running[e.runtimeBuilds[ref]].ticket.ref == ref
  }

  function EpochOf(epochs: map<string, nat>, ref: string): nat { if ref in epochs then epochs[ref] else 0 }

  lemma HandoverKeepsOwnership(
    cache: map<string, Entry>, h: History, nextRuntime: nat, ticket: Ticket, stale: Option<nat>, runtime: nat)
    requires CacheIsCurrent(cache, h) && OwnedOnce(cache, h, nextRuntime)
    requires runtime in h.runtimes && h.runtimes[runtime].state == Owned(ticket.build) &&
      h.runtimes[runtime].ref == ticket.ref
    requires h.runtimes[runtime].fingerprint == ticket.fingerprint
    requires h.cleared < h.runtimes[runtime].started && h.InvalidatedAt(ticket.ref) < h.runtimes[runtime].started
    requires stale == if ticket.ref in cache then Some(cache[ticket.ref].runtime) else None
    ensures stale.Some? ==> stale.value in h.runtimes && stale.value != runtime
    ensures var cache' := cache[ticket.ref := Entry(ticket.fingerprint, runtime)];
      var h' := h.(runtimes := Handover(h, stale, ticket.build, runtime));
      CacheIsCurrent(cache', h') && OwnedOnce(cache', h', nextRuntime)
  {
  }

  class RuntimeCache {
    var runtimeCache: map<string, Entry>
    var runtimeBuilds: map<string, nat>
    var cacheEpoch: nat
    var destinationEpochs: map<string, nat>
    var nextBuild: nat
    var nextRuntime: nat
    ghost var history: History

    function DestinationEpoch(ref: string): nat
      reads this
    {
      EpochOf(destinationEpochs, ref)
    }

    /** Builds that may still publish: one per destination, and none an epoch lets
        through that a clear or an invalidation should have stopped. */
    ghost predicate BuildsAreTracked()
      reads this
    {
      AllTracked(history.running, Epochs(history.clock, history.cleared, history.invalidated,
                                         cacheEpoch, destinationEpochs, runtimeBuilds, nextBuild))
    }

    ghost predicate Valid()
      reads this
    {
      CacheIsCurrent(runtimeCache, history) && OwnedOnce(runtimeCache, history, nextRuntime) && BuildsAreTracked() &&
      history.cleared <= history.clock &&
      forall ref :: ref in history.invalidated ==> history.invalidated[ref] <= history.clock
    }

    constructor ()
      ensures Valid() && history.runtimes == map[] && history.running == map[]
    {
      runtimeCache, runtimeBuilds, cacheEpoch, destinationEpochs := map[], map[], 0, map[];
      nextBuild, nextRuntime := 0, 0;
      history := History(0, 0, map[], map[], map[]);
    }

    /** The locked section at the top of cachedDestinationRuntime. */
    method Find(ref: string, fingerprint: string) returns (lookup: Lookup)
      requires Valid()
      modifies this
      ensures Valid() && history.runtimes == old(history).runtimes && runtimeCache == old(runtimeCache)
      ensures lookup.Hit? <==> ref in runtimeCache && runtimeCache[ref].fingerprint == fingerprint
      ensures lookup.Hit? ==> lookup.runtime == runtimeCache[ref].runtime && lookup.runtime in history.runtimes
      ensures lookup.Hit? ==> history.runtimes[lookup.runtime].fingerprint == fingerprint
      ensures lookup.Wait? ==> lookup.build in history.running && history.running[lookup.build].ticket.ref == ref
      ensures lookup.Build? <==> !lookup.Hit? && ref !in old(runtimeBuilds)
      ensures lookup.Build? ==>
        lookup.ticket == Ticket(old(nextBuild), ref, fingerprint, cacheEpoch, DestinationEpoch(ref)) &&
        history == old(history).Tick().(
          running := old(history).running[old(nextBuild) := Running(lookup.ticket, old(history).clock + 1)]) &&
        runtimeBuilds == old(runtimeBuilds)[ref := old(nextBuild)]
      ensures !lookup.Build? ==> history == old(history) && runtimeBuilds == old(runtimeBuilds)
      ensures cacheEpoch == old(cacheEpoch) && destinationEpochs == old(destinationEpochs)
    {
      if ref in runtimeCache && runtimeCache[ref].fingerprint == fingerprint {
        return Hit(runtimeCache[ref].runtime);
      }
      if ref in runtimeBuilds {
        return Wait(runtimeBuilds[ref]);
      }
      var ticket := Ticket(nextBuild, ref, fingerprint, cacheEpoch, DestinationEpoch(ref));
      runtimeBuilds := runtimeBuilds[ref := nextBuild];
      history := history.Tick().(running := history.running[nextBuild := Running(ticket, history.clock + 1)]);
      nextBuild := nextBuild + 1;
      lookup := Build(ticket);
    }

    /** A successful OpenDestination for a build: the builder owns the runtime. */
    method Open(ticket: Ticket) returns (runtime: nat)
      requires Valid() && ticket.build in history.running && history.running[ticket.build].ticket == ticket
      modifies this`nextRuntime, this`history
      ensures Valid() && runtime !in old(history).runtimes
      ensures history == old(history).(runtimes := old(history).runtimes[runtime :=
        Runtime(ticket.ref, ticket.fingerprint, old(history).running[ticket.build].started, Owned(ticket.build), 0)])
    {
      runtime := nextRuntime;
      nextRuntime := nextRuntime + 1;
      history := history.(runtimes := history.runtimes[runtime :=
        Runtime(ticket.ref, ticket.fingerprint, history.running[ticket.build].started, Owned(ticket.build), 0)]);
    }

    /** The runtime a builder has opened, in its hands. */
    ghost predicate Built(ticket: Ticket, runtime: nat)
      requires ticket.build in history.running
      reads this
    {
      runtime in history.runtimes && history.runtimes[runtime] ==
        Runtime(ticket.ref, ticket.fingerprint, history.running[ticket.build].started, Owned(ticket.build), 0)
    }

    ghost predicate InProgress(ticket: Ticket)
      reads this
    {
      ticket.build in history.running && history.running[ticket.build].ticket == ticket
    }

    /** Caching a runtime no invalidation raced with. */
    method Publish(ticket: Ticket, runtime: nat) returns (stale: Option<nat>)
      requires Valid() && InProgress(ticket) && Built(ticket, runtime)
      requires ticket.cacheEpoch == cacheEpoch && ticket.destinationEpoch == DestinationEpoch(ticket.ref)
      modifies this`runtimeCache, this`history
      ensures Valid() && InProgress(ticket)
      ensures runtimeCache == old(runtimeCache)[ticket.ref := Entry(ticket.fingerprint, runtime)]
      ensures stale == if ticket.ref in old(runtimeCache) then Some(old(runtimeCache)[ticket.ref].runtime) else None
      ensures stale.Some? ==> stale.value in old(history).runtimes && stale.value != runtime
      ensures history == old(history).(runtimes := Handover(old(history), stale, ticket.build, runtime))
    {
      assert ticket.build in history.running && BuildsAreTracked();
      stale := None;
      HandoverKeepsOwnership(runtimeCache, history, nextRuntime, ticket,
        if ticket.ref in runtimeCache then Some(runtimeCache[ticket.ref].runtime) else None, runtime);
      if ticket.ref in runtimeCache {
        stale := Some(runtimeCache[ticket.ref].runtime);
        history := history.With(stale.value, Owned(ticket.build));
      }
      runtimeCache := runtimeCache[ticket.ref := Entry(ticket.fingerprint, runtime)];
      history := history.With(runtime, Cached);
    }

    /** Removing a build record, unless a clear has dropped it already. */
    method Unregister(ticket: Ticket)
      requires Valid() && InProgress(ticket)
      modifies this`runtimeBuilds, this`history
      ensures Valid() && history == old(history).(running := old(history).running - {ticket.build})
      ensures runtimeBuilds == old(runtimeBuilds) -
        if ticket.ref in old(runtimeBuilds) && old(runtimeBuilds)[ticket.ref] == ticket.build then {ticket.ref} else {}
    {
      if ticket.ref in runtimeBuilds && runtimeBuilds[ticket.ref] == ticket.build {
        runtimeBuilds := runtimeBuilds - {ticket.ref};
      } else {
        assert runtimeBuilds - {} == runtimeBuilds;
      }
      history := history.(running := history.running - {ticket.build});
    }

    /** The locked section of finishDestinationRuntimeBuild; `result` is None if the build
        failed. A runtime that is not cached stays with the builder, who also gets the
        replaced one to close. */
    method Finish(ticket: Ticket, result: Option<nat>) returns (cached: bool, stale: Option<nat>)
      requires Valid() && InProgress(ticket) && (result.Some? ==> Built(ticket, result.value))
      modifies this`runtimeCache, this`runtimeBuilds, this`history
      ensures Valid()
      ensures cached <==>
        result.Some? && ticket.cacheEpoch == cacheEpoch && ticket.destinationEpoch == DestinationEpoch(ticket.ref)
      ensures cached ==> runtimeCache == old(runtimeCache)[ticket.ref := Entry(ticket.fingerprint, result.value)]
      ensures cached ==>
        stale == if ticket.ref in old(runtimeCache) then Some(old(runtimeCache)[ticket.ref].runtime) else None
      ensures stale.Some? ==> stale.value in old(history).runtimes
      ensures history == old(history).(
        running := old(history).running - {ticket.build},
        runtimes := if cached then Handover(old(history), stale, ticket.build, result.value) else old(history).runtimes)
      ensures !cached ==> runtimeCache == old(runtimeCache) && stale == None
      ensures runtimeBuilds == old(runtimeBuilds) -
        if ticket.ref in old(runtimeBuilds) && old(runtimeBuilds)[ticket.ref] == ticket.build then {ticket.ref} else {}
    {
      cached, stale := false, None;
      if result.Some? && ticket.cacheEpoch == cacheEpoch && ticket.destinationEpoch == DestinationEpoch(ticket.ref) {
        stale := Publish(ticket, result.value);
        cached := true;
      }
      Unregister(ticket);
    }

    /** closeDestinationRuntime: a release, or the close of a replaced or removed runtime. */
    method Close(runtime: nat, ghost caller: nat)
      requires Valid() && runtime in history.runtimes && history.runtimes[runtime].state == Owned(caller)
      modifies this`history
      ensures Valid() && history == old(history).With(runtime, Closed)
      ensures history.runtimes[runtime].closes == 1
    {
      history := history.With(runtime, Closed);
    }

    /** The locked section of invalidateDestinationRuntime. */
    method Invalidate(ref: string, ghost caller: nat) returns (removed: Option<nat>)
      requires Valid()
      modifies this`runtimeCache, this`destinationEpochs, this`history
      ensures Valid() && ref !in runtimeCache && runtimeCache == old(runtimeCache) - {ref}
      ensures removed == if ref in old(runtimeCache) then Some(old(runtimeCache)[ref].runtime) else None
      ensures removed.Some? ==> removed.value in old(history).runtimes
      ensures DestinationEpoch(ref) == old(DestinationEpoch(ref)) + 1
      ensures history ==
        (if removed.Some? then old(history).With(removed.value, Owned(caller)) else old(history)).Tick().(
          invalidated := old(history).invalidated[ref := old(history).clock + 1])
    {
      removed := None;
      if ref in runtimeCache {
        removed := Some(runtimeCache[ref].runtime);
        history := history.With(removed.value, Owned(caller));
        runtimeCache := runtimeCache - {ref};
      }
      destinationEpochs := destinationEpochs[ref := DestinationEpoch(ref) + 1];
      history := history.Tick().(invalidated := history.invalidated[ref := history.clock + 1]);
    }

    /** The locked section of clearDestinationRuntimes: the per-destination epochs start
        again from zero. */
    method Clear(ghost caller: nat) returns (removed: set<nat>)
      requires Valid()
      modifies this
      ensures Valid() && runtimeCache == map[] && runtimeBuilds == map[] && destinationEpochs == map[]
      ensures cacheEpoch == old(cacheEpoch) + 1
      ensures removed == set ref | ref in old(runtimeCache) :: old(runtimeCache)[ref].runtime
      ensures forall r :: r in removed ==> r in old(history).runtimes && old(history).runtimes[r].state == Cached
      ensures history == old(history).Tick().(
        cleared := old(history).clock + 1, runtimes := HandedTo(old(history).runtimes, removed, caller))
    {
      removed := set ref | ref in runtimeCache :: runtimeCache[ref].runtime;
      runtimeCache, runtimeBuilds, destinationEpochs := map[], map[], map[];
      cacheEpoch := cacheEpoch + 1;
      history := history.Tick().(cleared := history.clock + 1, runtimes := HandedTo(history.runtimes, removed, caller));
    }

    /** A runtime opened while caching is disabled belongs to its caller. */
    method OpenUncached(ref: string, fingerprint: string, ghost caller: nat) returns (runtime: nat)
      requires Valid()
      modifies this`nextRuntime, this`history
      ensures Valid() && runtime !in old(history).runtimes
      ensures history == old(history).(runtimes := old(history).runtimes[runtime :=
        Runtime(ref, fingerprint, old(history).clock, Owned(caller), 0)])
    {
      runtime := nextRuntime;
      nextRuntime := nextRuntime + 1;
      history := history.(runtimes := history.runtimes[runtime := Runtime(ref, fingerprint, history.clock, Owned(caller), 0)]);
    }

    /** A build never publishes across a clear or an invalidation of its destination. */
    lemma LatePublishIsRefused(ticket: Ticket)
      requires Valid() && ticket.build in history.running && history.running[ticket.build].ticket == ticket
      ensures history.running[ticket.build].started <= history.cleared ||
              history.running[ticket.build].started <= history.InvalidatedAt(ticket.ref) ==>
              !(ticket.cacheEpoch == cacheEpoch && ticket.destinationEpoch == DestinationEpoch(ticket.ref))
    {
      assert ticket.build in history.running && BuildsAreTracked();
    }

    /** Builds are coalesced: no two of one destination can both still publish. */
    lemma OneBuildCanPublish(a: Ticket, b: Ticket)
      requires Valid() && a.build in history.running && history.running[a.build].ticket == a
      requires b.build in history.running && history.running[b.build].ticket == b && a.ref == b.ref
      requires a.cacheEpoch == cacheEpoch && b.cacheEpoch == cacheEpoch
      ensures a == b
    {
      assert BuildsAreTracked();
    }
  }

  // -------------------------------------------------------------- interleavings

  datatype Action =
    | Look(ref: string, fingerprint: string)
    | OpenFor(build: nat)
    | FinishBuild(build: nat)
    | OpenDirectly(ref: string, fingerprint: string, caller: nat)
    | CloseOne(runtime: nat)
    | InvalidateOne(ref: string, caller: nat)
    | ClearAll(caller: nat)

  datatype BuildUnderWay = BuildUnderWay(ticket: Ticket, runtime: Option<nat>)

  /** The builds under way, with the runtime each has opened so far. */
  ghost predicate Tracks(cache: RuntimeCache, pending: map<nat, BuildUnderWay>)
    reads cache
  {
    forall b :: b in pending ==>
      pending[b].ticket.build == b && cache.InProgress(pending[b].ticket) &&
      (pending[b].runtime.Some? ==> cache.Built(pending[b].ticket, pending[b].runtime.value))
  }

  /** `held` is exactly the owned runtimes, each with its one owner. */
  ghost predicate Holds(h: History, held: map<nat, nat>) {
    forall r :: r in held <==> r in h.runtimes && h.runtimes[r].state.Owned?
  }

  ghost predicate HeldBy(h: History, held: map<nat, nat>) {
    Holds(h, held) && forall r :: r in held ==> h.runtimes[r].state == Owned(held[r])
  }

  predicate InUse(pending: map<nat, BuildUnderWay>, runtime: nat) {
    exists b :: b in pending && pending[b].runtime == Some(runtime)
  }

  /** Any interleaving of lookups, builds, releases, invalidations and clears; actions
      that do not apply are skipped. Whatever is not cached or closed is held by exactly
      one caller, so no opened runtime is ever lost. */
  method Interleave(script: seq<Action>) returns (cache: RuntimeCache, held: map<nat, nat>)
    ensures cache.Valid() && HeldBy(cache.history, held)
  {
    cache := new RuntimeCache();
    held := map[];
    var pending: map<nat, BuildUnderWay> := map[];
    for i := 0 to |script|
      invariant fresh(cache) && cache.Valid() && HeldBy(cache.history, held) && Tracks(cache, pending)
    {
      match script[i] {
        case Look(ref, fingerprint) =>
          pending := LookOne(cache, pending, held, ref, fingerprint);
        case OpenFor(build) =>
          if build in pending && pending[build].runtime.None? {
            pending, held := OpenOne(cache, pending, held, build);
          }
        case FinishBuild(build) =>
          if build in pending {
            held := FinishOne(cache, pending, held, build);
            pending := pending - {build};
          }
        case OpenDirectly(ref, fingerprint, caller) =>
          var runtime := cache.OpenUncached(ref, fingerprint, caller);
          held := held[runtime := caller];
        case CloseOne(runtime) =>
          if runtime in held && !InUse(pending, runtime) {
            cache.Close(runtime, held[runtime]);
            held := held - {runtime};
          }
        case InvalidateOne(ref, caller) =>
          held := InvalidateFor(cache, pending, held, ref, caller);
        case ClearAll(caller) =>
          held := ClearFor(cache, pending, held, caller);
      }
    }
  }

  method LookOne(
    cache: RuntimeCache, pending: map<nat, BuildUnderWay>, ghost held: map<nat, nat>, ref: string, fingerprint: string)
    returns (after: map<nat, BuildUnderWay>)
    requires cache.Valid() && HeldBy(cache.history, held) && Tracks(cache, pending)
    modifies cache
    ensures cache.Valid() && HeldBy(cache.history, held) && Tracks(cache, after)
  {
    var lookup := cache.Find(ref, fingerprint);
    after := if lookup.Build? then pending[lookup.ticket.build := BuildUnderWay(lookup.ticket, None)] else pending;
  }

  method OpenOne(cache: RuntimeCache, pending: map<nat, BuildUnderWay>, held: map<nat, nat>, build: nat)
    returns (after: map<nat, BuildUnderWay>, heldAfter: map<nat, nat>)
    requires cache.Valid() && HeldBy(cache.history, held) && Tracks(cache, pending) && build in pending
    modifies cache
    ensures cache.Valid() && HeldBy(cache.history, heldAfter) && Tracks(cache, after)
  {
    var runtime := cache.Open(pending[build].ticket);
    after := pending[build := BuildUnderWay(pending[build].ticket, Some(runtime))];
    heldAfter := held[runtime := build];
  }

  method InvalidateFor(
    cache: RuntimeCache, ghost pending: map<nat, BuildUnderWay>, held: map<nat, nat>, ref: string, caller: nat)
    returns (after: map<nat, nat>)
    requires cache.Valid() && HeldBy(cache.history, held) && Tracks(cache, pending)
    modifies cache
    ensures cache.Valid() && HeldBy(cache.history, after) && Tracks(cache, pending)
  {
    var removed := cache.Invalidate(ref, caller);
    after := if removed.Some? then held[removed.value := caller] else held;
  }

  method ClearFor(cache: RuntimeCache, ghost pending: map<nat, BuildUnderWay>, held: map<nat, nat>, caller: nat)
    returns (after: map<nat, nat>)
    requires cache.Valid() && HeldBy(cache.history, held) && Tracks(cache, pending)
    modifies cache
    ensures cache.Valid() && HeldBy(cache.history, after) && Tracks(cache, pending)
  {
    var removed := cache.Clear(caller);
    after := held + map r | r in removed :: caller;
  }

  method FinishOne(cache: RuntimeCache, pending: map<nat, BuildUnderWay>, held: map<nat, nat>, build: nat)
    returns (after: map<nat, nat>)
    requires cache.Valid() && HeldBy(cache.history, held) && Tracks(cache, pending) && build in pending
    modifies cache
    ensures cache.Valid() && HeldBy(cache.history, after) && Tracks(cache, pending - {build})
  {
    var cached, stale := cache.Finish(pending[build].ticket, pending[build].runtime);
    after := held;
    if cached {
      after := after - {pending[build].runtime.value};
      if stale.Some? {
        after := after[stale.value := build];
      }
    }
  }
}
