/** Versions and metadata of one source path over any run of requests
    (internal/backend/path_data.go, path_versions.go, path_metadata.go, storage_source.go). */
module SourceRuns {
  import opened Records
  import opened OutboxStorage
  import opened SourceStorage
  import opened SourceMutations
  import opened Recovery
  import opened WriteEffects
  import opened Interruption
  import opened CrashSafety
  import opened SourceHistory

  // ------------------------------------------------------------- completed requests

  /** What a complete commit does to metadata and versions. */
  lemma CommitSource(s: Store, m: Mutation)
    requires IndexComplete(s) && VersionDeletes(m.prune) && DistinctIds(m.operations)
    requires Unclaimed(s, m.cancelIds, m.now) && m.now <= m.cancelTime
    ensures Completed(s, m).metadata == s.metadata[m.path := m.metadata]
    ensures Completed(s, m).versions ==
      (if m.touchesVersion then s.versions[Key(m) := m.record] else s.versions) - DeletedKeys(m.prune)
  {
    var x := IntentAndSource(s, m);
    var y := CancelEffect(x, m.cancelIds, m.cancelTime);
    var z := PutAllEffect(y, m.operations);
    var cancel, puts := Cancel(x, m.cancelIds, m.cancelTime).writes, PutAllWrites(y, m.operations);
    ApplyConcat(y, puts, CompleteWrites(m));
    ApplyConcat(x, cancel, puts + CompleteWrites(m));
    ApplyConcat(s, IntentWrites(m) + SourceWrites(m), QueueWrites(x, m).writes);
    if m.operations != [] {
      ApplyOne(z, DeleteIntent(m.path, m.record.version));
    }
  }

  lemma IntentAndSource(s: Store, m: Mutation) returns (x: Store)
    requires VersionDeletes(m.prune)
    ensures x == Apply(s, IntentWrites(m) + SourceWrites(m)) && x.outbox == s.outbox
    ensures x.metadata == s.metadata[m.path := m.metadata]
    ensures x.versions == (if m.touchesVersion then s.versions[Key(m) := m.record] else s.versions) - DeletedKeys(m.prune)
  {
    var put := PutMetadata(m.path, m.metadata);
    var version := if m.touchesVersion then [PutVersion(m.path, m.record)] else [];
    var x1 := Apply(s, IntentWrites(m));
    if m.operations != [] {
      ApplyOne(s, PutIntent(IntentOf(m)));
    }
    var x2 := Apply(x1, version);
    ApplyOne(x1, PutVersion(m.path, m.record));
    DeletesEffect(x2, m.prune);
    var x3 := Apply(x2, m.prune);
    ApplyOne(x3, put);
    ApplyConcat(x1, version, m.prune);
    ApplyConcat(x1, version + m.prune, [put]);
    ApplyConcat(s, IntentWrites(m), SourceWrites(m));
    x := Step(x3, put);
  }

  /** A request left metadata and versions as if complete, or, where the crash theorem
      allows it, was interrupted, recovered and came to nothing. */
  ghost predicate EndsAs(s: Store, m: Mutation, z: Store) {
    SameOutcome(Completed(s, m), z) || (AllOrNothing(s, m) && SameOutcome(s, z))
  }

  /** Version mutations outside the enqueue protocol: other versions than the current
      one, and undeleting what is not deleted. */
  function DirectWrites(
    s: Store, kind: VersionMutationKind, path: string, metadata: Metadata, version: nat, now: Time): seq<Write> {
    if (path, version) !in s.versions || Ignores(kind, s.versions[(path, version)]) then [PutMetadata(path, metadata)]
    else
      [PutVersion(path, Mutated(kind, s.versions[(path, version)], now)),
       PutMetadata(path, MutatedMetadata(kind, metadata, version, now))]
  }

  ghost function ChangedMetadata(metadata: Metadata, maxVersions: nat, settings: Settings, now: Time): Metadata {
    metadata.(maxVersions := maxVersions, settings := settings, updatedTime := now)
  }

  ghost function ChangeWrites(
    s: Store, path: string, metadata: Metadata, maxVersions: nat, settings: Settings, order: seq<nat>, now: Time): seq<Write>
  {
    var changed, protected := ChangedMetadata(metadata, maxVersions, settings, now), QueuedUpsertVersions(s.outbox, path);
    DeletesInOrder(path, order, Prunable(changed, protected)) + [PutMetadata(path, Pruned(changed, protected))]
  }

  /** pathMetadataWrite after its fields are parsed; a request may not lower
      `maxVersions` below one. */
  method WriteMetadata(
    st: Storage, path: string, metadata: Metadata, maxVersions: nat, settings: Settings, order: seq<nat>, now: Time)
    returns (ok: bool)
    requires IndexComplete(st.data) && path != "" && Visits(order, metadata.versions.Keys)
    modifies st
    ensures Ran(old(st.data), old(st.budget),
      Outcome(ChangeWrites(old(st.data), path, metadata, maxVersions, settings, order, now), true),
      st.data, st.budget, ok)
  {
    ghost var s, b := st.data, st.budget;
    var changed := metadata.(maxVersions := maxVersions, settings := settings, updatedTime := now);
    ghost var protected := QueuedUpsertVersions(s.outbox, path);
    var pruned;
    pruned, ok := PruneExcessVersions(st, path, changed, order);
    ghost var mid, midBudget, midOk := st.data, st.budget, ok;
    if ok {
      ok := st.Write(PutMetadata(path, pruned));
    }
    RanThen(s, b, Outcome(DeletesInOrder(path, order, Prunable(changed, protected)), true), mid, midBudget, midOk,
      Outcome([PutMetadata(path, Pruned(changed, protected))], true), st.data, st.budget, ok);
  }

  // ----------------------------------------------------------------------- runs

  datatype Request =
    | WriteData(generation: string, payload: Payload, operations: seq<OutboxRecord>, staleIds: seq<string>, order: seq<nat>,
                now: Time, cancelTime: Time)
    | MutateCurrent(
        kind: VersionMutationKind, operations: seq<OutboxRecord>, cancelIds: seq<string>, now: Time, cancelTime: Time)
    | MutateDirectly(kind: VersionMutationKind, version: nat, now: Time)
    | ChangeMetadata(generation: string, maxVersions: nat, settings: Settings, order: seq<nat>, now: Time)
    | DeletePath
    | OtherActivity

  /** `z` is a store the request may leave. OtherActivity is anything that leaves the
      path's source records alone: dispatch, associations, requests for other paths. */
  ghost predicate Next(s: Store, path: string, r: Request, z: Store) {
    match r
    case WriteData(generation, payload, operations, staleIds, order, now, cancelTime) =>
      WriteRequest(s, path, generation, operations, staleIds, order, now, cancelTime) &&
      EndsAs(s,
        WriteMutation(s, path, CurrentMetadata(s, path, generation), payload, operations, staleIds, order, now, cancelTime), z)
    case MutateCurrent(kind, operations, cancelIds, now, cancelTime) =>
      VersionRequest(s, kind, path, operations, cancelIds, now, cancelTime) &&
      var metadata := s.metadata[path];
      (path, metadata.currentVersion) in s.versions &&
      EndsAs(s, VersionMutation(kind, path, Normalize(metadata), s.versions[(path, metadata.currentVersion)],
        operations, cancelIds, now, cancelTime), z)
    case MutateDirectly(kind, version, now) =>
      path in s.metadata && z == Apply(s, DirectWrites(s, kind, path, Normalize(s.metadata[path]), version, now))
    case ChangeMetadata(generation, maxVersions, settings, order, now) =>
      maxVersions > 0 && Visits(order, CurrentMetadata(s, path, generation).versions.Keys) &&
      z == Apply(s, ChangeWrites(s, path, CurrentMetadata(s, path, generation), maxVersions, settings, order, now))
    case DeletePath =>
      path !in z.metadata && forall v :: (path, v) !in z.versions
    case OtherActivity =>
      (path in z.metadata <==> path in s.metadata) && (path in s.metadata ==> z.metadata[path] == s.metadata[path]) &&
      forall v :: ((path, v) in z.versions <==> (path, v) in s.versions) &&
        ((path, v) in s.versions ==> z.versions[(path, v)] == s.versions[(path, v)])
  }

  /** The versions a store holds for a path. */
  ghost predicate StoresVersion(s: Store, path: string, v: nat) { (path, v) in s.versions }

  /** Versions behind the retention window that no queued upsert references. */
  ghost predicate BehindWindow(s: Store, path: string, current: nat, maxVersions: int, v: nat) {
    v <= current - maxVersions && v !in QueuedUpsertVersions(s.outbox, path)
  }

  /** The new version is stored and current, and exactly the expired ones are pruned. */
  ghost predicate WriteStored(s: Store, path: string, r: Request, z: Store)
    requires r.WriteData?
  {
    var next := CurrentMetadata(s, path, r.generation).currentVersion + 1;
    path in z.metadata && z.metadata[path].currentVersion == next &&
    StoresVersion(z, path, next) && z.versions[(path, next)] == VersionRecord(next, r.now, r.payload, None, false) &&
    (forall v :: StoresVersion(z, path, v) <==>
      (StoresVersion(s, path, v) || v == next) && !BehindWindow(s, path, next, z.metadata[path].maxVersions, v)) &&
    forall v :: StoresVersion(z, path, v) && v != next ==> z.versions[(path, v)] == s.versions[(path, v)]
  }

  /** The store after a complete write, in terms of the metadata read before it. */
  ghost predicate Written(s: Store, path: string, r: Request, metadata: Metadata, z: Store)
    requires r.WriteData?
  {
    var next, protected := metadata.currentVersion + 1, QueuedUpsertVersions(s.outbox, path);
    var doomed := Prunable(Advanced(metadata, next, r.now), protected);
    path in z.metadata && z.metadata[path] == Committed(metadata, next, r.now, protected) &&
    (forall v :: StoresVersion(z, path, v) <==> (StoresVersion(s, path, v) || v == next) && v !in doomed) &&
    (forall v :: StoresVersion(z, path, v) ==>
      z.versions[(path, v)] == if v == next then VersionRecord(next, r.now, r.payload, None, false) else s.versions[(path, v)])
  }

  lemma WriteCompletes(s: Store, path: string, r: Request, z: Store)
    requires SourceConsistent(s, path) && r.WriteData? && Next(s, path, r, z) && !SameOutcome(s, z)
    ensures Written(s, path, r, CurrentMetadata(s, path, r.generation), z)
  {
    var m := WriteIsPlanned(s, path, r.generation, r.payload, r.operations, r.staleIds, r.order, r.now, r.cancelTime);
    var metadata := CurrentMetadata(s, path, r.generation);
    var doomed := Prunable(Advanced(metadata, m.record.version, r.now), QueuedUpsertVersions(s.outbox, path));
    CommitSource(s, m);
    PrunedKeys(path, r.order, m.prune, doomed);
    VersionsWithout(s.versions[Key(m) := m.record], path, m.prune, doomed, z.versions);
  }

  lemma WrittenIsStored(s: Store, path: string, r: Request, metadata: Metadata, z: Store)
    requires r.WriteData? && Mirrors(s, path, metadata) && Consistent(metadata) && Written(s, path, r, metadata, z)
    requires metadata == CurrentMetadata(s, path, r.generation)
    ensures WriteStored(s, path, r, z)
  {
    var next, protected := metadata.currentVersion + 1, QueuedUpsertVersions(s.outbox, path);
    CommittedKeeps(metadata, next, r.now, protected);
    DoomedAreExpired(s, path, metadata, r.now);
  }

  lemma DoomedAreExpired(s: Store, path: string, metadata: Metadata, now: Time)
    requires Mirrors(s, path, metadata) && Consistent(metadata)
    ensures var next := metadata.currentVersion + 1;
      forall v :: v in Prunable(Advanced(metadata, next, now), QueuedUpsertVersions(s.outbox, path)) <==>
        (StoresVersion(s, path, v) || v == next) && BehindWindow(s, path, next, metadata.maxVersions, v)
  {
  }

  lemma WrittenMirrors(s: Store, path: string, r: Request, metadata: Metadata, z: Store)
    requires r.WriteData? && Mirrors(s, path, metadata) && Consistent(metadata) && Written(s, path, r, metadata, z)
    ensures SourceConsistent(z, path)
  {
    var next, protected := metadata.currentVersion + 1, QueuedUpsertVersions(s.outbox, path);
    CommittedKeeps(metadata, next, r.now, protected);
  }

  lemma WriteKeepsSource(s: Store, path: string, r: Request, z: Store)
    requires SourceConsistent(s, path) && r.WriteData? && Next(s, path, r, z)
    ensures SourceConsistent(z, path)
    ensures SameOutcome(s, z) || WriteStored(s, path, r, z)
  {
    if !SameOutcome(s, z) {
      WriteCompletes(s, path, r, z);
      CurrentIsConsistent(s, path, r.generation);
      WrittenIsStored(s, path, r, CurrentMetadata(s, path, r.generation), z);
      WrittenMirrors(s, path, r, CurrentMetadata(s, path, r.generation), z);
    }
  }

  /** Deleting the keys of `doomed` versions, version by version. */
  lemma VersionsWithout(
    before: map<(string, nat), VersionRecord>, path: string, prune: seq<Write>, doomed: set<nat>,
    after: map<(string, nat), VersionRecord>)
    requires after == before - DeletedKeys(prune) && forall v :: (path, v) in DeletedKeys(prune) <==> v in doomed
    ensures forall v :: (path, v) in after <==> (path, v) in before && v !in doomed
    ensures forall v :: (path, v) in after ==> after[(path, v)] == before[(path, v)]
  {
  }

  lemma MutationKeepsSource(s: Store, path: string, r: Request, z: Store)
    requires SourceConsistent(s, path) && r.MutateCurrent? && Next(s, path, r, z)
    ensures SourceConsistent(z, path)
    ensures SameOutcome(s, z) || MutationStored(s, path, r.kind, s.metadata[path].currentVersion, r.now, z)
  {
    var metadata := s.metadata[path];
    var record := s.versions[(path, metadata.currentVersion)];
    var m := VersionMutation(r.kind, path, metadata, record, r.operations, r.cancelIds, r.now, r.cancelTime);
    if !SameOutcome(s, z) {
      assert DeletedKeys(m.prune) == {};
      CommitSource(s, m);
      MutatedSource(s, path, r.kind, metadata.currentVersion, r.now, z);
    }
  }

  /** Changing a version record and its metadata entry alike keeps the mirror. */
  lemma MutatedSource(s: Store, path: string, kind: VersionMutationKind, version: nat, now: Time, z: Store)
    requires SourceConsistent(s, path) && path in s.metadata && StoresVersion(s, path, version)
    requires var record, metadata := s.versions[(path, version)], s.metadata[path];
      if Ignores(kind, record) then z.versions == s.versions - {} && z.metadata == s.metadata[path := metadata]
      else
        z.versions == s.versions[(path, version) := Mutated(kind, record, now)] - {} &&
        z.metadata == s.metadata[path := MutatedMetadata(kind, metadata, version, now)]
    ensures SourceConsistent(z, path) && MutationStored(s, path, kind, version, now, z)
  {
    assert MutatedMetadata(kind, s.metadata[path], version, now).versions.Keys == s.metadata[path].versions.Keys;
  }

  /** Only the record of `version` may have changed, and only as its kind says. */
  ghost predicate MutationStored(s: Store, path: string, kind: VersionMutationKind, version: nat, now: Time, z: Store) {
    (forall v :: StoresVersion(z, path, v) <==> StoresVersion(s, path, v)) &&
    forall v :: StoresVersion(s, path, v) ==>
      z.versions[(path, v)] ==
        if v == version && !Ignores(kind, s.versions[(path, v)])
        then Mutated(kind, s.versions[(path, v)], now) else s.versions[(path, v)]
  }

  lemma DirectEffect(s: Store, kind: VersionMutationKind, path: string, metadata: Metadata, version: nat, now: Time)
    requires StoresVersion(s, path, version) ==> s.versions[(path, version)].version == version
    ensures var z := Apply(s, DirectWrites(s, kind, path, metadata, version, now));
      if (path, version) !in s.versions || Ignores(kind, s.versions[(path, version)])
      then z.versions == s.versions && z.metadata == s.metadata[path := metadata]
      else
        z.versions == s.versions[(path, version) := Mutated(kind, s.versions[(path, version)], now)] &&
        z.metadata == s.metadata[path := MutatedMetadata(kind, metadata, version, now)]
  {
    if (path, version) !in s.versions || Ignores(kind, s.versions[(path, version)]) {
      ApplyOne(s, PutMetadata(path, metadata));
    } else {
      var put := PutVersion(path, Mutated(kind, s.versions[(path, version)], now));
      var last := PutMetadata(path, MutatedMetadata(kind, metadata, version, now));
      ApplyOne(s, put);
      ApplyOne(Step(s, put), last);
      ApplyConcat(s, [put], [last]);
      assert [put] + [last] == [put, last];
    }
  }

  lemma DirectKeepsSource(s: Store, path: string, r: Request, z: Store)
    requires SourceConsistent(s, path) && r.MutateDirectly? && Next(s, path, r, z)
    ensures SourceConsistent(z, path)
    ensures MutationStored(s, path, r.kind, r.version, r.now, z)
  {
    DirectEffect(s, r.kind, path, s.metadata[path], r.version, r.now);
    if StoresVersion(s, path, r.version) {
      var changed := s.versions[(path, r.version) := Mutated(r.kind, s.versions[(path, r.version)], r.now)];
      assert changed - {} == changed && s.versions - {} == s.versions;
      MutatedSource(s, path, r.kind, r.version, r.now, z);
    }
  }

  lemma ChangeKeepsSource(s: Store, path: string, r: Request, z: Store)
    requires SourceConsistent(s, path) && r.ChangeMetadata? && Next(s, path, r, z)
    ensures SourceConsistent(z, path)
    ensures path in z.metadata && z.metadata[path].maxVersions == r.maxVersions &&
      z.metadata[path].currentVersion == CurrentMetadata(s, path, r.generation).currentVersion
    ensures forall v :: StoresVersion(z, path, v) <==>
      StoresVersion(s, path, v) && !BehindWindow(s, path, z.metadata[path].currentVersion, r.maxVersions, v)
  {
    var metadata := CurrentMetadata(s, path, r.generation);
    CurrentIsConsistent(s, path, r.generation);
    var changed, protected := ChangedMetadata(metadata, r.maxVersions, r.settings, r.now), QueuedUpsertVersions(s.outbox, path);
    var prune := DeletesInOrder(path, r.order, Prunable(changed, protected));
    DeletesInOrderWrites(path, r.order, Prunable(changed, protected));
    DeletesEffect(s, prune);
    ApplyConcat(s, prune, [PutMetadata(path, Pruned(changed, protected))]);
    ApplyOne(Apply(s, prune), PutMetadata(path, Pruned(changed, protected)));
    PrunedKeys(path, r.order, prune, Prunable(changed, protected));
    VersionsWithout(s.versions, path, prune, Prunable(changed, protected), z.versions);
  }

  lemma PrunedKeys(path: string, order: seq<nat>, prune: seq<Write>, doomed: set<nat>)
    requires prune == DeletesInOrder(path, order, doomed) && forall v :: v in doomed ==> v in order
    ensures forall v :: (path, v) in DeletedKeys(prune) <==> v in doomed
  {
    DeletesInOrderWrites(path, order, doomed);
    forall v | v in doomed
      ensures (path, v) in DeletedKeys(prune)
    {
      assert DeleteVersion(path, v) in prune;
    }
  }

  /** Over any run of writes, metadata changes, deletes, undeletes and destroys, complete
      or crashed and recovered, the metadata mirrors the stored versions exactly. */
  ghost predicate SourceRun(path: string, states: seq<Store>, requests: seq<Request>) {
    |states| == |requests| + 1 && forall i :: 0 <= i < |requests| ==> Next(states[i], path, requests[i], states[i + 1])
  }

  lemma OthersKeepSource(s: Store, path: string, r: Request, z: Store)
    requires SourceConsistent(s, path) && (r.DeletePath? || r.OtherActivity?) && Next(s, path, r, z)
    ensures SourceConsistent(z, path)
  {
    if r.OtherActivity? && path in s.metadata {
      assert forall v :: StoresVersion(z, path, v) <==> StoresVersion(s, path, v);
    }
  }

  lemma NextKeepsSource(s: Store, path: string, r: Request, z: Store)
    requires SourceConsistent(s, path) && Next(s, path, r, z)
    ensures SourceConsistent(z, path)
  {
    match r
    case WriteData(_, _, _, _, _, _, _) => WriteKeepsSource(s, path, r, z);
    case MutateCurrent(_, _, _, _, _) => MutationKeepsSource(s, path, r, z);
    case MutateDirectly(_, _, _) => DirectKeepsSource(s, path, r, z);
    case ChangeMetadata(_, _, _, _, _) => ChangeKeepsSource(s, path, r, z);
    case _ => OthersKeepSource(s, path, r, z);
  }

  lemma {:induction false} RunsKeepSource(path: string, states: seq<Store>, requests: seq<Request>, i: nat)
    requires SourceRun(path, states, requests) && SourceConsistent(states[0], path) && i <= |requests|
    ensures SourceConsistent(states[i], path)
  {
    if i > 0 {
      RunsKeepSource(path, states, requests, i - 1);
      NextKeepsSource(states[i - 1], path, requests[i - 1], states[i]);
    }
  }
}
