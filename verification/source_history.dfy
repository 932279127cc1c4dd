/** Data writes and version mutations as requests plan them, and when an interrupted one
    is all-or-nothing (internal/backend/path_data.go, path_versions.go). */
module SourceHistory {
  import opened Records
  import opened OutboxStorage
  import opened SourceStorage
  import opened SourceMutations
  import opened Recovery
  import opened WriteEffects
  import opened Interruption
  import opened CrashSafety

  // -------------------------------------------------------------- the invariant

  ghost predicate Mirrors(s: Store, path: string, metadata: Metadata) {
    (forall v :: v in metadata.versions <==> (path, v) in s.versions) &&
    forall v :: v in metadata.versions ==>
      s.versions[(path, v)].version == v && metadata.versions[v] == RecoveredEntry(s.versions[(path, v)])
  }

  ghost predicate Consistent(metadata: Metadata) {
    metadata.maxVersions > 0 &&
    (forall v :: v in metadata.versions ==> 1 <= v <= metadata.currentVersion) &&
    (if metadata.currentVersion == 0 then metadata.versions == map[] else metadata.currentVersion in metadata.versions) &&
    metadata.oldestVersion == Oldest(metadata.versions.Keys)
  }

  /** The metadata version map mirrors the stored version records exactly, the current
      version is stored, and the oldest version is the least one retained. */
  ghost predicate SourceConsistent(s: Store, path: string) {
    if path in s.metadata then Mirrors(s, path, s.metadata[path]) && Consistent(s.metadata[path])
    else forall v :: (path, v) !in s.versions
  }

  /** What the handlers read before a write. */
  ghost function CurrentMetadata(s: Store, path: string, generation: string): Metadata {
    match GetMetadata(s, path)
    case Some(metadata) => metadata
    case None => NewMetadata(generation)
  }

  lemma CurrentIsConsistent(s: Store, path: string, generation: string)
    requires SourceConsistent(s, path)
    ensures var metadata := CurrentMetadata(s, path, generation);
      Mirrors(s, path, metadata) && Consistent(metadata) && Normalize(metadata) == metadata &&
      (path in s.metadata ==> metadata == s.metadata[path])
  {
  }

  // --------------------------------------------------- what requests plan to store

  /** Operation ids are taken to identify the operation: they are hashes of generation,
      path, version, association, object and kind joined by ':', so a stored record with
      the id of a new operation has its kind and version. */
  ghost predicate IdsIdentify(s: Store, operations: seq<OutboxRecord>) {
    forall i :: 0 <= i < |operations| && operations[i].id in s.outbox ==>
      s.outbox[operations[i].id].kind == operations[i].kind &&
      s.outbox[operations[i].id].version == operations[i].version
  }

  ghost predicate AssociationsExist(s: Store, path: string, operations: seq<OutboxRecord>) {
    forall i :: 0 <= i < |operations| ==> (path, operations[i].associationId) in s.associations
  }

  lemma CommittedKeeps(metadata: Metadata, version: nat, now: Time, protected: set<nat>)
    requires Consistent(metadata) && version > metadata.currentVersion
    ensures var committed := Committed(metadata, version, now, protected);
      Consistent(committed) && committed.currentVersion == version &&
      VersionEntry(committed, version) == VersionMetadata(now, None, false) &&
      forall v :: v in committed.versions <==>
        (v == version || v in metadata.versions) && v !in Prunable(Advanced(metadata, version, now), protected)
    ensures forall v :: v in metadata.versions && v in Committed(metadata, version, now, protected).versions ==>
      Committed(metadata, version, now, protected).versions[v] == metadata.versions[v]
  {
    var advanced := Advanced(metadata, version, now);
    assert version !in Prunable(advanced, protected);
    assert Pruned(advanced, protected).oldestVersion == Oldest(Pruned(advanced, protected).versions.Keys);
  }

  ghost predicate WriteRequest(
    s: Store, path: string, generation: string, operations: seq<OutboxRecord>, staleIds: seq<string>, order: seq<nat>,
    now: Time, cancelTime: Time)
  {
    var metadata := CurrentMetadata(s, path, generation);
    var next := metadata.currentVersion + 1;
    IndexComplete(s) && (path, next) !in s.intents && now <= cancelTime &&
    NewOperations(operations, Upsert, path, next, now) && AssociationsExist(s, path, operations) &&
    Visits(order, metadata.versions.Keys + {next}) && Lists(staleIds, StaleUpserts(s, path, operations, now)) &&
    IdsIdentify(s, operations)
  }

  lemma WriteQueueIsPlanned(
    s: Store, path: string, generation: string, operations: seq<OutboxRecord>, staleIds: seq<string>, order: seq<nat>,
    now: Time, cancelTime: Time, m: Mutation)
    requires WriteRequest(s, path, generation, operations, staleIds, order, now, cancelTime)
    requires m.path == path && m.record.version == CurrentMetadata(s, path, generation).currentVersion + 1 &&
      m.record.Available()
    requires m.operations == operations && m.cancelIds == staleIds && m.now == now && m.cancelTime == cancelTime
    ensures PlannedQueue(s, m) && PlannedOperations(s, m)
  {
    forall i | 0 <= i < |operations|
      ensures operations[i].id !in staleIds
    {
      if operations[i].id in s.outbox {
        assert s.outbox[operations[i].id].version == operations[i].version;
      }
    }
  }

  lemma WriteIsPlanned(
    s: Store, path: string, generation: string, payload: Payload, operations: seq<OutboxRecord>, staleIds: seq<string>,
    order: seq<nat>, now: Time, cancelTime: Time) returns (m: Mutation)
    requires SourceConsistent(s, path) &&
      WriteRequest(s, path, generation, operations, staleIds, order, now, cancelTime)
    ensures m == WriteMutation(
      s, path, CurrentMetadata(s, path, generation), payload, operations, staleIds, order, now, cancelTime)
    ensures Planned(s, m) && FlipsAvailability(s, m) && Consistent(m.metadata)
  {
    var metadata := CurrentMetadata(s, path, generation);
    var next := metadata.currentVersion + 1;
    m := WriteMutation(s, path, metadata, payload, operations, staleIds, order, now, cancelTime);
    WriteQueueIsPlanned(s, path, generation, operations, staleIds, order, now, cancelTime, m);
    WriteMetadataIsPlanned(s, path, generation, order, m);
    CurrentIsConsistent(s, path, generation);
  }

  lemma WriteMetadataIsPlanned(s: Store, path: string, generation: string, order: seq<nat>, m: Mutation)
    requires SourceConsistent(s, path)
    requires var metadata := CurrentMetadata(s, path, generation);
      Visits(order, metadata.versions.Keys + {metadata.currentVersion + 1}) &&
      m == WriteMutation(s, path, metadata, m.record.data, m.operations, m.cancelIds, order, m.now, m.cancelTime)
    ensures PlannedMetadata(s, m) && Consistent(m.metadata)
  {
    var metadata := CurrentMetadata(s, path, generation);
    var next := metadata.currentVersion + 1;
    CurrentIsConsistent(s, path, generation);
    CommittedKeeps(metadata, next, m.now, QueuedUpsertVersions(s.outbox, path));
    assert BaseMetadata(s, IntentOf(m)) == metadata;
    DeletesDoomed(s, m, order, Doomed(s, m), metadata.versions.Keys + {next});
  }

  ghost predicate VersionRequest(
    s: Store, kind: VersionMutationKind, path: string, operations: seq<OutboxRecord>, cancelIds: seq<string>,
    now: Time, cancelTime: Time)
  {
    path in s.metadata &&
    var version := s.metadata[path].currentVersion;
    version > 0 && IndexComplete(s) && (path, version) !in s.intents && now <= cancelTime &&
    NewOperations(operations, OperationKind(kind), path, version, now) && AssociationsExist(s, path, operations) &&
    IdsIdentify(s, operations) && Lists(cancelIds, Replaced(s, kind, path, version, operations)) &&
    Unclaimed(s, cancelIds, now)
  }

  /** The request changes the stored version record. */
  predicate Changes(kind: VersionMutationKind, record: VersionRecord) {
    match kind
    case SoftDelete => record.Available()
    case Undelete => !record.destroyed && record.deletionTime.Some?
    case Destroy => !record.destroyed
  }

  lemma VersionQueueIsPlanned(
    s: Store, kind: VersionMutationKind, path: string, operations: seq<OutboxRecord>, cancelIds: seq<string>,
    now: Time, cancelTime: Time)
    requires SourceConsistent(s, path) && VersionRequest(s, kind, path, operations, cancelIds, now, cancelTime)
    ensures var record := s.versions[(path, s.metadata[path].currentVersion)];
      PlannedQueue(s, VersionMutation(kind, path, s.metadata[path], record, operations, cancelIds, now, cancelTime))
  {
    forall i | 0 <= i < |operations|
      ensures operations[i].id !in cancelIds
    {
      assert operations[i].kind == OperationKind(kind);
    }
  }

  lemma VersionMutationIsPlanned(
    s: Store, kind: VersionMutationKind, path: string, operations: seq<OutboxRecord>, cancelIds: seq<string>,
    now: Time, cancelTime: Time) returns (m: Mutation)
    requires SourceConsistent(s, path) && VersionRequest(s, kind, path, operations, cancelIds, now, cancelTime)
    requires Changes(kind, s.versions[(path, s.metadata[path].currentVersion)])
    ensures var metadata := s.metadata[path];
      m == VersionMutation(
        kind, path, metadata, s.versions[(path, metadata.currentVersion)], operations, cancelIds, now, cancelTime)
    ensures Planned(s, m) && Consistent(m.metadata)
    ensures FlipsAvailability(s, m) <==> kind != Destroy || s.versions[Key(m)].Available()
    ensures RecoveredMetadata(BaseMetadata(s, IntentOf(m)), IntentOf(m), s.versions[Key(m)], Protected(s, m)) == None
  {
    var metadata := s.metadata[path];
    var record := s.versions[(path, metadata.currentVersion)];
    m := VersionMutation(kind, path, metadata, record, operations, cancelIds, now, cancelTime);
    assert BaseMetadata(s, IntentOf(m)) == metadata && m.metadata.versions.Keys == metadata.versions.Keys;
    assert Doomed(s, m) == {} && DeletedKeys([]) == {} && DoomedKeys(s, m) == {};
    VersionQueueIsPlanned(s, kind, path, operations, cancelIds, now, cancelTime);
  }

  // ------------------------------------------------------------- crash corollaries

  /** Interrupted after any write and then recovered, a data write that enqueues
      anything happened entirely or not at all. */
  lemma DataWriteIsAllOrNothing(
    s: Store, path: string, generation: string, payload: Payload, operations: seq<OutboxRecord>, staleIds: seq<string>,
    order: seq<nat>, now: Time, cancelTime: Time)
    requires SourceConsistent(s, path) &&
      WriteRequest(s, path, generation, operations, staleIds, order, now, cancelTime)
    ensures var m := WriteMutation(
      s, path, CurrentMetadata(s, path, generation), payload, operations, staleIds, order, now, cancelTime);
      AllOrNothing(s, m) <==> operations != [] && NoConflict(s, m)
  {
    var m := WriteIsPlanned(s, path, generation, payload, operations, staleIds, order, now, cancelTime);
    AllOrNothingExactly(s, m);
  }

  /** The same for the version mutations. Destroying a version that is already
      soft-deleted does not flip availability, and is atomic only if its operations are
      already stored and it cancels none. */
  lemma ChangingMutationIsAllOrNothing(
    s: Store, kind: VersionMutationKind, path: string, operations: seq<OutboxRecord>, cancelIds: seq<string>,
    now: Time, cancelTime: Time)
    requires SourceConsistent(s, path) && VersionRequest(s, kind, path, operations, cancelIds, now, cancelTime)
    requires Changes(kind, s.versions[(path, s.metadata[path].currentVersion)])
    ensures var metadata := s.metadata[path];
      var record := s.versions[(path, metadata.currentVersion)];
      var m := VersionMutation(kind, path, metadata, record, operations, cancelIds, now, cancelTime);
      AllOrNothing(s, m) <==>
        operations != [] && NoConflict(s, m) &&
        (kind != Destroy || record.Available() ||
         (CanceledIds(s, cancelIds) == {} && forall i :: 0 <= i < |operations| ==> operations[i].id in s.outbox))
  {
    var m := VersionMutationIsPlanned(s, kind, path, operations, cancelIds, now, cancelTime);
    AllOrNothingExactly(s, m);
  }
}
