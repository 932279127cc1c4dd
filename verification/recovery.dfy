/** Recovery of an interrupted mutation from its enqueue intent
    (internal/backend/recovery.go). */
module Recovery {
  import opened Records
  import opened OutboxStorage
  import opened SourceStorage

  predicate ShouldRecover(kind: OperationType, available: bool) {
    match kind
    case Upsert => available
    case Delete => !available
    case OtherType(_) => false
  }

  /** intentSourceMutationCommitted */
  predicate MutationCommitted(intent: Intent, available: bool) {
    exists i :: 0 <= i < |intent.operations| && ShouldRecover(intent.operations[i].kind, available)
  }

  predicate VersionAvailable(s: Store, path: string, version: nat) {
    (path, version) in s.versions && s.versions[(path, version)].Available()
  }

  // ------------------------------------------------------------------ metadata

  function BaseMetadata(s: Store, intent: Intent): Metadata {
    match GetMetadata(s, intent.path)
    case Some(metadata) => metadata
    case None => NewMetadata(intent.generation)
  }

  function RecoveredEntry(record: VersionRecord): VersionMetadata {
    VersionMetadata(record.createdTime, record.deletionTime, record.destroyed)
  }

  /** recoverIntentSourceMetadata: the metadata it stores, or None when it stores nothing. */
  ghost function RecoveredMetadata(
    base: Metadata, intent: Intent, record: VersionRecord, protected: set<nat>): Option<Metadata> {
    if base.currentVersion < intent.version then Some(Committed(base, intent.version, record.createdTime, protected))
    else if base.currentVersion != intent.version || VersionEntry(base, intent.version) == RecoveredEntry(record) then None
    else Some(base.(versions := base.versions[intent.version := RecoveredEntry(record)], updatedTime := intent.createdTime))
  }

  ghost function MetadataWrites(s: Store, intent: Intent, record: VersionRecord, order: seq<nat>): seq<Write> {
    var base, protected := BaseMetadata(s, intent), QueuedUpsertVersions(s.outbox, intent.path);
    if base.currentVersion < intent.version then
      CommitMetadataWrites(intent.path, base, intent.version, record.createdTime, protected, order)
    else
      match RecoveredMetadata(base, intent, record, protected)
      case Some(metadata) => [PutMetadata(intent.path, metadata)]
      case None => []
  }

  // ---------------------------------------------------------------- operations

  function RecoveredOperation(intent: Intent, operation: IntentOperation, now: Time): OutboxRecord {
    OutboxRecord(operation.id, operation.kind, intent.path, intent.version, operation.associationId, operation.objectId,
      operation.destinationRef, Pending, 0, operation.notBefore, intent.createdTime, now, operation.idempotencyKey,
      operation.trigger, "", None, 0)
  }

  /** outboxRecordsFromIntentOperations: recoverable operations whose association still exists. */
  function RecoverableOperations(s: Store, intent: Intent, operations: seq<IntentOperation>, now: Time, available: bool)
    : seq<OutboxRecord>
  {
    if operations == [] then []
    else
      var last := operations[|operations| - 1];
      var front := RecoverableOperations(s, intent, operations[..|operations| - 1], now, available);
      if ShouldRecover(last.kind, available) && (intent.path, last.associationId) in s.associations
      then front + [RecoveredOperation(intent, last, now)] else front
  }

  function RecoverOneWrites(s: Store, operation: OutboxRecord): seq<Write> {
    if operation.id in s.outbox then PutIndexWrites(s.outbox[operation.id]) else PutWrites(s, operation)
  }

  function RecoverPutWrites(s: Store, operations: seq<OutboxRecord>): seq<Write>
    decreases |operations|
  {
    if operations == [] then []
    else
      var done := RecoverPutWrites(s, operations[..|operations| - 1]);
      done + RecoverOneWrites(Apply(s, done), operations[|operations| - 1])
  }

  // ------------------------------------------------------------------ recovery

  ghost function MetadataPhase(s: Store, intent: Intent, order: seq<nat>): seq<Write> {
    var key := (intent.path, intent.version);
    var available := VersionAvailable(s, intent.path, intent.version);
    if key in s.versions && MutationCommitted(intent, available) then MetadataWrites(s, intent, s.versions[key], order) else []
  }

  function CancelPhase(s: Store, intent: Intent, available: bool, now: Time): Outcome {
    if MutationCommitted(intent, available) then Cancel(s, intent.cancelIds, now) else Outcome([], true)
  }

  function QueuePhase(s: Store, intent: Intent, available: bool, now: Time): Outcome {
    var operations := RecoverableOperations(s, intent, intent.operations, now, available);
    Outcome(RecoverPutWrites(s, operations) + [DeleteIntent(intent.path, intent.version)], true)
  }

  /** recoverEnqueueIntent */
  ghost function Recover(s: Store, intent: Intent, now: Time, order: seq<nat>): Outcome {
    var available := VersionAvailable(s, intent.path, intent.version);
    var first := MetadataPhase(s, intent, order);
    var s1 := Apply(s, first);
    var cancel := CancelPhase(s1, intent, available, now);
    var s2 := Apply(s1, cancel.writes);
    Then(Outcome(first, true), Then(cancel, QueuePhase(s2, intent, available, now)))
  }

  /** What recovery of this intent iterates over when it prunes. */
  function PruneKeys(s: Store, intent: Intent): set<nat> {
    BaseMetadata(s, intent).versions.Keys + {intent.version}
  }

  method RecoverSourceMetadata(st: Storage, intent: Intent, record: VersionRecord, order: seq<nat>) returns (ok: bool)
    requires IndexComplete(st.data) && intent.path != "" && Visits(order, PruneKeys(st.data, intent))
    modifies st
    ensures Ran(old(st.data), old(st.budget), Outcome(MetadataWrites(old(st.data), intent, record, order), true),
      st.data, st.budget, ok)
  {
    var metadata := BaseMetadata(st.data, intent);
    if metadata.currentVersion < intent.version {
      ok := CommitSourceMetadata(st, intent.path, metadata, intent.version, record.createdTime, order);
      return;
    }
    if metadata.currentVersion != intent.version {
      return true;
    }
    var recovered := VersionMetadata(record.createdTime, record.deletionTime, record.destroyed);
    if VersionEntry(metadata, intent.version) == recovered {
      return true;
    }
    metadata := metadata.(versions := metadata.versions[intent.version := recovered], updatedTime := intent.createdTime);
    ok := st.Write(PutMetadata(intent.path, metadata));
  }

  lemma {:induction false} RecoverPutsPrefix(s: Store, operations: seq<OutboxRecord>, i: nat)
    requires i <= |operations|
    ensures RecoverPutWrites(s, operations[..i]) <= RecoverPutWrites(s, operations)
    decreases |operations|
  {
    if i == |operations| {
      assert operations[..i] == operations;
    } else {
      var front := operations[..|operations| - 1];
      RecoverPutsPrefix(s, front, i);
      assert front[..i] == operations[..i];
    }
  }

  method RecoverOperations(st: Storage, operations: seq<OutboxRecord>) returns (ok: bool)
    modifies st
    ensures Ran(old(st.data), old(st.budget), Outcome(RecoverPutWrites(old(st.data), operations), true), st.data, st.budget, ok)
  {
    ghost var s, b := st.data, st.budget;
    for i := 0 to |operations|
      invariant Ran(s, b, Outcome(RecoverPutWrites(s, operations[..i]), true), st.data, st.budget, true)
    {
      ghost var mid, midBudget := st.data, st.budget;
      if operations[i].id in st.data.outbox {
        ok := st.WriteAll(PutIndexWrites(st.data.outbox[operations[i].id]));
      } else {
        ok := PutOutboxRecord(st, operations[i]);
      }
      assert operations[..i + 1][..i] == operations[..i];
      RanThen(s, b, Outcome(RecoverPutWrites(s, operations[..i]), true), mid, midBudget, true,
        Outcome(RecoverOneWrites(mid, operations[i]), true), st.data, st.budget, ok);
      if !ok {
        RecoverPutsPrefix(s, operations, i + 1);
        RanBegins(s, b, Outcome(RecoverPutWrites(s, operations[..i + 1]), true),
          Outcome(RecoverPutWrites(s, operations), true), st.data, st.budget);
        return false;
      }
    }
    assert operations[..|operations|] == operations;
    ok := true;
  }

  method RecoverQueue(st: Storage, intent: Intent, available: bool, now: Time) returns (ok: bool)
    modifies st
    ensures Ran(old(st.data), old(st.budget), QueuePhase(old(st.data), intent, available, now), st.data, st.budget, ok)
  {
    ghost var s, b := st.data, st.budget;
    var operations := RecoverableOperations(st.data, intent, intent.operations, now, available);
    ok := RecoverOperations(st, operations);
    ghost var s1, b1, ok1 := st.data, st.budget, ok;
    if ok {
      ok := st.Write(DeleteIntent(intent.path, intent.version));
    }
    RanThen(s, b, Outcome(RecoverPutWrites(s, operations), true), s1, b1, ok1,
      Outcome([DeleteIntent(intent.path, intent.version)], true), st.data, st.budget, ok);
  }

  method RecoverEnqueueIntent(st: Storage, intent: Intent, now: Time, order: seq<nat>) returns (ok: bool)
    requires IndexComplete(st.data) && intent.path != "" && Visits(order, PruneKeys(st.data, intent))
    modifies st
    ensures Ran(old(st.data), old(st.budget), Recover(old(st.data), intent, now, order), st.data, st.budget, ok)
  {
    ghost var s, b := st.data, st.budget;
    var key := (intent.path, intent.version);
    var available := VersionAvailable(st.data, intent.path, intent.version);
    var committed := MutationCommitted(intent, available);
    ok := true;
    if key in st.data.versions && committed {
      ok := RecoverSourceMetadata(st, intent, st.data.versions[key], order);
    }
    ghost var first := MetadataPhase(s, intent, order);
    ghost var s1 := Apply(s, first);
    ghost var mid1, b1, ok1 := st.data, st.budget, ok;
    ghost var cancel := CancelPhase(s1, intent, available, now);
    ghost var queue := QueuePhase(Apply(s1, cancel.writes), intent, available, now);
    if ok {
      if committed {
        ok := CancelQueuedOutboxIds(st, intent.cancelIds, now);
      }
      ghost var mid2, b2, ok2 := st.data, st.budget, ok;
      if ok {
        ok := RecoverQueue(st, intent, available, now);
      }
      RanThen(s1, b1, cancel, mid2, b2, ok2, queue, st.data, st.budget, ok);
    }
    RanThen(s, b, Outcome(first, true), mid1, b1, ok1, Then(cancel, queue), st.data, st.budget, ok);
  }
}
