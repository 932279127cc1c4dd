/** The source mutations as requests carry them out: planning, queue capacity and the
    ordered commit (internal/backend/path_data.go, path_versions.go, enqueue.go). */
module SourceMutations {
  import opened Records
  import opened OutboxStorage
  import opened SourceStorage

  datatype CommitResult = Success | QueueFull | OperationClaimed | StorageFailure

  // ------------------------------------------------------------------ planning

  predicate SameObject(a: OutboxRecord, b: OutboxRecord) {
    a.associationId == b.associationId && a.objectId == b.objectId
  }

  /** Unclaimed queued upserts that a write of `operations` supersedes. */
  predicate StaleUpsert(r: OutboxRecord, operations: seq<OutboxRecord>, now: Time) {
    r.Queued() && r.kind == Upsert && !r.ClaimActive(now) &&
    exists i :: 0 <= i < |operations| && SameObject(operations[i], r) && r.version < operations[i].version
  }

  function StaleUpserts(s: Store, path: string, operations: seq<OutboxRecord>, now: Time): set<string> {
    set id | id in s.outbox && s.outbox[id].path == path && StaleUpsert(s.outbox[id], operations, now)
  }

  function QueuedUpsertsOf(s: Store, path: string, version: nat): set<string> {
    set id | id in s.outbox && s.outbox[id].path == path && s.outbox[id].Queued() &&
      s.outbox[id].kind == Upsert && s.outbox[id].version == version
  }

  predicate MatchingDelete(r: OutboxRecord, operations: seq<OutboxRecord>) {
    r.Queued() && r.kind == Delete &&
    exists i :: 0 <= i < |operations| && SameObject(operations[i], r) && r.version == operations[i].version
  }

  function MatchingDeletes(s: Store, path: string, operations: seq<OutboxRecord>): set<string> {
    set id | id in s.outbox && s.outbox[id].path == path && MatchingDelete(s.outbox[id], operations)
  }

  /** An operation as newAssociationOutboxRecord builds it for one mutation. */
  predicate NewOperation(r: OutboxRecord, kind: OperationType, path: string, version: nat, now: Time) {
    r.kind == kind && r.path == path && r.version == version && r.state == Pending && r.attempts == 0 &&
    r.notBefore == Some(now) && r.createdTime == now && r.updatedTime == now && r.trigger == User &&
    r.claimOwner == "" && r.claimExpires == None && r.claimAttempt == 0
  }

  predicate NewOperations(operations: seq<OutboxRecord>, kind: OperationType, path: string, version: nat, now: Time) {
    (forall i :: 0 <= i < |operations| ==> NewOperation(operations[i], kind, path, version, now)) &&
    forall i, j :: 0 <= i < j < |operations| ==> operations[i].id != operations[j].id
  }

  method StaleUpsertIds(st: Storage, path: string, operations: seq<OutboxRecord>, now: Time) returns (ids: seq<string>)
    requires IndexComplete(st.data) && path != ""
    ensures Lists(ids, StaleUpserts(st.data, path, operations, now))
  {
    if operations == [] {
      return [];
    }
    ids := ListQueuedIdsForPath(st, path);
    ids := FilterOutboxIds(st, ids, (r: OutboxRecord) => StaleUpsert(r, operations, now));
  }

  // ------------------------------------------------------------------ capacity

  predicate AlreadyQueued(s: Store, id: string) { id in s.outbox && s.outbox[id].Queued() }

  /** additionalQueuedOperationCount */
  function Additional(s: Store, operations: seq<OutboxRecord>): nat {
    if operations == [] then 0
    else
      Additional(s, operations[..|operations| - 1]) +
      if AlreadyQueued(s, operations[|operations| - 1].id) then 0 else 1
  }

  method AdditionalOperations(st: Storage, operations: seq<OutboxRecord>) returns (count: nat)
    ensures count == Additional(st.data, operations)
  {
    count := 0;
    for i := 0 to |operations|
      invariant count == Additional(st.data, operations[..i])
    {
      assert operations[..i + 1][..i] == operations[..i];
      if !AlreadyQueued(st.data, operations[i].id) {
        count := count + 1;
      }
    }
    assert operations[..|operations|] == operations;
  }

  ghost function QueuedIds(s: Store): set<string> { set id | id in s.outbox && s.outbox[id].Queued() }

  ghost function QueueDepth(s: Store): nat { |QueuedIds(s)| }

  /** ensureQueueCapacityAfterReplacement */
  method EnsureCapacity(st: Storage, additional: nat, replaced: nat, capacity: nat) returns (fits: bool)
    requires IndexComplete(st.data)
    ensures fits <==> additional <= replaced || QueueDepth(st.data) - replaced + additional <= capacity
  {
    if additional <= replaced {
      return true;
    }
    var ids := ListQueuedIds(st);
    ListedCount(ids, QueuedIds(st.data));
    fits := |ids| - replaced + additional <= capacity;
  }

  /** ensureQueuedOutboxIDsUnclaimed */
  method EnsureUnclaimed(st: Storage, ids: seq<string>, now: Time) returns (unclaimed: bool)
    ensures unclaimed <==>
      forall id :: id in ids ==> !(AlreadyQueued(st.data, id) && st.data.outbox[id].ClaimActive(now))
  {
    for i := 0 to |ids|
      invariant forall k :: 0 <= k < i ==> !(AlreadyQueued(st.data, ids[k]) && st.data.outbox[ids[k]].ClaimActive(now))
    {
      if AlreadyQueued(st.data, ids[i]) && st.data.outbox[ids[i]].ClaimActive(now) {
        return false;
      }
    }
    unclaimed := true;
  }

  // ---------------------------------------------------------------- the commit

  /** Cancellations, outbox records and intent removal. */
  method CommitQueue(st: Storage, m: Mutation) returns (ok: bool)
    modifies st
    ensures Ran(old(st.data), old(st.budget), QueueWrites(old(st.data), m), st.data, st.budget, ok)
  {
    ghost var s, b := st.data, st.budget;
    ghost var cancel := Cancel(s, m.cancelIds, m.cancelTime);
    ghost var s1 := Apply(s, cancel.writes);
    ok := CancelQueuedOutboxIds(st, m.cancelIds, m.cancelTime);
    ghost var mid, midBudget, midOk := st.data, st.budget, ok;
    if ok {
      ok := PutOutboxRecords(st, m.operations);
      ghost var mid2, midBudget2, midOk2 := st.data, st.budget, ok;
      if ok {
        ok := st.WriteAll(CompleteWrites(m));
      }
      RanThen(s1, midBudget, Outcome(PutAllWrites(s1, m.operations), true), mid2, midBudget2, midOk2,
        Outcome(CompleteWrites(m), true), st.data, st.budget, ok);
    }
    RanThen(s, b, cancel, mid, midBudget, midOk, Outcome(PutAllWrites(s1, m.operations) + CompleteWrites(m), true),
      st.data, st.budget, ok);
  }

  /** The mutation commitDataWritePlan stores when nothing fails. */
  ghost function WriteMutation(
    s: Store, path: string, metadata: Metadata, payload: Payload, operations: seq<OutboxRecord>,
    staleIds: seq<string>, order: seq<nat>, now: Time, cancelTime: Time): Mutation
  {
    var next := metadata.currentVersion + 1;
    var protected := QueuedUpsertVersions(s.outbox, path);
    Mutation(path, metadata.generation, VersionRecord(next, now, payload, None, false), true,
      DeletesInOrder(path, order, Prunable(Advanced(metadata, next, now), protected)),
      Committed(metadata, next, now, protected), operations, staleIds, now, cancelTime)
  }

  /** The ordered writes of commitDataWritePlan, after its association updates. */
  method CommitWrite(
    st: Storage, path: string, metadata: Metadata, payload: Payload, operations: seq<OutboxRecord>,
    staleIds: seq<string>, order: seq<nat>, now: Time, cancelTime: Time) returns (ok: bool)
    requires IndexComplete(st.data) && path != ""
    requires Visits(order, metadata.versions.Keys + {metadata.currentVersion + 1})
    modifies st
    ensures Ran(old(st.data), old(st.budget),
        Commit(old(st.data),
          WriteMutation(old(st.data), path, metadata, payload, operations, staleIds, order, now, cancelTime)),
        st.data, st.budget, ok)
  {
    ghost var s, b := st.data, st.budget;
    ghost var m := WriteMutation(s, path, metadata, payload, operations, staleIds, order, now, cancelTime);
    var next := metadata.currentVersion + 1;
    var record := VersionRecord(next, now, payload, None, false);
    var plan := Mutation(path, metadata.generation, record, true, [], metadata, operations, staleIds, now, cancelTime);
    assert IntentOf(plan) == IntentOf(m);
    var ok1 := st.WriteAll(IntentWrites(plan) + [PutVersion(path, record)]);
    ghost var s1, b1 := st.data, st.budget;
    ghost var first, second := IntentWrites(m) + [PutVersion(path, record)], m.prune + [PutMetadata(path, m.metadata)];
    ok := ok1;
    if ok {
      SourceWritesLeaveOutbox(s, m);
      SameIndexes(s, s1);
      ok := CommitSourceMetadata(st, path, metadata, next, now, order);
    }
    RanThen(s, b, Outcome(first, true), s1, b1, ok1, Outcome(second, true), st.data, st.budget, ok);
    assert first + second == IntentWrites(m) + SourceWrites(m);
    ghost var s2, b2, ok2 := st.data, st.budget, ok;
    if ok {
      ok := CommitQueue(st, plan);
    }
    RanThen(s, b, Outcome(IntentWrites(m) + SourceWrites(m), true), s2, b2, ok2,
      QueueWrites(Apply(s, IntentWrites(m) + SourceWrites(m)), m), st.data, st.budget, ok);
  }

  /** commitDataWritePlan, after its association updates. `metadata` is the stored
      record or a new one; `order` is the iteration order of its version map. */
  method CommitDataWritePlan(
    st: Storage, path: string, metadata: Metadata, payload: Payload, operations: seq<OutboxRecord>,
    capacity: nat, order: seq<nat>, now: Time, cancelTime: Time)
    returns (result: CommitResult, staleIds: seq<string>)
    requires IndexComplete(st.data) && path != ""
    requires Visits(order, metadata.versions.Keys + {metadata.currentVersion + 1})
    modifies st
    ensures Lists(staleIds, StaleUpserts(old(st.data), path, operations, now))
    ensures result == QueueFull <==>
      Additional(old(st.data), operations) > |staleIds| &&
      QueueDepth(old(st.data)) - |staleIds| + Additional(old(st.data), operations) > capacity
    ensures result == QueueFull ==> st.data == old(st.data)
    ensures result != QueueFull ==>
      Ran(old(st.data), old(st.budget),
        Commit(old(st.data),
          WriteMutation(old(st.data), path, metadata, payload, operations, staleIds, order, now, cancelTime)),
        st.data, st.budget, result == Success)
  {
    staleIds := StaleUpsertIds(st, path, operations, now);
    var additional := AdditionalOperations(st, operations);
    var fits := EnsureCapacity(st, additional, |staleIds|, capacity);
    if !fits {
      return QueueFull, staleIds;
    }
    var ok := CommitWrite(st, path, metadata, payload, operations, staleIds, order, now, cancelTime);
    result := if ok then Success else StorageFailure;
  }

  lemma SourceWritesLeaveOutbox(s: Store, m: Mutation)
    ensures var s' := Apply(s, IntentWrites(m) + [PutVersion(m.path, m.record)]);
            s'.outbox == s.outbox && s'.index == s.index
  {
    var v := [PutVersion(m.path, m.record)];
    ApplyConcat(s, IntentWrites(m), v);
    assert v[1..] == [];
    if m.operations != [] {
      assert IntentWrites(m)[1..] == [];
    }
  }

  lemma SameIndexes(s: Store, s': Store)
    requires IndexComplete(s) && s'.outbox == s.outbox && s'.index == s.index
    ensures IndexComplete(s')
  {
    forall id | id in s'.outbox
      ensures Indexed(s', id)
    {
      assert Indexed(s, id);
    }
  }

  // -------------------------------------------------- delete, undelete, destroy

  datatype VersionMutationKind = SoftDelete | Undelete | Destroy

  /** softDeleteVersion, undeleteVersion and destroyVersion leave these records alone. */
  predicate Ignores(kind: VersionMutationKind, record: VersionRecord) {
    match kind
    case SoftDelete => !record.Available()
    case Undelete => record.destroyed
    case Destroy => record.destroyed
  }

  function Mutated(kind: VersionMutationKind, record: VersionRecord, now: Time): VersionRecord {
    match kind
    case SoftDelete => record.(deletionTime := Some(now))
    case Undelete => record.(deletionTime := None)
    case Destroy => record.(data := map[], destroyed := true, deletionTime := None)
  }

  function MutatedEntry(kind: VersionMutationKind, entry: VersionMetadata, now: Time): VersionMetadata {
    match kind
    case SoftDelete => entry.(deletionTime := Some(now))
    case Undelete => entry.(deletionTime := None)
    case Destroy => entry.(destroyed := true, deletionTime := None)
  }

  function MutatedMetadata(kind: VersionMutationKind, metadata: Metadata, version: nat, now: Time): Metadata {
    metadata.(versions := metadata.versions[version := MutatedEntry(kind, VersionEntry(metadata, version), now)],
              updatedTime := now)
  }

  function OperationKind(kind: VersionMutationKind): OperationType { if kind == Undelete then Upsert else Delete }

  /** Queued work a current-version mutation replaces. */
  function Replaced(
    s: Store, kind: VersionMutationKind, path: string, version: nat, operations: seq<OutboxRecord>): set<string> {
    if kind == Undelete then MatchingDeletes(s, path, operations) else QueuedUpsertsOf(s, path, version)
  }

  function VersionMutation(
    kind: VersionMutationKind, path: string, metadata: Metadata, record: VersionRecord,
    operations: seq<OutboxRecord>, cancelIds: seq<string>, now: Time, cancelTime: Time): Mutation
  {
    if Ignores(kind, record) then
      Mutation(path, metadata.generation, record, false, [], metadata, operations, cancelIds, now, cancelTime)
    else
      Mutation(path, metadata.generation, Mutated(kind, record, now), true, [],
        MutatedMetadata(kind, metadata, record.version, now), operations, cancelIds, now, cancelTime)
  }

  /** commitDataDeleteMutation, mutateCurrentVersionDelete and commitCurrentVersionUndelete
      share this order; they differ in the version mutation and in what it replaces. */
  method CommitCurrentVersionMutation(
    st: Storage, kind: VersionMutationKind, path: string, metadata: Metadata, record: VersionRecord,
    operations: seq<OutboxRecord>, capacity: nat, now: Time, cancelTime: Time)
    returns (result: CommitResult, cancelIds: seq<string>)
    requires IndexComplete(st.data) && path != ""
    modifies st
    ensures Lists(cancelIds, Replaced(old(st.data), kind, path, record.version, operations))
    ensures result == QueueFull <==>
      Additional(old(st.data), operations) > |cancelIds| &&
      QueueDepth(old(st.data)) - |cancelIds| + Additional(old(st.data), operations) > capacity
    ensures result == OperationClaimed <==>
      (result != QueueFull &&
       exists id :: id in cancelIds && AlreadyQueued(old(st.data), id) && old(st.data).outbox[id].ClaimActive(now))
    ensures result == QueueFull || result == OperationClaimed ==> st.data == old(st.data)
    ensures result == Success || result == StorageFailure ==>
      Ran(old(st.data), old(st.budget),
        Commit(old(st.data), VersionMutation(kind, path, metadata, record, operations, cancelIds, now, cancelTime)),
        st.data, st.budget, result == Success)
  {
    cancelIds := ListQueuedIdsForPath(st, path);
    if kind == Undelete {
      cancelIds := FilterOutboxIds(st, cancelIds, (r: OutboxRecord) => MatchingDelete(r, operations));
    } else {
      cancelIds := FilterOutboxIds(st, cancelIds, (r: OutboxRecord) => r.version == record.version && r.kind == Upsert);
    }
    var additional := AdditionalOperations(st, operations);
    var fits := EnsureCapacity(st, additional, |cancelIds|, capacity);
    if !fits {
      return QueueFull, cancelIds;
    }
    var unclaimed := EnsureUnclaimed(st, cancelIds, now);
    if !unclaimed {
      return OperationClaimed, cancelIds;
    }
    var m := VersionMutation(kind, path, metadata, record, operations, cancelIds, now, cancelTime);
    var ok := CommitMutation(st, m);
    result := if ok then Success else StorageFailure;
  }

  method CommitMutation(st: Storage, m: Mutation) returns (ok: bool)
    modifies st
    ensures Ran(old(st.data), old(st.budget), Commit(old(st.data), m), st.data, st.budget, ok)
  {
    ghost var s, b := st.data, st.budget;
    ok := st.WriteAll(IntentWrites(m));
    ghost var s1, b1, ok1 := st.data, st.budget, ok;
    if ok {
      ok := st.WriteAll(SourceWrites(m));
    }
    RanThen(s, b, Outcome(IntentWrites(m), true), s1, b1, ok1, Outcome(SourceWrites(m), true), st.data, st.budget, ok);
    ghost var s2, b2, ok2 := st.data, st.budget, ok;
    if ok {
      ok := CommitQueue(st, m);
    }
    RanThen(s, b, Outcome(IntentWrites(m) + SourceWrites(m), true), s2, b2, ok2,
      QueueWrites(Apply(s, IntentWrites(m) + SourceWrites(m)), m), st.data, st.budget, ok);
  }
}
