/** Mutations that a crash can split (internal/backend/path_data.go, path_versions.go,
    recovery.go). */
module CrashExamples {
  import opened Naming
  import opened Records
  import opened OutboxStorage
  import opened SourceStorage
  import opened SourceMutations
  import opened Interruption
  import opened CrashSafety
  import opened SourceHistory
  import opened AssociationEnqueue
  import opened AssociationRecovery

  const EMPTY := Store(map[], map[], map[], map[], map[], map[])

  /** A write that enqueues nothing has no intent: cut off after its version record, the
      record stays without metadata. */
  lemma WriteWithoutOperationsSplits()
    ensures var m := WriteMutation(EMPTY, "app", NewMetadata("g"), map["key" := "value"], [], [], [1], 0, 0);
      !AllOrNothing(EMPTY, m)
  {
    assert CurrentMetadata(EMPTY, "app", "g") == NewMetadata("g");
    assert Lists([], StaleUpserts(EMPTY, "app", [], 0));
    assert Visits([1], NewMetadata("g").versions.Keys + {1});
    DataWriteIsAllOrNothing(EMPTY, "app", "g", map["key" := "value"], [], [], [1], 0, 0);
  }

  const DELETED := VersionRecord(1, 0, map["key" := "value"], Some(1), false)
  const DELETED_METADATA :=
    Metadata("g", 1, 1, 10, Settings(false, "0s", true, map[]), map[1 := VersionMetadata(0, Some(1), false)], 1)
  const ASSOCIATION :=
    Association("assoc", "app", "gitlab", "main", "gitlab/main", "", "APP", [], SecretPath, "", "delete", true, 0)
  const OPERATION :=
    OutboxRecord("op", Delete, "app", 1, "assoc", "secret-path", "gitlab/main", Pending, 0, Some(2), 2, 2,
      "key", User, "", None, 0)

  /** A soft-deleted current version whose delete was already delivered. */
  const SOFT_DELETED :=
    Store(map["app" := DELETED_METADATA], map[("app", 1) := DELETED], map[], map[],
      map[("app", "assoc") := ASSOCIATION], map[])

  /** Destroying a version that is already soft-deleted: recovery only asks whether the
      version is available, so a crash right after the intent enqueues the delete for a
      version that was never destroyed. */
  lemma DestroyAfterDeleteSplits()
    ensures var m := VersionMutation(Destroy, "app", DELETED_METADATA, DELETED, [OPERATION], [], 2, 2);
      !AllOrNothing(SOFT_DELETED, m)
  {
    var s := SOFT_DELETED;
    assert Oldest({1}) == 1;
    assert DELETED_METADATA.versions.Keys == {1};
    assert SourceConsistent(s, "app");
    assert Lists([], Replaced(s, Destroy, "app", 1, [OPERATION]));
    assert NewOperations([OPERATION], Delete, "app", 1, 2);
    ChangingMutationIsAllOrNothing(s, Destroy, "app", [OPERATION], [], 2, 2);
    assert [OPERATION][0].id !in s.outbox;
  }

  const TERMINAL := OPERATION.(state := FailedTerminal, attempts := 3, notBefore := None)
  const AVAILABLE := DELETED.(deletionTime := None)
  const FAILED_BEFORE := SOFT_DELETED.(
    metadata := map["app" := DELETED_METADATA.(versions := map[1 := VersionMetadata(0, None, false)])],
    versions := map[("app", 1) := AVAILABLE],
    outbox := map["op" := TERMINAL],
    index := map[ByPath("app", "op") := "op", ByState(FailedTerminal, "op") := "op"])

  /** An older terminal record with the id of the new operation: the commit replaces it,
      recovery keeps it. */
  lemma OlderRecordSplits()
    ensures var m := VersionMutation(SoftDelete, "app", FAILED_BEFORE.metadata["app"], AVAILABLE, [OPERATION], [], 2, 2);
      !AllOrNothing(FAILED_BEFORE, m)
  {
    var s := FAILED_BEFORE;
    assert Oldest({1}) == 1;
    assert s.metadata["app"].versions.Keys == {1};
    assert SourceConsistent(s, "app");
    assert Indexed(s, "op");
    assert Lists([], Replaced(s, SoftDelete, "app", 1, [OPERATION]));
    assert NewOperations([OPERATION], Delete, "app", 1, 2);
    ChangingMutationIsAllOrNothing(s, SoftDelete, "app", [OPERATION], [], 2, 2);
    assert [OPERATION][0].id in s.outbox && !Same(s.outbox["op"], OPERATION);
  }

  const UPSERT :=
    OutboxRecord("new", Upsert, "app", 1, "assoc", "secret-path", "gitlab/main", Pending, 0, Some(2), 2, 2,
      "key", User, "", None, 0)
  const AGAIN := UPSERT.(id := "old")
  const GAVE_UP := AGAIN.(state := FailedTerminal, attempts := 3, notBefore := None)
  const HALF_FAILED := FAILED_BEFORE.(
    outbox := map["old" := GAVE_UP], index := map[ByPath("app", "old") := "old", ByState(FailedTerminal, "old") := "old"])

  /** An enqueue of a new operation and of one that failed before: cut off after its
      intent, recovery queues the new one and leaves the failed one. */
  lemma EnqueueSplits()
    ensures var s := HALF_FAILED;
      !Atomic(s, EnqueueWrites(s, "app", "g", 1, AllReenqueued(s.outbox, [UPSERT, AGAIN]), 2), ("app", 1), 2)
  {
    var s, requested := HALF_FAILED, [UPSERT, AGAIN];
    HalfFailedIsRequested();
    EnqueueIsAtomicExactly(s, "app", requested, 2);
    assert requested[1].id in FinishedBefore(s, requested) && requested[0].id !in s.outbox;
  }

  lemma HalfFailedIsRequested()
    ensures EnqueueRequest(HALF_FAILED, "app", [UPSERT, AGAIN], 2)
  {
    var s := HALF_FAILED;
    assert Oldest({1}) == 1;
    assert s.metadata["app"].versions.Keys == {1};
    assert SourceConsistent(s, "app");
    assert Indexed(s, "old");
  }
}
