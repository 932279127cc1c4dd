/** How writes, deletes and undeletes change the depth of the queue
    (internal/backend/enqueue.go). */
module QueueDepths {
  import opened Records
  import opened OutboxStorage
  import opened SourceStorage
  import opened SourceMutations
  import opened WriteEffects
  import opened Interruption
  import opened CrashSafety
  import opened SourceHistory

  function IdsOf(operations: seq<OutboxRecord>): set<string> {
    if operations == [] then {} else IdsOf(operations[..|operations| - 1]) + {operations[|operations| - 1].id}
  }

  lemma {:induction false} IdsOfMembers(operations: seq<OutboxRecord>)
    ensures forall id :: id in IdsOf(operations) <==> IsIdOf(operations, id)
    decreases |operations|
  {
    if operations != [] {
      IdsOfMembers(operations[..|operations| - 1]);
      IdsOfFront(operations);
    }
  }

  lemma LastIsNew(operations: seq<OutboxRecord>)
    requires DistinctIds(operations) && operations != []
    ensures DistinctIds(operations[..|operations| - 1])
    ensures operations[|operations| - 1].id !in IdsOf(operations[..|operations| - 1])
  {
    IdsOfMembers(operations[..|operations| - 1]);
  }

  lemma {:induction false} AdditionalCounts(s: Store, operations: seq<OutboxRecord>)
    requires DistinctIds(operations)
    ensures Additional(s, operations) == |IdsOf(operations) - QueuedIds(s)|
    decreases |operations|
  {
    if operations != [] {
      var front, last := operations[..|operations| - 1], operations[|operations| - 1];
      LastIsNew(operations);
      AdditionalCounts(s, front);
      OneMore(IdsOf(front), QueuedIds(s), last.id);
    }
  }

  lemma OneMore(ids: set<string>, queued: set<string>, id: string)
    requires id !in ids
    ensures |(ids + {id}) - queued| == |ids - queued| + if id in queued then 0 else 1
  {
    if id in queued {
      assert (ids + {id}) - queued == ids - queued;
    } else {
      assert (ids + {id}) - queued == (ids - queued) + {id};
    }
  }

  lemma ReplacedSize(queued: set<string>, gone: set<string>, added: set<string>)
    requires gone <= queued && gone !! added
    ensures |(queued - gone) + added| == |queued| - |gone| + |added - queued|
  {
    assert |queued - gone| == |queued| - |gone|;
    assert (queued - gone) + added == (queued - gone) + (added - queued);
    assert (queued - gone) !! (added - queued);
  }

  /** A finished mutation changes the queue depth by exactly what is newly queued minus
      what it replaced. */
  lemma DepthAfterMutation(s: Store, m: Mutation, z: Store)
    requires PlannedQueue(s, m) && OutboxAfter(s, m, z.outbox)
    requires forall i :: 0 <= i < |m.operations| ==> m.operations[i].Queued()
    ensures QueueDepth(z) == QueueDepth(s) - |CanceledIds(s, m.cancelIds)| + Additional(s, m.operations)
  {
    var gone, added := CanceledIds(s, m.cancelIds), IdsOf(m.operations);
    AdditionalCounts(s, m.operations);
    IdsOfMembers(m.operations);
    QueuedAfter(s, m, z);
    ReplacedSize(QueuedIds(s), gone, added);
  }

  lemma QueuedAfter(s: Store, m: Mutation, z: Store)
    requires Disjoint(m) && OutboxAfter(s, m, z.outbox)
    requires forall i :: 0 <= i < |m.operations| ==> m.operations[i].Queued()
    ensures QueuedIds(z) == (QueuedIds(s) - CanceledIds(s, m.cancelIds)) + IdsOf(m.operations)
    ensures CanceledIds(s, m.cancelIds) !! IdsOf(m.operations)
  {
    IdsOfMembers(m.operations);
    forall id | IsIdOf(m.operations, id)
      ensures AlreadyQueued(z, id) && id !in m.cancelIds
    {
      var i :| 0 <= i < |m.operations| && m.operations[i].id == id;
    }
    assert forall id :: id in QueuedIds(z) <==>
      id in (QueuedIds(s) - CanceledIds(s, m.cancelIds)) + IdsOf(m.operations);
  }

  /** Writes, deletes and undeletes that pass the capacity check leave the queue within
      capacity, or no deeper than it was. */
  lemma MutationWithinCapacity(s: Store, m: Mutation, z: Store, capacity: nat)
    requires PlannedQueue(s, m) && VersionDeletes(m.prune) && SameOutcome(Completed(s, m), z)
    requires forall i :: 0 <= i < |m.operations| ==> m.operations[i].Queued()
    requires NoDuplicates(m.cancelIds) && CanceledIds(s, m.cancelIds) == Members(m.cancelIds)
    requires Additional(s, m.operations) <= |m.cancelIds| ||
             QueueDepth(s) - |m.cancelIds| + Additional(s, m.operations) <= capacity
    ensures QueueDepth(z) == QueueDepth(s) - |m.cancelIds| + Additional(s, m.operations)
    ensures QueueDepth(z) <= QueueDepth(s) || QueueDepth(z) <= capacity
  {
    var end := Completed(s, m);
    CompletedOutbox(s, m);
    DepthAfterMutation(s, m, end);
    assert QueuedIds(end) == QueuedIds(z);
    ListedCount(m.cancelIds, Members(m.cancelIds));
  }

  function Members(ids: seq<string>): set<string> { set id | id in ids }

  /** commitDataWritePlan's capacity check is enough for the whole write. */
  lemma WriteWithinCapacity(
    s: Store, path: string, generation: string, payload: Payload, operations: seq<OutboxRecord>, staleIds: seq<string>,
    order: seq<nat>, now: Time, cancelTime: Time, z: Store, capacity: nat)
    requires SourceConsistent(s, path) &&
      WriteRequest(s, path, generation, operations, staleIds, order, now, cancelTime)
    requires Additional(s, operations) <= |staleIds| || QueueDepth(s) - |staleIds| + Additional(s, operations) <= capacity
    requires
      var m := WriteMutation(
        s, path, CurrentMetadata(s, path, generation), payload, operations, staleIds, order, now, cancelTime);
      SameOutcome(Completed(s, m), z)
    ensures QueueDepth(z) == QueueDepth(s) - |staleIds| + Additional(s, operations)
    ensures QueueDepth(z) <= QueueDepth(s) || QueueDepth(z) <= capacity
  {
    var m := WriteIsPlanned(s, path, generation, payload, operations, staleIds, order, now, cancelTime);
    MutationWithinCapacity(s, m, z, capacity);
  }

  /** So is that of a delete, undelete or destroy of the current version. */
  lemma VersionMutationWithinCapacity(
    s: Store, kind: VersionMutationKind, path: string, operations: seq<OutboxRecord>, cancelIds: seq<string>,
    now: Time, cancelTime: Time, z: Store, capacity: nat)
    requires SourceConsistent(s, path) && VersionRequest(s, kind, path, operations, cancelIds, now, cancelTime)
    requires Additional(s, operations) <= |cancelIds| || QueueDepth(s) - |cancelIds| + Additional(s, operations) <= capacity
    requires
      var record := s.versions[(path, s.metadata[path].currentVersion)];
      var m := VersionMutation(kind, path, s.metadata[path], record, operations, cancelIds, now, cancelTime);
      SameOutcome(Completed(s, m), z)
    ensures QueueDepth(z) == QueueDepth(s) - |cancelIds| + Additional(s, operations)
    ensures QueueDepth(z) <= QueueDepth(s) || QueueDepth(z) <= capacity
  {
    var record := s.versions[(path, s.metadata[path].currentVersion)];
    var m := VersionMutation(kind, path, s.metadata[path], record, operations, cancelIds, now, cancelTime);
    VersionQueueIsPlanned(s, kind, path, operations, cancelIds, now, cancelTime);
    MutationWithinCapacity(s, m, z, capacity);
  }
}
