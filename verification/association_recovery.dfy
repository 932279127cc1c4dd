/** When an interrupted enqueue of associations is all-or-nothing
    (internal/backend/association_enqueue.go, recovery.go). */
module AssociationRecovery {
  import opened Records
  import opened OutboxStorage
  import opened SourceStorage
  import opened SourceMutations
  import opened Recovery
  import opened WriteEffects
  import opened Interruption
  import opened CrashSafety
  import opened Restarts
  import opened Requeues
  import opened SourceHistory
  import opened AssociationEnqueue

  /** Operation ids are hashes that include kind and association. */
  ghost predicate IdsNameAssociations(s: Store, requested: seq<OutboxRecord>) {
    forall i :: 0 <= i < |requested| && requested[i].id in s.outbox ==>
      s.outbox[requested[i].id].kind == Upsert && s.outbox[requested[i].id].associationId == requested[i].associationId
  }

  /** The upserts of the available current version of a path. */
  ghost predicate EnqueueRequest(s: Store, path: string, requested: seq<OutboxRecord>, now: Time) {
    path in s.metadata && SourceConsistent(s, path) && IndexComplete(s) && requested != [] &&
    var version := s.metadata[path].currentVersion;
    version > 0 && s.versions[(path, version)].Available() && (path, version) !in s.intents &&
    NewOperations(requested, Upsert, path, version, now) && AssociationsExist(s, path, requested) &&
    IdsNameAssociations(s, requested)
  }

  /** The enqueue as a mutation that leaves the source alone. */
  function EnqueueMutation(s: Store, path: string, requested: seq<OutboxRecord>, now: Time): Mutation
    requires path in s.metadata && (path, s.metadata[path].currentVersion) in s.versions
  {
    var metadata := s.metadata[path];
    Mutation(path, metadata.generation, s.versions[(path, metadata.currentVersion)], false, [], metadata,
      AllReenqueued(s.outbox, requested), [], now, now)
  }

  lemma EnqueueIsRequeue(s: Store, path: string, requested: seq<OutboxRecord>, now: Time)
    requires EnqueueRequest(s, path, requested, now)
    ensures var m := EnqueueMutation(s, path, requested, now);
      var metadata := s.metadata[path];
      IntentOf(m) == EnqueueIntent(path, metadata.generation, metadata.currentVersion, m.operations, now) &&
      RequeueWrites(s, m) ==
        EnqueueWrites(s, path, metadata.generation, metadata.currentVersion, m.operations, now)
  {
    var m := EnqueueMutation(s, path, requested, now);
    var metadata := s.metadata[path];
    var intent := EnqueueIntent(path, metadata.generation, metadata.currentVersion, m.operations, now);
    assert IntentOf(m).operations == intent.operations;
    var x := Step(s, PutIntent(intent));
    ApplyOne(s, PutIntent(intent));
    var puts, end := PutAllWrites(x, m.operations), DeleteIntent(path, metadata.currentVersion);
    assert QueueWrites(x, m).writes == [] + (puts + [end]);
    assert [PutIntent(intent)] + (puts + [end]) == [PutIntent(intent)] + puts + [end];
  }

  lemma EnqueueIsRestorable(s: Store, path: string, requested: seq<OutboxRecord>, now: Time)
    requires EnqueueRequest(s, path, requested, now)
    ensures QuietlyRestorable(s, EnqueueMutation(s, path, requested, now))
  {
    var m := EnqueueMutation(s, path, requested, now);
    assert forall id :: id in s.outbox ==> Indexed(s, id);
    ReenqueuedIds(s.outbox, requested);
    assert BaseMetadata(s, IntentOf(m)) == s.metadata[path];
    EnqueuedOperations(s, path, requested, now);
  }

  lemma EnqueuedOperations(s: Store, path: string, requested: seq<OutboxRecord>, now: Time)
    requires EnqueueRequest(s, path, requested, now)
    ensures Restorable(s, EnqueueMutation(s, path, requested, now))
  {
    var m := EnqueueMutation(s, path, requested, now);
    assert forall id :: id in s.outbox ==> Indexed(s, id);
    forall i | 0 <= i < |m.operations|
      ensures var r := m.operations[i];
        r.kind == Upsert && (path, r.associationId) in s.associations &&
        (r.id !in s.outbox ==> NewOperation(r, Upsert, path, m.record.version, now))
    {
      assert m.operations[i] == Reenqueued(s.outbox, requested[i]);
    }
  }

  /** Requested operations that are stored but finished. */
  function FinishedBefore(s: Store, requested: seq<OutboxRecord>): set<string> {
    set i | 0 <= i < |requested| && requested[i].id in s.outbox && !s.outbox[requested[i].id].Queued() :: requested[i].id
  }

  lemma FinishedConflict(s: Store, path: string, requested: seq<OutboxRecord>, now: Time)
    requires EnqueueRequest(s, path, requested, now)
    ensures Conflicting(s, EnqueueMutation(s, path, requested, now)) == FinishedBefore(s, requested)
    ensures NothingToRestore(s, EnqueueMutation(s, path, requested, now)) <==>
      forall i :: 0 <= i < |requested| ==> requested[i].id in s.outbox
  {
    var m := EnqueueMutation(s, path, requested, now);
    assert forall id :: id in s.outbox ==> Indexed(s, id);
    forall i | 0 <= i < |requested|
      ensures m.operations[i].id == requested[i].id
      ensures requested[i].id in s.outbox ==>
        (Same(s.outbox[requested[i].id], m.operations[i]) <==> s.outbox[requested[i].id].Queued())
    {
      assert m.operations[i] == Reenqueued(s.outbox, requested[i]);
    }
    forall id
      ensures id in Conflicting(s, m) <==> id in FinishedBefore(s, requested)
    {
    }
    forall i | 0 <= i < |m.operations|
      ensures m.operations[i].id == requested[i].id
    {
    }
  }

  /** An interrupted enqueue, once recovered, happened entirely or not at all exactly when
      no requested operation was finished before, or a single one was and every other one
      was queued already. Recovery adds missing operations but leaves finished ones as
      they are. */
  lemma EnqueueIsAtomicExactly(s: Store, path: string, requested: seq<OutboxRecord>, now: Time)
    requires EnqueueRequest(s, path, requested, now)
    ensures var metadata := s.metadata[path];
      var operations := AllReenqueued(s.outbox, requested);
      Atomic(s, EnqueueWrites(s, path, metadata.generation, metadata.currentVersion, operations, now),
        (path, metadata.currentVersion), now) <==>
      FinishedBefore(s, requested) == {} ||
      (|FinishedBefore(s, requested)| == 1 && forall i :: 0 <= i < |requested| ==> requested[i].id in s.outbox)
  {
    var m := EnqueueMutation(s, path, requested, now);
    EnqueueIsRequeue(s, path, requested, now);
    EnqueueIsRestorable(s, path, requested, now);
    FinishedConflict(s, path, requested, now);
    RequeueIsAtomicExactly(s, m);
    SomeConflict(s, m);
  }

  /** And recovery of it is restartable from every cut. */
  lemma EnqueueIsRestartable(
    s: Store, path: string, requested: seq<OutboxRecord>, now: Time, k: nat,
    attempts: seq<Attempt>, last: Attempt, z: Store, once: Attempt, z1: Store)
    requires EnqueueRequest(s, path, requested, now)
    requires var metadata := s.metadata[path];
      var operations := AllReenqueued(s.outbox, requested);
      var ws := EnqueueWrites(s, path, metadata.generation, metadata.currentVersion, operations, now);
      var key := (path, metadata.currentVersion);
      k <= |ws| && RecoversTo(Apply(s, ws[..k]), key, attempts, last, now, z) &&
      RecoversTo(Apply(s, ws[..k]), key, [], once, now, z1)
    ensures SameOutcome(z, z1)
  {
    EnqueueIsRequeue(s, path, requested, now);
    EnqueueIsRestorable(s, path, requested, now);
    RequeueIsRestartable(s, EnqueueMutation(s, path, requested, now), k, attempts, last, z, once, z1);
  }
}
