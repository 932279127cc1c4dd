/** Re-enqueue of an association's current version
    (internal/backend/association_enqueue.go). */
module AssociationEnqueue {
  import opened Records
  import opened OutboxStorage
  import opened SourceStorage
  import opened SourceMutations
  import opened WriteEffects
  import opened QueueDepths

  /** Queued work keeps its record, claim and retry schedule; a finished record keeps its
      creation time and claim attempt. */
  function Reenqueued(outbox: map<string, OutboxRecord>, operation: OutboxRecord): OutboxRecord {
    if operation.id !in outbox then operation
    else if outbox[operation.id].Queued() then outbox[operation.id]
    else operation.(createdTime := outbox[operation.id].createdTime, claimAttempt := outbox[operation.id].claimAttempt)
  }

  function AllReenqueued(outbox: map<string, OutboxRecord>, operations: seq<OutboxRecord>): seq<OutboxRecord> {
    seq(|operations|, i requires 0 <= i < |operations| => Reenqueued(outbox, operations[i]))
  }

  /** The intent an association enqueue writes carries no cancellations. */
  function EnqueueIntent(
    path: string, generation: string, version: nat, operations: seq<OutboxRecord>, now: Time): Intent {
    Intent(path, generation, version,
      seq(|operations|, i requires 0 <= i < |operations| => IntentOperationOf(operations[i])), [], now)
  }

  function EnqueueWrites(
    s: Store, path: string, generation: string, version: nat, operations: seq<OutboxRecord>, now: Time): seq<Write>
  {
    if operations == [] then []
    else
      var intent := [PutIntent(EnqueueIntent(path, generation, version, operations, now))];
      intent + PutAllWrites(Apply(s, intent), operations) + [DeleteIntent(path, version)]
  }

  /** The loop that rewrites the planned operations in place. */
  method PreserveQueued(st: Storage, requested: seq<OutboxRecord>) returns (operations: seq<OutboxRecord>)
    ensures operations == AllReenqueued(st.data.outbox, requested)
  {
    operations := requested;
    for i := 0 to |operations|
      invariant |operations| == |requested|
      invariant forall j :: 0 <= j < i ==> operations[j] == Reenqueued(st.data.outbox, requested[j])
      invariant forall j :: i <= j < |requested| ==> operations[j] == requested[j]
    {
      if operations[i].id in st.data.outbox {
        var existing := st.data.outbox[operations[i].id];
        if existing.Queued() {
          operations := operations[i := existing];
        } else {
          operations := operations[i :=
            operations[i].(createdTime := existing.createdTime, claimAttempt := existing.claimAttempt)];
        }
      }
    }
  }

  method CommitEnqueue(
    st: Storage, path: string, generation: string, version: nat, operations: seq<OutboxRecord>, now: Time) returns (ok: bool)
    modifies st
    ensures Ran(old(st.data), old(st.budget),
      Outcome(EnqueueWrites(old(st.data), path, generation, version, operations, now), true), st.data, st.budget, ok)
  {
    if operations == [] {
      return true;
    }
    ghost var s, b := st.data, st.budget;
    var intent := [PutIntent(EnqueueIntent(path, generation, version, operations, now))];
    ok := st.WriteAll(intent);
    ghost var s1, b1, ok1 := st.data, st.budget, ok;
    ghost var puts := PutAllWrites(Apply(s, intent), operations);
    if ok {
      ok := PutOutboxRecords(st, operations);
    }
    RanThen(s, b, Outcome(intent, true), s1, b1, ok1, Outcome(puts, true), st.data, st.budget, ok);
    ghost var s2, b2, ok2 := st.data, st.budget, ok;
    if ok {
      ok := st.Write(DeleteIntent(path, version));
    }
    RanThen(s, b, Outcome(intent + puts, true), s2, b2, ok2, Outcome([DeleteIntent(path, version)], true),
      st.data, st.budget, ok);
  }

  /** enqueueAssociationsCurrentVersion from the moment it holds the enqueue lock. */
  method EnqueueAssociations(
    st: Storage, path: string, generation: string, version: nat, requested: seq<OutboxRecord>, capacity: nat, now: Time)
    returns (result: CommitResult)
    requires IndexComplete(st.data)
    modifies st
    ensures result == QueueFull <==>
      Additional(old(st.data), requested) > 0 &&
      QueueDepth(old(st.data)) + Additional(old(st.data), requested) > capacity
    ensures if result == QueueFull then st.data == old(st.data) && st.budget == old(st.budget) else
      Ran(old(st.data), old(st.budget),
        Outcome(
          EnqueueWrites(old(st.data), path, generation, version, AllReenqueued(old(st.data).outbox, requested), now), true),
        st.data, st.budget, result == Success)
    ensures result != OperationClaimed
  {
    var additional := AdditionalOperations(st, requested);
    var fits := EnsureCapacity(st, additional, 0, capacity);
    if !fits {
      return QueueFull;
    }
    var operations := PreserveQueued(st, requested);
    var ok := CommitEnqueue(st, path, generation, version, operations, now);
    result := if ok then Success else StorageFailure;
  }

  lemma ReenqueuedIds(outbox: map<string, OutboxRecord>, operations: seq<OutboxRecord>)
    requires forall id :: id in outbox ==> outbox[id].id == id
    ensures DistinctIds(operations) ==> DistinctIds(AllReenqueued(outbox, operations))
    ensures forall id :: IsIdOf(AllReenqueued(outbox, operations), id) <==> IsIdOf(operations, id)
    ensures forall i :: 0 <= i < |operations| ==> AllReenqueued(outbox, operations)[i].id == operations[i].id
  {
    var again := AllReenqueued(outbox, operations);
    assert forall i :: 0 <= i < |operations| ==> again[i].id == operations[i].id;
  }

  /** A complete re-enqueue leaves every queued record exactly as it was, claim and retry
      schedule included, queues every other requested operation as pending, and stays
      within capacity. */
  lemma ReenqueueEffect(
    s: Store, path: string, generation: string, version: nat, requested: seq<OutboxRecord>, now: Time, capacity: nat)
    returns (z: Store)
    requires IndexComplete(s) && DistinctIds(requested) && (path, version) !in s.intents
    requires forall i :: 0 <= i < |requested| ==> NewOperation(requested[i], Upsert, path, version, now)
    requires Additional(s, requested) == 0 || QueueDepth(s) + Additional(s, requested) <= capacity
    ensures z == Apply(s, EnqueueWrites(s, path, generation, version, AllReenqueued(s.outbox, requested), now))
    ensures z == s.(outbox := z.outbox, index := z.index) && IndexComplete(z)
    ensures forall id :: AlreadyQueued(s, id) ==> id in z.outbox && z.outbox[id] == s.outbox[id]
    ensures forall id :: IsIdOf(requested, id) ==> AlreadyQueued(z, id)
    ensures forall id :: id in z.outbox <==> id in s.outbox || IsIdOf(requested, id)
    ensures QueueDepth(z) == QueueDepth(s) + Additional(s, requested)
    ensures QueueDepth(z) <= QueueDepth(s) || QueueDepth(z) <= capacity
  {
    var operations := AllReenqueued(s.outbox, requested);
    ReenqueuedIds(s.outbox, requested);
    z := EnqueueEffect(s, path, generation, version, operations, now);
    forall id | AlreadyQueued(s, id)
      ensures id in z.outbox && z.outbox[id] == s.outbox[id]
    {
      if IsIdOf(requested, id) {
        var i :| 0 <= i < |requested| && requested[i].id == id;
        assert z.outbox[operations[i].id] == operations[i];
      }
    }
    ReenqueueDepth(s, requested, operations, z);
  }

  lemma EnqueueEffect(
    s: Store, path: string, generation: string, version: nat, operations: seq<OutboxRecord>, now: Time)
    returns (z: Store)
    requires IndexComplete(s) && DistinctIds(operations) && (path, version) !in s.intents
    ensures z == Apply(s, EnqueueWrites(s, path, generation, version, operations, now))
    ensures z == s.(outbox := z.outbox, index := z.index) && IndexComplete(z)
    ensures Stored(s.outbox, operations, z.outbox)
  {
    if operations == [] {
      z := s;
    } else {
      var intent := PutIntent(EnqueueIntent(path, generation, version, operations, now));
      var x := Step(s, intent);
      AllSafeSingle(s, intent);
      SameIndexes(s, x);
      var y := PutAllEffect(x, operations);
      var puts := PutAllWrites(x, operations);
      SafeWritesKeepIndexes(x, puts, |puts|);
      assert puts[..|puts|] == puts;
      z := Step(y, DeleteIntent(path, version));
      SameIndexes(y, z);
      ApplyOne(y, DeleteIntent(path, version));
      ApplyConcat(s, [intent], puts);
      ApplyConcat(s, [intent] + puts, [DeleteIntent(path, version)]);
      assert x.intents - {(path, version)} == s.intents;
    }
  }

  lemma ReenqueueDepth(s: Store, requested: seq<OutboxRecord>, operations: seq<OutboxRecord>, z: Store)
    requires DistinctIds(requested) && operations == AllReenqueued(s.outbox, requested)
    requires forall id :: id in s.outbox ==> s.outbox[id].id == id
    requires forall i :: 0 <= i < |requested| ==> requested[i].Queued()
    requires Stored(s.outbox, operations, z.outbox)
    ensures QueueDepth(z) == QueueDepth(s) + Additional(s, requested)
    ensures forall id :: IsIdOf(requested, id) ==> AlreadyQueued(z, id)
    ensures forall id :: id in z.outbox <==> id in s.outbox || IsIdOf(requested, id)
  {
    forall id
      ensures IsIdOf(requested, id) ==> AlreadyQueued(z, id)
      ensures id in QueuedIds(z) <==> id in QueuedIds(s) || IsIdOf(requested, id)
      ensures id in z.outbox <==> id in s.outbox || IsIdOf(requested, id)
    {
      ReenqueuedId(s, requested, operations, z, id);
    }
    IdsOfMembers(requested);
    assert QueuedIds(z) == QueuedIds(s) + IdsOf(requested);
    DepthGrows(s, requested, z);
  }

  lemma DepthGrows(s: Store, requested: seq<OutboxRecord>, z: Store)
    requires DistinctIds(requested)
    requires QueuedIds(z) == QueuedIds(s) + IdsOf(requested)
    ensures QueueDepth(z) == QueueDepth(s) + Additional(s, requested)
  {
    AdditionalCounts(s, requested);
    ReplacedSize(QueuedIds(s), {}, IdsOf(requested));
    assert QueuedIds(s) - {} == QueuedIds(s);
  }

  lemma ReenqueuedId(s: Store, requested: seq<OutboxRecord>, operations: seq<OutboxRecord>, z: Store, id: string)
    requires operations == AllReenqueued(s.outbox, requested) && Stored(s.outbox, operations, z.outbox)
    requires forall k :: k in s.outbox ==> s.outbox[k].id == k
    requires forall i :: 0 <= i < |requested| ==> requested[i].Queued()
    ensures IsIdOf(requested, id) ==> AlreadyQueued(z, id)
    ensures !IsIdOf(requested, id) ==>
      (id in z.outbox <==> id in s.outbox) && (id in s.outbox ==> z.outbox[id] == s.outbox[id])
  {
    ReenqueuedIds(s.outbox, requested);
    if IsIdOf(requested, id) {
      var i :| 0 <= i < |requested| && requested[i].id == id;
      assert operations[i].id == id && z.outbox[operations[i].id] == operations[i];
    }
  }
}
