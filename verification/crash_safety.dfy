/** A mutation interrupted after any storage write, then recovered, ends as if it had
    never started or as if it had completed; and exactly when this holds
    (internal/backend/recovery.go, path_data.go, path_versions.go). */
module CrashSafety {
  import opened Records
  import opened OutboxStorage
  import opened SourceStorage
  import opened SourceMutations
  import opened Recovery
  import opened Text
  import opened WriteEffects
  import opened Interruption

  // ---------------------------------------------------------- recovery prefixes

  /** Intents of planned mutations carry one side only: all their operations are
      recoverable, or none. */
  lemma MutationIsCommitted(s: Store, m: Mutation, available: bool)
    requires Restorable(s, m) && m.operations != []
    ensures MutationCommitted(IntentOf(m), available) <==> available == m.record.Available()
  {
    var operations := IntentOf(m).operations;
    assert forall i :: 0 <= i < |operations| ==> operations[i].kind == m.operations[i].kind;
    assert ShouldRecover(operations[0].kind, m.record.Available());
  }

  lemma DeletesDoomed(s: Store, m: Mutation, order: seq<nat>, doomed: set<nat>, keys: set<nat>)
    requires Visits(order, keys) && doomed <= keys && doomed == Doomed(s, m)
    ensures VersionDeletes(DeletesInOrder(m.path, order, doomed))
    ensures DeletedKeys(DeletesInOrder(m.path, order, doomed)) == DoomedKeys(s, m)
  {
    var ws := DeletesInOrder(m.path, order, doomed);
    DeletesInOrderWrites(m.path, order, doomed);
    forall v | v in doomed
      ensures (m.path, v) in DeletedKeys(ws)
    {
      assert DeleteVersion(m.path, v) in ws;
    }
  }

  /** Recovery repeats the pruning and stores the metadata of the interrupted request. */
  lemma RecoverVersioned(s: Store, m: Mutation, x: Store, order: seq<nat>, k: nat) returns (y: Store)
    requires Ready(s, m) && m.operations != [] && Versioned(s, m, x) && Visits(order, PruneKeys(x, IntentOf(m)))
    requires k <= |MetadataPhase(x, IntentOf(m), order)|
    ensures Leads(x, MetadataPhase(x, IntentOf(m), order), y) && Recorded(s, m, y) && y.outbox == x.outbox
    ensures InFlight(s, m, Apply(x, MetadataPhase(x, IntentOf(m), order)[..k]))
  {
    var intent := IntentOf(m);
    var base := BaseMetadata(s, intent);
    MutationIsCommitted(s, m, m.record.Available());
    assert BaseMetadata(x, intent) == base && QueuedUpsertVersions(x.outbox, m.path) == Protected(s, m);
    var prune := [];
    if base.currentVersion < m.record.version {
      prune := DeletesInOrder(m.path, order, Doomed(s, m));
      DeletesDoomed(s, m, order, Doomed(s, m), PruneKeys(x, intent));
    }
    assert MetadataPhase(x, intent, order) == prune + [PutMetadata(m.path, m.metadata)];
    y := PruneThenRecord(s, m, x, prune, k);
  }

  lemma NothingToRecord(s: Store, m: Mutation, x: Store, order: seq<nat>)
    requires Ready(s, m) && Recorded(s, m, x)
    ensures MetadataPhase(x, IntentOf(m), order) == []
  {
    assert BaseMetadata(x, IntentOf(m)) == m.metadata;
  }

  lemma {:induction false} RecoverableOfPlanned(s: Store, m: Mutation, x: Store, now: Time, n: nat)
    requires Restorable(s, m) && x.associations == s.associations && n <= |m.operations|
    ensures var operations := RecoverableOperations(x, IntentOf(m), IntentOf(m).operations[..n], now, m.record.Available());
      |operations| == n && forall i :: 0 <= i < n ==>
        operations[i].id == m.operations[i].id && (operations[i].id !in s.outbox ==> Same(operations[i], m.operations[i]))
  {
    if n > 0 {
      RecoverableOfPlanned(s, m, x, now, n - 1);
      assert IntentOf(m).operations[..n][..n - 1] == IntentOf(m).operations[..n - 1];
      assert IntentOf(m).operations[n - 1] == IntentOperationOf(m.operations[n - 1]);
    }
  }

  /** Claims only expire while no worker runs. */
  lemma StillUnclaimed(s: Store, m: Mutation, base: Store, x: Store, now: Time)
    requires PlannedQueue(s, m) && Queueing(s, m, base, x) && m.now <= now
    ensures Unclaimed(x, IntentOf(m).cancelIds, now)
    ensures CanceledIds(x, IntentOf(m).cancelIds) == CanceledIds(x, m.cancelIds)
  {
    assert forall id :: id in m.cancelIds ==> !IsIdOf(m.operations, id);
  }

  /** recoverEnqueueIntent after its metadata step, for a committed mutation. */
  ghost function QueueRecovery(x: Store, m: Mutation, now: Time): Outcome {
    var cancel := CancelPhase(x, IntentOf(m), m.record.Available(), now);
    Then(cancel, QueuePhase(Apply(x, cancel.writes), IntentOf(m), m.record.Available(), now))
  }

  lemma RecoveryCancels(s: Store, m: Mutation, base: Store, x: Store, now: Time) returns (cancel: seq<Write>, y: Store)
    requires PlannedQueue(s, m) && Queueing(s, m, base, x) && m.now <= now
    ensures Cancel(x, IntentOf(m).cancelIds, now) == Outcome(cancel, true)
    ensures Leads(x, cancel, y) && AllMoveForward(s, m, cancel) && AllAddPlanned(m, x.outbox, cancel)
    ensures y == x.(outbox := x.outbox - CanceledIds(x, m.cancelIds), index := y.index) && Keyed(y)
  {
    StillUnclaimed(s, m, base, x, now);
    y := CancelEffect(x, IntentOf(m).cancelIds, now);
    cancel := Cancel(x, IntentOf(m).cancelIds, now).writes;
    AfterCancel(s, m, base, x, y.outbox);
    OnlyMoveForward(s, m, cancel, CanceledIds(x, m.cancelIds), []);
    assert forall id :: id in m.cancelIds ==> !IsIdOf(m.operations, id);
    assert forall w :: w in cancel ==> QueueWrite(w, CanceledIds(x, m.cancelIds), []);
  }

  lemma QueueRecoveryWrites(s: Store, m: Mutation, base: Store, x: Store, now: Time)
    returns (cancel: seq<Write>, y: Store, operations: seq<OutboxRecord>)
    requires PlannedQueue(s, m) && Restorable(s, m) && m.operations != [] && m.now <= now
    requires Queueing(s, m, base, x) && x.associations == s.associations
    ensures QueueRecovery(x, m, now) ==
      Outcome(cancel + RecoverPutWrites(y, operations) + [DeleteIntent(m.path, m.record.version)], true)
    ensures Leads(x, cancel, y) && AllMoveForward(s, m, cancel) && AllAddPlanned(m, x.outbox, cancel)
    ensures Restores(s, m, operations)
    ensures y == x.(outbox := x.outbox - CanceledIds(x, m.cancelIds), index := y.index) && Keyed(y)
  {
    var intent := IntentOf(m);
    MutationIsCommitted(s, m, m.record.Available());
    cancel, y := RecoveryCancels(s, m, base, x, now);
    RecoverableOfPlanned(s, m, y, now, |m.operations|);
    assert intent.operations[..|m.operations|] == intent.operations;
    operations := RecoverableOperations(y, intent, intent.operations, now, m.record.Available());
    var puts, last := RecoverPutWrites(y, operations), [DeleteIntent(m.path, m.record.version)];
    assert cancel + (puts + last) == cancel + puts + last;
  }

  /** Everything recovery does to the queue before it removes the intent. */
  lemma QueueRecoveryEnds(s: Store, m: Mutation, base: Store, x: Store, now: Time) returns (queue: seq<Write>, z: Store)
    requires PlannedQueue(s, m) && Restorable(s, m) && m.operations != [] && m.now <= now
    requires Queueing(s, m, base, x) && x.associations == s.associations
    ensures QueueRecovery(x, m, now) == Outcome(queue + [DeleteIntent(m.path, m.record.version)], true)
    ensures Leads(x, queue, z) && AllMoveForward(s, m, queue) && AllAddPlanned(m, x.outbox, queue)
    ensures Enqueued(s, m, z.outbox) && Continues(m, x.outbox, z.outbox)
    ensures NoConflict(s, m) ==> OutboxAfter(s, m, z.outbox)
  {
    var cancel, y, operations := QueueRecoveryWrites(s, m, base, x, now);
    RestoredIds(s, m, operations);
    z := RecoverPutsEffect(y, operations);
    var puts := RecoverPutWrites(y, operations);
    LeadsConcat(x, cancel, y, puts, z);
    RestoringAfterCancel(s, m, base, x, y, puts, operations);
    queue := cancel + puts;
    AddedAfter(s, m, base, x, y.outbox, operations, z.outbox);
  }

  lemma RestoringAfterCancel(
    s: Store, m: Mutation, base: Store, x: Store, y: Store, puts: seq<Write>, operations: seq<OutboxRecord>)
    requires PlannedQueue(s, m) && Queueing(s, m, base, x) && y.outbox == x.outbox - CanceledIds(x, m.cancelIds)
    requires AddsMissing(puts, y.outbox, operations) && Restores(s, m, operations)
    ensures AllMoveForward(s, m, puts) && AllAddPlanned(m, x.outbox, puts)
  {
    forall i | 0 <= i < |m.operations|
      ensures m.operations[i].id in s.outbox ==> m.operations[i].id in y.outbox
      ensures m.operations[i].id in y.outbox <==> m.operations[i].id in x.outbox
    {
      assert m.operations[i].id !in m.cancelIds;
    }
    RestoringWrites(s, m, puts, y.outbox, operations);
  }

  /** The queue part of recovery: every prefix, and where it ends. */
  lemma RecoverQueuePrefix(s: Store, m: Mutation, base: Store, x: Store, now: Time, k: nat) returns (z: Store)
    requires PlannedQueue(s, m) && Restorable(s, m) && m.operations != [] && m.now <= now
    requires Queueing(s, m, base, x) && x.associations == s.associations
    requires k <= |QueueRecovery(x, m, now).writes|
    ensures QueueRecovery(x, m, now).ok && Leads(x, QueueRecovery(x, m, now).writes, z)
    ensures z == base.(intents := base.intents - {Key(m)}, outbox := z.outbox, index := z.index) && IndexComplete(z)
    ensures Enqueued(s, m, z.outbox) && OutboxBetween(s, m, z.outbox) && Continues(m, x.outbox, z.outbox)
    ensures NoConflict(s, m) ==> OutboxAfter(s, m, z.outbox)
    ensures k < |QueueRecovery(x, m, now).writes| ==>
      Queueing(s, m, base, Apply(x, QueueRecovery(x, m, now).writes[..k]))
    ensures Continues(m, x.outbox, Apply(x, QueueRecovery(x, m, now).writes[..k]).outbox)
  {
    var queue, y := QueueRecoveryEnds(s, m, base, x, now);
    z := QueueThenRemove(s, m, base, x, queue, y, k);
    PrefixContinues(m, x.outbox, x, queue + [DeleteIntent(m.path, m.record.version)], k);
  }

  lemma RecoverMetadataPrefix(s: Store, m: Mutation, x: Store, order: seq<nat>, k: nat) returns (y: Store)
    requires Ready(s, m) && m.operations != [] && InFlight(s, m, x) && Visits(order, PruneKeys(x, IntentOf(m)))
    requires k <= |MetadataPhase(x, IntentOf(m), order)|
    ensures Leads(x, MetadataPhase(x, IntentOf(m), order), y) && Recorded(s, m, y) && y.outbox == x.outbox
    ensures InFlight(s, m, Apply(x, MetadataPhase(x, IntentOf(m), order)[..k]))
  {
    if Versioned(s, m, x) {
      y := RecoverVersioned(s, m, x, order, k);
    } else {
      NothingToRecord(s, m, x, order);
      y := x;
    }
  }

  /** recoverEnqueueIntent stores metadata first and then the queue. */
  lemma RecoverSplits(s: Store, m: Mutation, x: Store, y: Store, now: Time, order: seq<nat>)
    requires VersionAvailable(x, m.path, m.record.version) == m.record.Available()
    requires y == Apply(x, MetadataPhase(x, IntentOf(m), order)) && QueueRecovery(y, m, now).ok
    ensures Recover(x, IntentOf(m), now, order) ==
      Outcome(MetadataPhase(x, IntentOf(m), order) + QueueRecovery(y, m, now).writes, true)
  {
  }

  lemma NoMetadataToRecover(m: Mutation, x: Store, now: Time, order: seq<nat>)
    requires VersionAvailable(x, m.path, m.record.version) == m.record.Available()
    requires MetadataPhase(x, IntentOf(m), order) == []
    ensures Recover(x, IntentOf(m), now, order) == QueueRecovery(x, m, now)
  {
    var queue := QueueRecovery(x, m, now);
    assert Apply(x, MetadataPhase(x, IntentOf(m), order)) == x;
    assert Recover(x, IntentOf(m), now, order) == Then(Outcome([], true), queue);
    assert [] + queue.writes == queue.writes;
  }

  lemma NoMetadataPhase(s: Store, m: Mutation, x: Store, order: seq<nat>)
    requires Key(m) in s.versions && x.metadata == s.metadata && x.versions == s.versions
    requires RecoveredMetadata(BaseMetadata(s, IntentOf(m)), IntentOf(m), s.versions[Key(m)], Protected(s, m)) == None
    ensures MetadataPhase(x, IntentOf(m), order) == []
  {
  }

  lemma InFlightVersion(s: Store, m: Mutation, x: Store)
    requires Key(m) !in s.intents && InFlight(s, m, x)
    ensures Key(m) in x.versions && x.versions[Key(m)] == m.record && Key(m) in x.intents &&
      x.intents[Key(m)] == IntentOf(m)
    ensures x.associations == s.associations && Base(s, m).intents - {Key(m)} == s.intents
  {
    KeyIsNotDoomed(s, m);
    IntentRemoved(s, m);
    if !Versioned(s, m, x) {
      assert Key(m) in NewVersions(s, m) && NewVersions(s, m)[Key(m)] == m.record;
    }
  }

  lemma IntentRemoved(s: Store, m: Mutation)
    requires Key(m) !in s.intents
    ensures Intended(s, m) - {Key(m)} == s.intents
  {
  }

  /** The two parts of recovery of a mutation in flight. */
  lemma RecoveryParts(s: Store, m: Mutation, x: Store, now: Time, order: seq<nat>) returns (y: Store)
    requires Ready(s, m) && m.operations != [] && InFlight(s, m, x) && m.now <= now
    requires Visits(order, PruneKeys(x, IntentOf(m)))
    ensures Leads(x, MetadataPhase(x, IntentOf(m), order), y) && Recorded(s, m, y) && y.outbox == x.outbox
    ensures y.associations == s.associations
    ensures Recover(x, IntentOf(m), now, order) ==
      Outcome(MetadataPhase(x, IntentOf(m), order) + QueueRecovery(y, m, now).writes, true)
  {
    InFlightVersion(s, m, x);
    y := RecoverMetadataPrefix(s, m, x, order, 0);
    var z := RecoverQueuePrefix(s, m, Base(s, m), y, now, 0);
    RecoverSplits(s, m, x, y, now, order);
  }

  /** Recovery of a mutation in flight, run to its end, completes the mutation. */
  lemma RecoverInFlight(s: Store, m: Mutation, x: Store, now: Time, order: seq<nat>) returns (z: Store)
    requires Ready(s, m) && m.operations != [] && InFlight(s, m, x) && m.now <= now
    requires Visits(order, PruneKeys(x, IntentOf(m)))
    ensures Recover(x, IntentOf(m), now, order).ok && Leads(x, Recover(x, IntentOf(m), now, order).writes, z)
    ensures z == s.(
      metadata := s.metadata[m.path := m.metadata], versions := NewVersions(s, m), outbox := z.outbox, index := z.index)
    ensures IndexComplete(z) && Enqueued(s, m, z.outbox) && OutboxBetween(s, m, z.outbox)
    ensures Continues(m, x.outbox, z.outbox)
    ensures NoConflict(s, m) ==> Done(s, m, z)
  {
    var y := RecoveryParts(s, m, x, now, order);
    z := RecoverQueuePrefix(s, m, Base(s, m), y, now, 0);
    LeadsConcat(x, MetadataPhase(x, IntentOf(m), order), y, QueueRecovery(y, m, now).writes, z);
    InFlightVersion(s, m, x);
  }

  /** Cut anywhere before its end, recovery leaves the mutation in flight. */
  lemma RecoverInFlightPrefix(s: Store, m: Mutation, x: Store, now: Time, order: seq<nat>, k: nat)
    requires Ready(s, m) && m.operations != [] && InFlight(s, m, x) && m.now <= now
    requires Visits(order, PruneKeys(x, IntentOf(m))) && k < |Recover(x, IntentOf(m), now, order).writes|
    ensures InFlight(s, m, Apply(x, Recover(x, IntentOf(m), now, order).writes[..k]))
    ensures Continues(m, x.outbox, Apply(x, Recover(x, IntentOf(m), now, order).writes[..k]).outbox)
  {
    var y := RecoveryParts(s, m, x, now, order);
    if k <= |MetadataPhase(x, IntentOf(m), order)| {
      var y' := RecoverMetadataPrefix(s, m, x, order, k);
      ApplyPart(x, MetadataPhase(x, IntentOf(m), order), QueueRecovery(y, m, now).writes, k);
      MetadataLeavesOutbox(x, IntentOf(m), order, k);
    } else {
      CutInQueue(s, m, x, y, MetadataPhase(x, IntentOf(m), order), now, k);
    }
  }

  /** The metadata step of recovery does not touch the outbox. */
  lemma MetadataLeavesOutbox(x: Store, intent: Intent, order: seq<nat>, k: nat)
    requires k <= |MetadataPhase(x, intent, order)|
    ensures Apply(x, MetadataPhase(x, intent, order)[..k]).outbox == x.outbox
  {
    SourceWritesShape(x, intent, order);
    NoQueueWrites(x, MetadataPhase(x, intent, order)[..k]);
  }

  lemma CutInQueue(s: Store, m: Mutation, x: Store, y: Store, first: seq<Write>, now: Time, k: nat)
    requires PlannedQueue(s, m) && Restorable(s, m) && m.operations != [] && m.now <= now
    requires Recorded(s, m, y) && y.associations == s.associations && y == Apply(x, first)
    requires |first| < k < |first + QueueRecovery(y, m, now).writes|
    ensures Recorded(s, m, Apply(x, (first + QueueRecovery(y, m, now).writes)[..k]))
    ensures Continues(m, y.outbox, Apply(x, (first + QueueRecovery(y, m, now).writes)[..k]).outbox)
  {
    var queue := QueueRecovery(y, m, now).writes;
    ApplyPart(x, first, queue, k);
    var z := RecoverQueuePrefix(s, m, Base(s, m), y, now, k - |first|);
  }

  // ------------------------------------------------------------- whole recoveries

  /** One pass over the intent of the mutation, cut off after `cut` writes. */
  datatype Attempt = Attempt(now: Time, order: seq<nat>, cut: nat)

  ghost function RecoveryWrites(x: Store, key: (string, nat), a: Attempt): seq<Write> {
    if key in x.intents then Recover(x, x.intents[key], a.now, a.order).writes else []
  }

  ghost predicate Possible(x: Store, key: (string, nat), a: Attempt, from: Time) {
    from <= a.now && (key in x.intents ==> Visits(a.order, PruneKeys(x, x.intents[key])))
  }

  ghost function Attempted(x: Store, key: (string, nat), a: Attempt): Store {
    var ws := RecoveryWrites(x, key, a);
    Apply(x, if a.cut <= |ws| then ws[..a.cut] else ws)
  }

  /** Attempts one after the other, each starting where the one before was cut off. */
  ghost function Retried(x: Store, key: (string, nat), attempts: seq<Attempt>): Store
    decreases |attempts|
  {
    if attempts == [] then x else Retried(Attempted(x, key, attempts[0]), key, attempts[1..])
  }

  ghost predicate AllPossible(x: Store, key: (string, nat), attempts: seq<Attempt>, from: Time)
    decreases |attempts|
  {
    attempts != [] ==>
      Possible(x, key, attempts[0], from) && AllPossible(Attempted(x, key, attempts[0]), key, attempts[1..], from)
  }

  /** The attempts, the last of them complete. */
  ghost predicate RecoversTo(
    x: Store, key: (string, nat), attempts: seq<Attempt>, last: Attempt, from: Time, z: Store) {
    AllPossible(x, key, attempts, from) &&
    var y := Retried(x, key, attempts);
    Possible(y, key, last, from) && last.cut >= |RecoveryWrites(y, key, last)| && z == Attempted(y, key, last)
  }

  ghost function Completed(s: Store, m: Mutation): Store { Apply(s, Commit(s, m).writes) }

  /** What any complete commit makes of the outbox. */
  lemma CompletedOutbox(s: Store, m: Mutation)
    requires PlannedQueue(s, m) && VersionDeletes(m.prune)
    ensures Stored(s.outbox - CanceledIds(s, m.cancelIds), m.operations, Completed(s, m).outbox)
    ensures OutboxAfter(s, m, Completed(s, m).outbox)
  {
    var source := IntentWrites(m) + SourceWrites(m);
    var x := Apply(s, source);
    SourceLeavesOutbox(s, m);
    SameIndexes(s, x);
    QueuedOutbox(s, m, x);
    ApplyConcat(s, source, QueueWrites(x, m).writes);
  }

  lemma QueuedOutbox(s: Store, m: Mutation, x: Store)
    requires PlannedQueue(s, m) && IndexComplete(x) && x.outbox == s.outbox
    ensures Stored(s.outbox - CanceledIds(s, m.cancelIds), m.operations, Apply(x, QueueWrites(x, m).writes).outbox)
  {
    var y := CancelEffect(x, m.cancelIds, m.cancelTime);
    var z := PutAllEffect(y, m.operations);
    var cancel, puts := Cancel(x, m.cancelIds, m.cancelTime).writes, PutAllWrites(y, m.operations);
    assert QueueWrites(x, m).writes == cancel + (puts + CompleteWrites(m));
    ApplyConcat(x, cancel, puts + CompleteWrites(m));
    ApplyConcat(y, puts, CompleteWrites(m));
    ApplyOne(z, DeleteIntent(m.path, m.record.version));
  }

  lemma CompletedIsDone(s: Store, m: Mutation)
    requires Ready(s, m) && m.operations != []
    ensures Done(s, m, Completed(s, m))
  {
    CommitPrefix(s, m, |Commit(s, m).writes|);
    assert Commit(s, m).writes[..|Commit(s, m).writes|] == Commit(s, m).writes;
  }

  ghost predicate Settled(s: Store, m: Mutation, z: Store) {
    IndexComplete(z) && (SameOutcome(s, z) || SameOutcome(Completed(s, m), z))
  }

  /** Cut off after any of these writes, and recovered by any number of interrupted
      attempts and a complete one, they happened entirely or not at all. */
  ghost predicate Atomic(s: Store, ws: seq<Write>, key: (string, nat), from: Time) {
    forall k: nat, attempts, last, z ::
      k <= |ws| && RecoversTo(Apply(s, ws[..k]), key, attempts, last, from, z) ==>
      IndexComplete(z) && (SameOutcome(s, z) || SameOutcome(Apply(s, ws), z))
  }

  ghost predicate AllOrNothing(s: Store, m: Mutation) { Atomic(s, Commit(s, m).writes, Key(m), m.now) }

  // ---------------------------------------------------------------- sufficiency

  /** Recovery before the version record changed would find nothing to do. */
  ghost predicate Harmless(s: Store, m: Mutation) {
    Key(m) in s.versions &&
    RecoveredMetadata(BaseMetadata(s, IntentOf(m)), IntentOf(m), s.versions[Key(m)], Protected(s, m)) == None &&
    (forall i :: 0 <= i < |m.operations| ==> m.operations[i].id in s.outbox) &&
    CanceledIds(s, m.cancelIds) == {}
  }

  /** Only the intent is stored, and recovery would change nothing else. */
  ghost predicate Waiting(s: Store, m: Mutation, x: Store) {
    if FlipsAvailability(s, m) then Announced(s, m, x)
    else Harmless(s, m) && Queueing(s, m, s.(intents := Intended(s, m)), x)
  }

  /** As before the mutation. */
  ghost predicate Undone(s: Store, m: Mutation, x: Store) {
    Key(m) !in x.intents && SameOutcome(s, x) && IndexComplete(x)
  }

  /** On its way to completion. */
  ghost predicate Forward(s: Store, m: Mutation, x: Store) { InFlight(s, m, x) || Done(s, m, x) }

  /** On its way back. */
  ghost predicate Backward(s: Store, m: Mutation, x: Store) { Waiting(s, m, x) || Undone(s, m, x) }

  /** Where a mutation can be during recovery. */
  ghost predicate Underway(s: Store, m: Mutation, x: Store) { Forward(s, m, x) || Backward(s, m, x) }

  ghost predicate Recoverable(s: Store, m: Mutation) {
    Planned(s, m) && m.operations != [] && NoConflict(s, m) && (FlipsAvailability(s, m) || Harmless(s, m))
  }

  lemma {:induction false} NothingRecoverable(s: Store, m: Mutation, x: Store, now: Time, n: nat)
    requires PlannedOperations(s, m) && n <= |m.operations|
    ensures RecoverableOperations(x, IntentOf(m), IntentOf(m).operations[..n], now, !m.record.Available()) == []
  {
    if n > 0 {
      NothingRecoverable(s, m, x, now, n - 1);
      assert IntentOf(m).operations[..n][..n - 1] == IntentOf(m).operations[..n - 1];
      assert IntentOf(m).operations[n - 1].kind == m.operations[n - 1].kind;
    }
  }

  /** A mutation whose version record is unchanged is aborted: only its intent goes. */
  lemma AbortWrites(s: Store, m: Mutation, x: Store, now: Time, order: seq<nat>)
    requires PlannedOperations(s, m) && m.operations != []
    requires VersionAvailable(x, m.path, m.record.version) != m.record.Available()
    ensures Recover(x, IntentOf(m), now, order) == Outcome([DeleteIntent(m.path, m.record.version)], true)
  {
    MutationIsCommitted(s, m, !m.record.Available());
    NothingRecoverable(s, m, x, now, |m.operations|);
    assert IntentOf(m).operations[..|m.operations|] == IntentOf(m).operations;
  }

  lemma Abort(s: Store, m: Mutation, x: Store, now: Time, order: seq<nat>, k: nat)
    requires Ready(s, m) && m.operations != [] && FlipsAvailability(s, m) && Announced(s, m, x)
    requires k <= |Recover(x, IntentOf(m), now, order).writes|
    ensures var ws := Recover(x, IntentOf(m), now, order).writes;
      if k < |ws| then Announced(s, m, Apply(x, ws[..k])) else Apply(x, ws[..k]) == s
  {
    AbortWrites(s, m, x, now, order);
    if k > 0 {
      IntentRemoved(s, m);
      ApplyOne(x, DeleteIntent(m.path, m.record.version));
      WholePrefix([DeleteIntent(m.path, m.record.version)]);
    }
  }

  lemma HarmlessOutbox(s: Store, m: Mutation, outbox: map<string, OutboxRecord>)
    requires Harmless(s, m) && NoConflict(s, m) && OutboxAfter(s, m, outbox)
    ensures SameOutbox(s.outbox, outbox)
  {
    forall id
      ensures id in s.outbox <==> id in outbox
      ensures id in s.outbox ==> Same(s.outbox[id], outbox[id])
    {
      if IsIdOf(m.operations, id) {
        var i :| 0 <= i < |m.operations| && m.operations[i].id == id;
      }
    }
  }

  ghost function Announcement(s: Store, m: Mutation): Store { s.(intents := Intended(s, m)) }

  lemma HarmlessEnds(s: Store, m: Mutation, z: Store)
    requires Ready(s, m) && Harmless(s, m) && NoConflict(s, m) && OutboxAfter(s, m, z.outbox) && IndexComplete(z)
    requires z == s.(intents := Intended(s, m) - {Key(m)}, outbox := z.outbox, index := z.index)
    ensures Undone(s, m, z)
  {
    assert Intended(s, m) - {Key(m)} == s.intents;
    HarmlessOutbox(s, m, z.outbox);
  }

  lemma RecoverHarmless(s: Store, m: Mutation, x: Store, now: Time, order: seq<nat>)
    requires Recoverable(s, m) && !FlipsAvailability(s, m) && Waiting(s, m, x) && m.now <= now
    ensures Undone(s, m, Apply(x, Recover(x, IntentOf(m), now, order).writes))
  {
    HarmlessIsQueue(s, m, x, now, order);
    var z := RecoverQueuePrefix(s, m, Announcement(s, m), x, now, 0);
    HarmlessEnds(s, m, z);
  }

  lemma HarmlessIsQueue(s: Store, m: Mutation, x: Store, now: Time, order: seq<nat>)
    requires Recoverable(s, m) && !FlipsAvailability(s, m) && Waiting(s, m, x)
    ensures Recover(x, IntentOf(m), now, order) == QueueRecovery(x, m, now)
  {
    NoMetadataPhase(s, m, x, order);
    NoMetadataToRecover(m, x, now, order);
  }

  lemma RecoverHarmlessPrefix(s: Store, m: Mutation, x: Store, now: Time, order: seq<nat>, k: nat)
    requires Recoverable(s, m) && !FlipsAvailability(s, m) && Waiting(s, m, x) && m.now <= now
    requires k < |Recover(x, IntentOf(m), now, order).writes|
    ensures Waiting(s, m, Apply(x, Recover(x, IntentOf(m), now, order).writes[..k]))
  {
    HarmlessIsQueue(s, m, x, now, order);
    var z := RecoverQueuePrefix(s, m, Announcement(s, m), x, now, k);
  }

  lemma SelfOutcome(s: Store, m: Mutation)
    requires Ready(s, m)
    ensures Undone(s, m, s)
  {
  }

  ghost predicate Ended(s: Store, m: Mutation, x: Store) { Undone(s, m, x) || Done(s, m, x) }

  lemma AttemptInFlight(s: Store, m: Mutation, x: Store, now: Time, order: seq<nat>, k: nat)
    requires Recoverable(s, m) && InFlight(s, m, x) && m.now <= now && Visits(order, PruneKeys(x, IntentOf(m)))
    requires k <= |Recover(x, IntentOf(m), now, order).writes|
    ensures var ws := Recover(x, IntentOf(m), now, order).writes;
      if k < |ws| then InFlight(s, m, Apply(x, ws[..k])) else Done(s, m, Apply(x, ws[..k]))
  {
    var ws := Recover(x, IntentOf(m), now, order).writes;
    if k < |ws| {
      RecoverInFlightPrefix(s, m, x, now, order, k);
    } else {
      var z := RecoverInFlight(s, m, x, now, order);
      assert ws[..k] == ws;
    }
  }

  lemma AttemptWaiting(s: Store, m: Mutation, x: Store, now: Time, order: seq<nat>, k: nat)
    requires Recoverable(s, m) && Waiting(s, m, x) && m.now <= now
    requires k <= |Recover(x, IntentOf(m), now, order).writes|
    ensures var ws := Recover(x, IntentOf(m), now, order).writes;
      if k < |ws| then Waiting(s, m, Apply(x, ws[..k])) else Undone(s, m, Apply(x, ws[..k]))
  {
    if FlipsAvailability(s, m) {
      Abort(s, m, x, now, order, k);
      SelfOutcome(s, m);
    } else {
      AttemptHarmless(s, m, x, now, order, k);
    }
  }

  lemma AttemptHarmless(s: Store, m: Mutation, x: Store, now: Time, order: seq<nat>, k: nat)
    requires Recoverable(s, m) && !FlipsAvailability(s, m) && Waiting(s, m, x) && m.now <= now
    requires k <= |Recover(x, IntentOf(m), now, order).writes|
    ensures var ws := Recover(x, IntentOf(m), now, order).writes;
      if k < |ws| then Waiting(s, m, Apply(x, ws[..k])) else Undone(s, m, Apply(x, ws[..k]))
  {
    if k < |Recover(x, IntentOf(m), now, order).writes| {
      RecoverHarmlessPrefix(s, m, x, now, order, k);
    } else {
      RecoverHarmless(s, m, x, now, order);
      WholePrefix(Recover(x, IntentOf(m), now, order).writes);
    }
  }

  lemma WholePrefix(ws: seq<Write>)
    ensures ws[..|ws|] == ws
  {
  }

  lemma ForwardVersion(s: Store, m: Mutation, x: Store)
    requires Forward(s, m, x)
    ensures Key(m) in x.versions && x.versions[Key(m)] == m.record
  {
    KeyIsNotDoomed(s, m);
    assert Key(m) in NewVersions(s, m) && NewVersions(s, m)[Key(m)] == m.record;
  }

  lemma BackwardVersions(s: Store, m: Mutation, x: Store)
    requires Backward(s, m, x)
    ensures x.versions == s.versions
  {
  }

  /** A mutation is on its way to completion or back, never both. */
  lemma EitherWay(s: Store, m: Mutation, x: Store)
    requires Planned(s, m)
    ensures !(Forward(s, m, x) && Backward(s, m, x))
  {
    if Forward(s, m, x) {
      ForwardVersion(s, m, x);
      if Backward(s, m, x) {
        BackwardVersions(s, m, x);
      }
    }
  }

  lemma EndedWithoutIntent(s: Store, m: Mutation, x: Store)
    requires Ended(s, m, x)
    ensures Key(m) !in x.intents
  {
  }

  lemma WaitingIntent(s: Store, m: Mutation, x: Store)
    requires Waiting(s, m, x)
    ensures Key(m) in x.intents && x.intents[Key(m)] == IntentOf(m)
  {
  }

  /** An attempt keeps the mutation underway, and a complete one settles it. */
  lemma AttemptKeepsUnderway(s: Store, m: Mutation, x: Store, a: Attempt)
    requires Recoverable(s, m) && Underway(s, m, x) && Possible(x, Key(m), a, m.now)
    ensures Underway(s, m, Attempted(x, Key(m), a))
    ensures Forward(s, m, x) ==> Forward(s, m, Attempted(x, Key(m), a))
    ensures Backward(s, m, x) ==> Backward(s, m, Attempted(x, Key(m), a))
    ensures a.cut >= |RecoveryWrites(x, Key(m), a)| ==> Ended(s, m, Attempted(x, Key(m), a))
  {
    var ws := RecoveryWrites(x, Key(m), a);
    var k := if a.cut <= |ws| then a.cut else |ws|;
    assert ws[..|ws|] == ws;
    EitherWay(s, m, x);
    if InFlight(s, m, x) {
      InFlightVersion(s, m, x);
      AttemptInFlight(s, m, x, a.now, a.order, k);
    } else if Waiting(s, m, x) {
      WaitingIntent(s, m, x);
      AttemptWaiting(s, m, x, a.now, a.order, k);
    } else {
      EndedWithoutIntent(s, m, x);
    }
  }

  lemma {:induction false} RetriesKeepUnderway(s: Store, m: Mutation, x: Store, attempts: seq<Attempt>)
    requires Recoverable(s, m) && Underway(s, m, x) && AllPossible(x, Key(m), attempts, m.now)
    ensures Underway(s, m, Retried(x, Key(m), attempts))
    ensures Forward(s, m, x) ==> Forward(s, m, Retried(x, Key(m), attempts))
    ensures Backward(s, m, x) ==> Backward(s, m, Retried(x, Key(m), attempts))
    decreases |attempts|
  {
    if attempts != [] {
      AttemptKeepsUnderway(s, m, x, attempts[0]);
      RetriesKeepUnderway(s, m, Attempted(x, Key(m), attempts[0]), attempts[1..]);
    }
  }

  lemma CutIsUnderway(s: Store, m: Mutation, k: nat)
    requires Recoverable(s, m) && k <= |Commit(s, m).writes|
    ensures Underway(s, m, Apply(s, Commit(s, m).writes[..k]))
  {
    CommitPrefix(s, m, k);
    var x := Apply(s, Commit(s, m).writes[..k]);
    if k == 0 {
      SelfOutcome(s, m);
    } else if k == 1 && !FlipsAvailability(s, m) {
      SameIndexes(s, x);
    }
  }

  lemma RecoverableIsAllOrNothing(s: Store, m: Mutation)
    requires Recoverable(s, m)
    ensures AllOrNothing(s, m)
  {
    CompletedIsDone(s, m);
    forall k: nat, attempts, last, z |
      k <= |Commit(s, m).writes| && RecoversTo(Apply(s, Commit(s, m).writes[..k]), Key(m), attempts, last, m.now, z)
      ensures Settled(s, m, z)
    {
      var x := Apply(s, Commit(s, m).writes[..k]);
      CutIsUnderway(s, m, k);
      RetriesKeepUnderway(s, m, x, attempts);
      AttemptKeepsUnderway(s, m, Retried(x, Key(m), attempts), last);
      if Done(s, m, z) {
        DoneAlike(s, m, Completed(s, m), z);
      }
    }
  }

  // ------------------------------------------------------------------ necessity

  /** One complete recovery. */
  lemma CompleteAttempt(x: Store, key: (string, nat), from: Time) returns (last: Attempt, z: Store)
    ensures RecoversTo(x, key, [], last, from, z) && last.now == from
    ensures if key in x.intents
      then Visits(last.order, PruneKeys(x, x.intents[key])) &&
      z == Apply(x, Recover(x, x.intents[key], from, last.order).writes)
      else z == x
  {
    var order := SomeOrder(if key in x.intents then PruneKeys(x, x.intents[key]) else {});
    var ws := RecoveryWrites(x, key, Attempt(from, order, 0));
    last := Attempt(from, order, |ws|);
    assert RecoveryWrites(x, key, last) == ws && ws[..|ws|] == ws;
    z := Attempted(x, key, last);
  }

  /** One complete recovery started at time `m.now`. */
  lemma RecoverOnce(s: Store, m: Mutation, k: nat) returns (last: Attempt, z: Store)
    requires k <= |Commit(s, m).writes|
    requires var x := Apply(s, Commit(s, m).writes[..k]); Key(m) in x.intents ==> x.intents[Key(m)] == IntentOf(m)
    ensures var x := Apply(s, Commit(s, m).writes[..k]);
      RecoversTo(x, Key(m), [], last, m.now, z) && last.now == m.now &&
      if Key(m) in x.intents
      then Visits(last.order, PruneKeys(x, IntentOf(m))) &&
      z == Apply(x, Recover(x, IntentOf(m), m.now, last.order).writes)
      else z == x
  {
    last, z := CompleteAttempt(Apply(s, Commit(s, m).writes[..k]), Key(m), m.now);
  }

  lemma Unsettled(s: Store, m: Mutation, k: nat, last: Attempt, z: Store)
    requires k <= |Commit(s, m).writes| && RecoversTo(Apply(s, Commit(s, m).writes[..k]), Key(m), [], last, m.now, z)
    requires !SameOutcome(s, z) && !SameOutcome(Completed(s, m), z)
    ensures !AllOrNothing(s, m)
  {
    assert !Settled(s, m, z);
  }

  lemma MetadataChanges(s: Store, m: Mutation)
    requires PlannedMetadata(s, m)
    ensures s.metadata[m.path := m.metadata] != s.metadata
  {
    assert m.path in s.metadata && s.metadata[m.path] == m.metadata ==> BaseMetadata(s, IntentOf(m)) == m.metadata;
    assert m.path in s.metadata[m.path := m.metadata];
  }

  lemma SourceWithoutOperations(s: Store, m: Mutation) returns (x: Store)
    requires Planned(s, m) && m.operations == []
    ensures Apply(s, IntentWrites(m) + SourceWrites(m)) == x
    ensures x.metadata == s.metadata[m.path := m.metadata] && x.outbox == s.outbox
  {
    var v, put := PutVersion(m.path, m.record), PutMetadata(m.path, m.metadata);
    var x1 := Step(s, v);
    ApplyOne(s, v);
    DeletesEffect(x1, m.prune);
    var x2 := Apply(x1, m.prune);
    ApplyOne(x2, put);
    ApplyConcat(x1, m.prune, [put]);
    ApplyConcat(s, [v], m.prune + [put]);
    assert IntentWrites(m) + SourceWrites(m) == [v] + (m.prune + [put]);
    x := Step(x2, put);
  }

  /** Without operations there is no intent, so nothing repairs a version record
      stored without its metadata. */
  lemma WithoutOperations(s: Store, m: Mutation)
    requires Planned(s, m) && m.operations == []
    ensures !AllOrNothing(s, m)
  {
    var source := IntentWrites(m) + SourceWrites(m);
    var x := SourceWithoutOperations(s, m);
    var y := CancelEffect(x, m.cancelIds, m.cancelTime);
    var cancel := Cancel(x, m.cancelIds, m.cancelTime);
    assert QueueWrites(x, m).writes == cancel.writes;
    ApplyConcat(s, source, cancel.writes);
    assert Completed(s, m).metadata == s.metadata[m.path := m.metadata];
    assert Commit(s, m).writes[..1] == [PutVersion(m.path, m.record)];
    ApplyOne(s, PutVersion(m.path, m.record));
    var last, z := RecoverOnce(s, m, 1);
    MetadataChanges(s, m);
    assert z.versions[Key(m)] == m.record;
    Unsettled(s, m, 1, last, z);
  }

  /** The store after the intent, and after the version record. */
  lemma FirstCuts(s: Store, m: Mutation)
    requires Planned(s, m) && m.operations != []
    ensures |Commit(s, m).writes| > 2
    ensures Announced(s, m, Apply(s, Commit(s, m).writes[..1]))
    ensures var x := Apply(s, Commit(s, m).writes[..2]); Versioned(s, m, x) && x.outbox == s.outbox
    ensures Done(s, m, Completed(s, m)) && Completed(s, m).versions[Key(m)] == m.record
  {
    var put, version := PutIntent(IntentOf(m)), PutVersion(m.path, m.record);
    CompletedIsDone(s, m);
    KeyIsNotDoomed(s, m);
    CommitPrefix(s, m, 1);
    assert Commit(s, m).writes[..2] == [put] + [version];
    ApplyConcat(s, [put], [version]);
    ApplyOne(s, put);
    ApplyOne(Step(s, put), version);
  }

  lemma ConflictDiffers(
    s: Store, m: Mutation, completed: map<string, OutboxRecord>, recovered: map<string, OutboxRecord>)
    requires !NoConflict(s, m) && OutboxAfter(s, m, completed) && Continues(m, s.outbox, recovered)
    ensures !SameOutbox(completed, recovered)
  {
    var i :| 0 <= i < |m.operations| && m.operations[i].id in s.outbox && !Same(s.outbox[m.operations[i].id], m.operations[i]);
    assert recovered[m.operations[i].id] == s.outbox[m.operations[i].id];
    assert Same(completed[m.operations[i].id], m.operations[i]);
  }

  /** Recovery keeps an older record with the id of a new operation; the commit replaces it. */
  lemma ConflictBreaks(s: Store, m: Mutation)
    requires Planned(s, m) && m.operations != [] && !NoConflict(s, m)
    ensures !AllOrNothing(s, m)
  {
    FirstCuts(s, m);
    var x := Apply(s, Commit(s, m).writes[..2]);
    var last, z := RecoverOnce(s, m, 2);
    var z' := RecoverInFlight(s, m, x, m.now, last.order);
    MetadataChanges(s, m);
    ConflictDiffers(s, m, Completed(s, m).outbox, z.outbox);
    Unsettled(s, m, 2, last, z);
  }

  /** The mutation that recovery takes the unchanged version record for. */
  ghost function Mistaken(s: Store, m: Mutation, metadata: Metadata, prune: seq<Write>): Mutation
    requires Key(m) in s.versions
  {
    m.(record := s.versions[Key(m)], metadata := metadata, prune := prune)
  }

  lemma MistakenIsReady(s: Store, m: Mutation, metadata: Metadata) returns (m': Mutation)
    requires Planned(s, m) && Key(m) in s.versions && !FlipsAvailability(s, m)
    requires RecoveredMetadata(BaseMetadata(s, IntentOf(m)), IntentOf(m), s.versions[Key(m)], Protected(s, m)) == Some(metadata)
    ensures Ready(s, m') && m'.operations == m.operations && m'.now == m.now && IntentOf(m') == IntentOf(m)
    ensures m'.path == m.path && m'.record == s.versions[Key(m)] && m'.metadata == metadata
  {
    m' := Mistaken(s, m, metadata, []);
    var order := SomeOrder(Doomed(s, m'));
    DeletesDoomed(s, m', order, Doomed(s, m'), Doomed(s, m'));
    m' := Mistaken(s, m, metadata, DeletesInOrder(m.path, order, Doomed(s, m')));
  }

  /** Recovery from the intent alone stores metadata for a version record the request
      had not changed yet. */
  lemma MistakenMetadata(s: Store, m: Mutation, metadata: Metadata)
    requires Planned(s, m) && m.operations != [] && Key(m) in s.versions && !FlipsAvailability(s, m)
    requires RecoveredMetadata(BaseMetadata(s, IntentOf(m)), IntentOf(m), s.versions[Key(m)], Protected(s, m)) == Some(metadata)
    ensures !AllOrNothing(s, m)
  {
    FirstCuts(s, m);
    var x := Apply(s, Commit(s, m).writes[..1]);
    var last, z := RecoverOnce(s, m, 1);
    var z' := MistakenMetadataOutcome(s, m, metadata, x, last.order);
    Unsettled(s, m, 1, last, z);
  }

  lemma MistakenMetadataOutcome(s: Store, m: Mutation, metadata: Metadata, x: Store, order: seq<nat>) returns (z: Store)
    requires Planned(s, m) && m.operations != [] && Key(m) in s.versions && !FlipsAvailability(s, m)
    requires RecoveredMetadata(BaseMetadata(s, IntentOf(m)), IntentOf(m), s.versions[Key(m)], Protected(s, m)) == Some(metadata)
    requires Announced(s, m, x) && Visits(order, PruneKeys(x, IntentOf(m)))
    ensures z == Apply(x, Recover(x, IntentOf(m), m.now, order).writes)
    ensures z.metadata != s.metadata && Key(m) in z.versions && z.versions[Key(m)] == s.versions[Key(m)]
  {
    var m' := MistakenIsReady(s, m, metadata);
    assert Key(m) !in DoomedKeys(s, m');
    assert Versioned(s, m', x);
    z := RecoverInFlight(s, m', x, m.now, order);
    MetadataChanges(s, m');
  }

  /** Recovery from the intent alone queues operations or cancels others for a version
      record the request had not changed yet. */
  lemma MistakenQueue(s: Store, m: Mutation)
    requires Planned(s, m) && m.operations != [] && Key(m) in s.versions && !FlipsAvailability(s, m) && !Harmless(s, m)
    requires RecoveredMetadata(BaseMetadata(s, IntentOf(m)), IntentOf(m), s.versions[Key(m)], Protected(s, m)) == None
    ensures !AllOrNothing(s, m)
  {
    FirstCuts(s, m);
    var x := Apply(s, Commit(s, m).writes[..1]);
    var last, z := RecoverOnce(s, m, 1);
    var z' := MistakenQueueOutcome(s, m, x, last.order);
    if CanceledIds(s, m.cancelIds) != {} {
      var id :| id in CanceledIds(s, m.cancelIds);
      assert id in s.outbox && !IsIdOf(m.operations, id) && id !in z.outbox;
    } else {
      assert exists i :: 0 <= i < |m.operations| && m.operations[i].id !in s.outbox;
    }
    Unsettled(s, m, 1, last, z);
  }

  lemma MistakenQueueOutcome(s: Store, m: Mutation, x: Store, order: seq<nat>) returns (z: Store)
    requires Planned(s, m) && m.operations != [] && Key(m) in s.versions && !FlipsAvailability(s, m)
    requires RecoveredMetadata(BaseMetadata(s, IntentOf(m)), IntentOf(m), s.versions[Key(m)], Protected(s, m)) == None
    requires Announced(s, m, x)
    ensures z == Apply(x, Recover(x, IntentOf(m), m.now, order).writes)
    ensures z.versions == s.versions && Enqueued(s, m, z.outbox)
  {
    SameIndexes(s, x);
    z := RecoverQueuePrefix(s, m, Announcement(s, m), x, m.now, 0);
    NoMetadataPhase(s, m, x, order);
    NoMetadataToRecover(m, x, m.now, order);
  }

  /** A planned mutation is all-or-nothing exactly when it queues operations, no older
      record has the id of one of them, and it changes whether the version is available
      (or recovery before that change would find nothing to do). */
  lemma AllOrNothingExactly(s: Store, m: Mutation)
    requires Planned(s, m)
    ensures AllOrNothing(s, m) <==>
      m.operations != [] && NoConflict(s, m) && (FlipsAvailability(s, m) || Harmless(s, m))
  {
    if Recoverable(s, m) {
      RecoverableIsAllOrNothing(s, m);
    } else if m.operations == [] {
      WithoutOperations(s, m);
    } else if !NoConflict(s, m) {
      ConflictBreaks(s, m);
    } else {
      match RecoveredMetadata(BaseMetadata(s, IntentOf(m)), IntentOf(m), s.versions[Key(m)], Protected(s, m))
      case Some(metadata) => MistakenMetadata(s, m, metadata);
      case None => MistakenQueue(s, m);
    }
  }
}
