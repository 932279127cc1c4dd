/** Where a source mutation can be cut off, and what the store holds there
    (internal/backend/path_data.go, path_versions.go). */
module Interruption {
  import opened Records
  import opened OutboxStorage
  import opened SourceStorage
  import opened SourceMutations
  import opened Recovery
  import opened Text
  import opened WriteEffects

  function Key(m: Mutation): (string, nat) { (m.path, m.record.version) }

  /** Equal but for the update time. */
  predicate Same(a: OutboxRecord, b: OutboxRecord) { a.(updatedTime := b.updatedTime) == b }

  ghost predicate SameOutbox(a: map<string, OutboxRecord>, b: map<string, OutboxRecord>) {
    (forall id :: id in a <==> id in b) && forall id :: id in a ==> Same(a[id], b[id])
  }

  /** Equal but for update times of outbox records and for stale index entries. */
  ghost predicate SameOutcome(a: Store, b: Store) {
    a.metadata == b.metadata && a.versions == b.versions && a.intents == b.intents &&
    a.associations == b.associations && SameOutbox(a.outbox, b.outbox)
  }

  // ---------------------------------------------------------- planned mutations

  ghost function Protected(s: Store, m: Mutation): set<nat> { QueuedUpsertVersions(s.outbox, m.path) }

  /** Versions the mutation prunes. */
  ghost function Doomed(s: Store, m: Mutation): set<nat> {
    var base := BaseMetadata(s, IntentOf(m));
    if base.currentVersion < m.record.version
    then Prunable(Advanced(base, m.record.version, m.record.createdTime), Protected(s, m)) else {}
  }

  ghost function DoomedKeys(s: Store, m: Mutation): set<(string, nat)> {
    set v | v in Doomed(s, m) :: (m.path, v)
  }

  /** The metadata the request stores is what its version record and intent determine. */
  ghost predicate PlannedMetadata(s: Store, m: Mutation) {
    RecoveredMetadata(BaseMetadata(s, IntentOf(m)), IntentOf(m), m.record, Protected(s, m)) == Some(m.metadata) &&
    Normalize(m.metadata) == m.metadata && m.metadata.currentVersion == m.record.version &&
    VersionEntry(m.metadata, m.record.version) == RecoveredEntry(m.record) &&
    VersionDeletes(m.prune) && DeletedKeys(m.prune) == DoomedKeys(s, m)
  }

  /** What queueing the mutation's operations relies on. */
  ghost predicate PlannedQueue(s: Store, m: Mutation) {
    IndexComplete(s) && DistinctIds(m.operations) && Disjoint(m) && Unclaimed(s, m.cancelIds, m.now) &&
    m.now <= m.cancelTime
  }

  /** An operation is never among those it replaces. */
  ghost predicate Disjoint(m: Mutation) {
    forall i :: 0 <= i < |m.operations| ==> m.operations[i].id !in m.cancelIds
  }

  ghost predicate PlannedOperations(s: Store, m: Mutation) {
    forall i :: 0 <= i < |m.operations| ==>
      var r := m.operations[i];
      NewOperation(r, r.kind, m.path, m.record.version, m.now) && ShouldRecover(r.kind, m.record.Available()) &&
      (m.path, r.associationId) in s.associations
  }

  /** Recovery can store each operation again, or finds it stored already. */
  ghost predicate Restorable(s: Store, m: Mutation) {
    forall i :: 0 <= i < |m.operations| ==>
      var r := m.operations[i];
      ShouldRecover(r.kind, m.record.Available()) && (m.path, r.associationId) in s.associations &&
      (r.id !in s.outbox ==> NewOperation(r, r.kind, m.path, m.record.version, m.now))
  }

  ghost predicate Ready(s: Store, m: Mutation) {
    Key(m) !in s.intents && m.touchesVersion && PlannedMetadata(s, m) && PlannedOperations(s, m) && PlannedQueue(s, m)
  }

  /** A mutation as the request handlers plan it, about to change a version record. */
  ghost predicate Planned(s: Store, m: Mutation) {
    Ready(s, m) &&
    if Key(m) in s.versions then s.versions[Key(m)] != m.record && s.versions[Key(m)].version == m.record.version
    else m.record.Available()
  }

  /** No older record with the id of a new operation, unless it is the same operation. */
  ghost predicate NoConflict(s: Store, m: Mutation) {
    forall i :: 0 <= i < |m.operations| && m.operations[i].id in s.outbox ==>
      Same(s.outbox[m.operations[i].id], m.operations[i])
  }

  predicate FlipsAvailability(s: Store, m: Mutation) {
    VersionAvailable(s, m.path, m.record.version) != m.record.Available()
  }

  /** The version a mutation stores is never one it prunes. */
  lemma KeyIsNotDoomed(s: Store, m: Mutation)
    ensures Key(m) !in DoomedKeys(s, m)
  {
  }

  // ------------------------------------------------------------- in-flight states

  ghost function Intended(s: Store, m: Mutation): map<(string, nat), Intent> { s.intents[Key(m) := IntentOf(m)] }

  ghost function NewVersions(s: Store, m: Mutation): map<(string, nat), VersionRecord> {
    s.versions[Key(m) := m.record] - DoomedKeys(s, m)
  }

  /** Only the intent is stored. */
  ghost predicate Announced(s: Store, m: Mutation, x: Store) { x == s.(intents := Intended(s, m)) }

  ghost predicate VersionsBetween(s: Store, m: Mutation, versions: map<(string, nat), VersionRecord>) {
    Key(m) in versions && versions[Key(m)] == m.record &&
    (forall k :: k in versions && k != Key(m) ==> k in s.versions && versions[k] == s.versions[k]) &&
    forall k :: k in s.versions && k !in DoomedKeys(s, m) ==> k in versions
  }

  /** The version record is stored and pruning may have begun. */
  ghost predicate Versioned(s: Store, m: Mutation, x: Store) {
    x == s.(intents := Intended(s, m), versions := x.versions) && VersionsBetween(s, m, x.versions)
  }

  ghost predicate OutboxBetween(s: Store, m: Mutation, outbox: map<string, OutboxRecord>) {
    (forall id :: id in outbox ==> IsIdOf(m.operations, id) || (id in s.outbox && outbox[id] == s.outbox[id])) &&
    (forall id :: id in s.outbox && id !in CanceledIds(s, m.cancelIds) ==> id in outbox) &&
    forall i :: 0 <= i < |m.operations| && m.operations[i].id in outbox ==>
      var id := m.operations[i].id;
      Same(outbox[id], m.operations[i]) || (id in s.outbox && outbox[id] == s.outbox[id])
  }

  /** `base` with the outbox on its way from that of `s` to that of the finished mutation. */
  ghost predicate Queueing(s: Store, m: Mutation, base: Store, x: Store) {
    x == base.(outbox := x.outbox, index := x.index) && OutboxBetween(s, m, x.outbox) && IndexComplete(x)
  }

  /** The store with the mutation's metadata and versions and its intent. */
  ghost function Base(s: Store, m: Mutation): Store {
    s.(metadata := s.metadata[m.path := m.metadata], versions := NewVersions(s, m), intents := Intended(s, m))
  }

  /** Metadata is stored and the outbox may be partly updated. */
  ghost predicate Recorded(s: Store, m: Mutation, x: Store) { Queueing(s, m, Base(s, m), x) }

  ghost predicate InFlight(s: Store, m: Mutation, x: Store) { Versioned(s, m, x) || Recorded(s, m, x) }

  ghost predicate OutboxAfter(s: Store, m: Mutation, outbox: map<string, OutboxRecord>) {
    (forall i :: 0 <= i < |m.operations| ==>
      m.operations[i].id in outbox && Same(outbox[m.operations[i].id], m.operations[i])) &&
    forall id :: !IsIdOf(m.operations, id) ==>
      (id in outbox <==> id in s.outbox && id !in CanceledIds(s, m.cancelIds)) &&
      (id in outbox ==> outbox[id] == s.outbox[id])
  }

  ghost predicate Queued(s: Store, m: Mutation, base: Store, x: Store) {
    x == base.(intents := base.intents - {Key(m)}, outbox := x.outbox, index := x.index) &&
    OutboxAfter(s, m, x.outbox) && IndexComplete(x)
  }

  /** The mutation is complete. */
  ghost predicate Done(s: Store, m: Mutation, x: Store) { Queued(s, m, Base(s, m), x) }

  lemma DoneAlike(s: Store, m: Mutation, x: Store, y: Store)
    requires Done(s, m, x) && Done(s, m, y)
    ensures SameOutcome(x, y)
  {
    forall id
      ensures id in x.outbox <==> id in y.outbox
      ensures id in x.outbox ==> Same(x.outbox[id], y.outbox[id])
    {
      if IsIdOf(m.operations, id) {
        var i :| 0 <= i < |m.operations| && m.operations[i].id == id;
      }
    }
  }

  // ------------------------------------------------------------- queue prefixes

  ghost predicate MovesForward(s: Store, m: Mutation, w: Write) {
    w.PutIndex? || w.DeleteIndex? || (w.DeleteOutbox? && w.id in CanceledIds(s, m.cancelIds)) ||
    (w.PutOutbox? && exists i :: 0 <= i < |m.operations| && Same(w.operation, m.operations[i]))
  }

  ghost predicate AllMoveForward(s: Store, m: Mutation, ws: seq<Write>) { forall w :: w in ws ==> MovesForward(s, m, w) }

  lemma StepForward(s: Store, m: Mutation, x: Store, w: Write)
    requires DistinctIds(m.operations) && Disjoint(m) && OutboxBetween(s, m, x.outbox) && MovesForward(s, m, w)
    ensures OutboxBetween(s, m, Step(x, w).outbox)
    ensures Step(x, w) == x.(outbox := Step(x, w).outbox, index := Step(x, w).index)
  {
    if w.PutOutbox? {
      var i :| 0 <= i < |m.operations| && Same(w.operation, m.operations[i]);
      var out := Step(x, w).outbox;
      forall j | 0 <= j < |m.operations| && m.operations[j].id in out
        ensures var id := m.operations[j].id;
          Same(out[id], m.operations[j]) || (id in s.outbox && out[id] == s.outbox[id])
      {
        assert j != i ==> m.operations[j].id != m.operations[i].id;
      }
    }
  }

  lemma {:induction false} ForwardPrefix(s: Store, m: Mutation, x: Store, ws: seq<Write>, k: nat)
    requires DistinctIds(m.operations) && Disjoint(m) && OutboxBetween(s, m, x.outbox) && AllMoveForward(s, m, ws) &&
      k <= |ws|
    ensures var y := Apply(x, ws[..k]); OutboxBetween(s, m, y.outbox) && y == x.(outbox := y.outbox, index := y.index)
    decreases k
  {
    if k > 0 {
      StepForward(s, m, x, ws[0]);
      ForwardPrefix(s, m, Step(x, ws[0]), ws[1..], k - 1);
      assert ws[..k][1..] == ws[1..][..k - 1];
    }
  }

  lemma QueueingPrefix(s: Store, m: Mutation, base: Store, x: Store, ws: seq<Write>, k: nat)
    requires PlannedQueue(s, m) && Queueing(s, m, base, x) && AllSafe(x, ws) && AllMoveForward(s, m, ws) && k <= |ws|
    ensures Queueing(s, m, base, Apply(x, ws[..k]))
  {
    ForwardPrefix(s, m, x, ws, k);
    SafeWritesKeepIndexes(x, ws, k);
  }

  lemma OnlyMoveForward(s: Store, m: Mutation, ws: seq<Write>, gone: set<string>, put: seq<OutboxRecord>)
    requires QueueWritesOnly(ws, gone, put) && gone <= CanceledIds(s, m.cancelIds)
    requires forall r :: r in put ==> exists i :: 0 <= i < |m.operations| && Same(r, m.operations[i])
    ensures AllMoveForward(s, m, ws)
  {
  }

  // ------------------------------------------------------------ end of the queue

  /** From `before` to `after`, operations of the mutation that are already stored are
      kept as they are, and missing ones are at most added as planned. */
  ghost predicate Continues(m: Mutation, before: map<string, OutboxRecord>, after: map<string, OutboxRecord>) {
    forall i :: 0 <= i < |m.operations| ==>
      var id := m.operations[i].id;
      if id in before then id in after && after[id] == before[id] else id in after ==> Same(after[id], m.operations[i])
  }

  lemma ContinuesOn(
    m: Mutation, a: map<string, OutboxRecord>, b: map<string, OutboxRecord>, c: map<string, OutboxRecord>)
    requires Continues(m, a, b) && Continues(m, b, c)
    ensures Continues(m, a, c)
  {
  }

  /** A write that keeps to that: only operations that were missing are stored. */
  ghost predicate AddsPlanned(m: Mutation, before: map<string, OutboxRecord>, w: Write) {
    match w
    case PutOutbox(r) => r.id !in before && exists i :: 0 <= i < |m.operations| && Same(r, m.operations[i])
    case DeleteOutbox(id) => !IsIdOf(m.operations, id)
    case _ => true
  }

  ghost predicate AllAddPlanned(m: Mutation, before: map<string, OutboxRecord>, ws: seq<Write>) {
    forall w :: w in ws ==> AddsPlanned(m, before, w)
  }

  lemma StepContinues(m: Mutation, before: map<string, OutboxRecord>, x: Store, w: Write)
    requires DistinctIds(m.operations) && AddsPlanned(m, before, w) && Continues(m, before, x.outbox)
    ensures Continues(m, before, Step(x, w).outbox)
  {
    if w.PutOutbox? {
      var i :| 0 <= i < |m.operations| && Same(w.operation, m.operations[i]);
      assert forall j :: 0 <= j < |m.operations| && j != i ==> m.operations[j].id != m.operations[i].id;
    }
  }

  lemma {:induction false} PrefixContinues(
    m: Mutation, before: map<string, OutboxRecord>, x: Store, ws: seq<Write>, k: nat)
    requires DistinctIds(m.operations) && AllAddPlanned(m, before, ws) && Continues(m, before, x.outbox) && k <= |ws|
    ensures Continues(m, before, Apply(x, ws[..k]).outbox)
    decreases k
  {
    if k > 0 {
      StepContinues(m, before, x, ws[0]);
      PrefixContinues(m, before, Step(x, ws[0]), ws[1..], k - 1);
      assert ws[..k][1..] == ws[1..][..k - 1];
    }
  }

  /** Every operation is stored in some form, and what the mutation replaces is gone. */
  ghost predicate Enqueued(s: Store, m: Mutation, outbox: map<string, OutboxRecord>) {
    (forall i :: 0 <= i < |m.operations| ==> m.operations[i].id in outbox) &&
    forall id :: !IsIdOf(m.operations, id) ==> (id in outbox <==> id in s.outbox && id !in CanceledIds(s, m.cancelIds))
  }

  /** The operations recovery restores: those of the mutation, as planned unless stored. */
  ghost predicate Restores(s: Store, m: Mutation, operations: seq<OutboxRecord>) {
    |operations| == |m.operations| && forall i :: 0 <= i < |operations| ==>
      operations[i].id == m.operations[i].id &&
      (operations[i].id !in s.outbox ==> Same(operations[i], m.operations[i]))
  }

  lemma RestoredIds(s: Store, m: Mutation, operations: seq<OutboxRecord>)
    requires Restores(s, m, operations)
    ensures forall id :: IsIdOf(operations, id) <==> IsIdOf(m.operations, id)
    ensures DistinctIds(m.operations) ==> DistinctIds(operations)
  {
    forall id
      ensures IsIdOf(operations, id) <==> IsIdOf(m.operations, id)
    {
      if IsIdOf(operations, id) {
        var i :| 0 <= i < |operations| && operations[i].id == id;
        assert m.operations[i].id == id;
      }
      if IsIdOf(m.operations, id) {
        var i :| 0 <= i < |operations| && m.operations[i].id == id;
        assert operations[i].id == id;
      }
    }
  }

  /** Restoring moves the mutation forward and adds operations only as planned. */
  lemma RestoringWrites(
    s: Store, m: Mutation, ws: seq<Write>, before: map<string, OutboxRecord>, operations: seq<OutboxRecord>)
    requires AddsMissing(ws, before, operations) && Restores(s, m, operations)
    requires forall i :: 0 <= i < |m.operations| && m.operations[i].id in s.outbox ==> m.operations[i].id in before
    ensures AllMoveForward(s, m, ws) && AllAddPlanned(m, before, ws)
  {
    forall w | w in ws && w.PutOutbox?
      ensures MovesForward(s, m, w) && AddsPlanned(m, before, w)
    {
      assert QueueWrite(w, {}, operations);
      var i :| 0 <= i < |operations| && operations[i] == w.operation;
      assert Same(operations[i], m.operations[i]);
    }
    assert forall w :: w in ws ==> QueueWrite(w, {}, operations);
  }

  /** After the cancellations everything but the mutation's own operations is as it will be. */
  lemma AfterCancel(s: Store, m: Mutation, base: Store, x: Store, after: map<string, OutboxRecord>)
    requires PlannedQueue(s, m) && Queueing(s, m, base, x) && after == x.outbox - CanceledIds(x, m.cancelIds)
    ensures CanceledIds(x, m.cancelIds) <= CanceledIds(s, m.cancelIds)
    ensures forall id :: !IsIdOf(m.operations, id) ==>
      (id in after <==> id in s.outbox && id !in CanceledIds(s, m.cancelIds)) &&
      (id in after ==> after[id] == s.outbox[id])
    ensures Continues(m, x.outbox, after)
  {
    assert forall id :: id in m.cancelIds ==> !IsIdOf(m.operations, id);
  }

  lemma StoredAfter(
    s: Store, m: Mutation, base: Store, x: Store, after: map<string, OutboxRecord>, end: map<string, OutboxRecord>)
    requires PlannedQueue(s, m) && Queueing(s, m, base, x) && after == x.outbox - CanceledIds(x, m.cancelIds)
    requires Stored(after, m.operations, end)
    ensures OutboxAfter(s, m, end)
  {
    AfterCancel(s, m, base, x, after);
  }

  lemma AddedAfter(
    s: Store, m: Mutation, base: Store, x: Store, after: map<string, OutboxRecord>,
    operations: seq<OutboxRecord>, end: map<string, OutboxRecord>)
    requires PlannedQueue(s, m) && Queueing(s, m, base, x) && after == x.outbox - CanceledIds(x, m.cancelIds)
    requires Restores(s, m, operations) && Added(after, operations, end)
    ensures NoConflict(s, m) ==> OutboxAfter(s, m, end)
    ensures Enqueued(s, m, end) && Continues(m, x.outbox, end)
  {
    AfterCancel(s, m, base, x, after);
    RestoredIds(s, m, operations);
    forall i | 0 <= i < |m.operations|
      ensures var id := m.operations[i].id;
        id in end && (id in x.outbox ==> end[id] == x.outbox[id]) &&
        (id !in x.outbox ==> Same(end[id], m.operations[i])) &&
        (NoConflict(s, m) ==> Same(end[id], m.operations[i]))
    {
      assert operations[i].id in end;
    }
  }

  lemma RemoveIntent(m: Mutation, base: Store, x: Store) returns (z: Store)
    requires x == base.(outbox := x.outbox, index := x.index) && IndexComplete(x)
    ensures Leads(x, [DeleteIntent(m.path, m.record.version)], z) && IndexComplete(z) && z.outbox == x.outbox
    ensures z == base.(intents := base.intents - {Key(m)}, outbox := x.outbox, index := x.index)
  {
    z := Step(x, DeleteIntent(m.path, m.record.version));
    AllSafeSingle(x, DeleteIntent(m.path, m.record.version));
    SameIndexes(x, z);
  }

  /** A group of queue writes followed by the removal of the intent. */
  lemma QueueThenRemove(
    s: Store, m: Mutation, base: Store, x: Store, queue: seq<Write>, y: Store, k: nat) returns (z: Store)
    requires PlannedQueue(s, m) && Queueing(s, m, base, x) && Leads(x, queue, y) && AllMoveForward(s, m, queue)
    requires k <= |queue| + 1
    ensures Leads(x, queue + [DeleteIntent(m.path, m.record.version)], z)
    ensures z == base.(intents := base.intents - {Key(m)}, outbox := y.outbox, index := y.index) && IndexComplete(z)
    ensures OutboxBetween(s, m, z.outbox)
    ensures k <= |queue| ==> Queueing(s, m, base, Apply(x, (queue + [DeleteIntent(m.path, m.record.version)])[..k]))
  {
    var last := DeleteIntent(m.path, m.record.version);
    QueueingPrefix(s, m, base, x, queue, |queue|);
    assert queue[..|queue|] == queue;
    z := RemoveIntent(m, base, y);
    LeadsConcat(x, queue, y, [last], z);
    if k <= |queue| {
      QueueingPrefix(s, m, base, x, queue, k);
      ApplyPart(x, queue, [last], k);
    }
  }

  // ------------------------------------------------------------ commit prefixes

  lemma VersionsShrink(s: Store, m: Mutation, versions: map<(string, nat), VersionRecord>, gone: set<(string, nat)>)
    requires VersionsBetween(s, m, versions) && gone <= DoomedKeys(s, m)
    ensures VersionsBetween(s, m, versions - gone)
    ensures gone == DoomedKeys(s, m) ==> versions - gone == NewVersions(s, m)
  {
    KeyIsNotDoomed(s, m);
    assert forall k :: k in NewVersions(s, m) <==> (k == Key(m) || k in s.versions) && k !in DoomedKeys(s, m);
  }

  lemma PruningPrefix(s: Store, m: Mutation, x: Store, ws: seq<Write>, k: nat)
    requires Ready(s, m) && Versioned(s, m, x) && VersionDeletes(ws) && DeletedKeys(ws) <= DoomedKeys(s, m) && k <= |ws|
    ensures Versioned(s, m, Apply(x, ws[..k]))
    ensures AllSafe(x, ws)
    ensures k == |ws| && DeletedKeys(ws) == DoomedKeys(s, m) ==> Apply(x, ws[..k]).versions == NewVersions(s, m)
  {
    DeletesEffect(x, ws);
    DeletesEffect(x, ws[..k]);
    VersionsShrink(s, m, x.versions, DeletedKeys(ws[..k]));
    if k == |ws| {
      assert ws[..k] == ws;
    }
  }

  /** Storing the metadata after the pruning ends the versioned phase. */
  lemma RecordMetadata(s: Store, m: Mutation, x: Store)
    requires Ready(s, m) && Versioned(s, m, x) && x.versions == NewVersions(s, m)
    ensures Recorded(s, m, Step(x, PutMetadata(m.path, m.metadata)))
  {
    SameIndexes(s, Step(x, PutMetadata(m.path, m.metadata)));
  }

  lemma PruneThenRecord(s: Store, m: Mutation, x: Store, prune: seq<Write>, k: nat) returns (y: Store)
    requires Ready(s, m) && Versioned(s, m, x) && VersionDeletes(prune) && DeletedKeys(prune) == DoomedKeys(s, m)
    requires k <= |prune| + 1
    ensures Leads(x, prune + [PutMetadata(m.path, m.metadata)], y)
    ensures Recorded(s, m, y) && y.outbox == s.outbox
    ensures InFlight(s, m, Apply(x, (prune + [PutMetadata(m.path, m.metadata)])[..k]))
  {
    var put := PutMetadata(m.path, m.metadata);
    PruningPrefix(s, m, x, prune, |prune|);
    assert prune[..|prune|] == prune;
    var x1 := Apply(x, prune);
    RecordMetadata(s, m, x1);
    y := Step(x1, put);
    AllSafeSingle(x1, put);
    LeadsConcat(x, prune, x1, [put], y);
    ApplyPart(x, prune, [put], k);
    if k <= |prune| {
      PruningPrefix(s, m, x, prune, k);
    } else {
      assert [put][..1] == [put];
    }
  }

  /** Intent, version, pruning, metadata: every prefix. */
  lemma SourcePrefix(s: Store, m: Mutation, k: nat) returns (y: Store)
    requires Ready(s, m) && m.operations != [] && k <= |IntentWrites(m) + SourceWrites(m)|
    ensures Leads(s, IntentWrites(m) + SourceWrites(m), y) && Recorded(s, m, y) && y.outbox == s.outbox
    ensures var x := Apply(s, (IntentWrites(m) + SourceWrites(m))[..k]);
            if k == 0 then x == s else if k == 1 then Announced(s, m, x) else InFlight(s, m, x)
  {
    var put := [PutIntent(IntentOf(m)), PutVersion(m.path, m.record)];
    var rest := m.prune + [PutMetadata(m.path, m.metadata)];
    assert IntentWrites(m) + SourceWrites(m) == put + rest;
    var x0 := Step(s, put[0]);
    var x1 := Step(x0, put[1]);
    AllSafeSingle(s, put[0]);
    AllSafeSingle(x0, put[1]);
    LeadsConcat(s, [put[0]], x0, [put[1]], x1);
    assert [put[0]] + [put[1]] == put;
    KeyIsNotDoomed(s, m);
    y := PruneThenRecord(s, m, x1, m.prune, if k < 2 then 0 else k - 2);
    LeadsConcat(s, put, x1, rest, y);
    ApplyPart(s, put, rest, k);
    if k == 1 {
      assert put[..1] == [put[0]];
    } else if k >= 2 {
      assert put[..2] == put && rest[..0] == [];
    }
  }

  /** Cancellations, outbox records and intent removal: every prefix. */
  lemma CommitQueuePrefix(s: Store, m: Mutation, base: Store, x: Store, k: nat) returns (z: Store)
    requires PlannedQueue(s, m) && m.operations != [] && Queueing(s, m, base, x) && x.outbox == s.outbox
    requires k <= |QueueWrites(x, m).writes|
    ensures QueueWrites(x, m).ok && Leads(x, QueueWrites(x, m).writes, z) && Queued(s, m, base, z)
    ensures k < |QueueWrites(x, m).writes| ==> Queueing(s, m, base, Apply(x, QueueWrites(x, m).writes[..k]))
  {
    var y := CancelEffect(x, m.cancelIds, m.cancelTime);
    var cancel := Cancel(x, m.cancelIds, m.cancelTime).writes;
    var z1 := PutAllEffect(y, m.operations);
    var puts := PutAllWrites(y, m.operations);
    LeadsConcat(x, cancel, y, puts, z1);
    OnlyMoveForward(s, m, cancel, CanceledIds(x, m.cancelIds), []);
    OnlyMoveForward(s, m, puts, {}, m.operations);
    assert QueueWrites(x, m).writes == cancel + puts + CompleteWrites(m);
    z := QueueThenRemove(s, m, base, x, cancel + puts, z1, k);
    StoredAfter(s, m, base, x, y.outbox, z1.outbox);
  }

  /** Where a commit can be cut: before the intent, after the intent alone, in flight,
      or complete. The outbox indexes are complete at every cut. */
  lemma CommitPrefix(s: Store, m: Mutation, k: nat)
    requires Ready(s, m) && m.operations != [] && k <= |Commit(s, m).writes|
    ensures Commit(s, m).ok && AllSafe(s, Commit(s, m).writes)
    ensures |Commit(s, m).writes| > 2
    ensures var x := Apply(s, Commit(s, m).writes[..k]);
      if k == 0 then x == s else if k == 1 then Announced(s, m, x)
      else if k < |Commit(s, m).writes| then InFlight(s, m, x) else Done(s, m, x)
  {
    var source := IntentWrites(m) + SourceWrites(m);
    var x := SourcePrefix(s, m, if k <= |source| then k else 0);
    var queue := QueueWrites(x, m).writes;
    var z := CommitQueuePrefix(s, m, Base(s, m), x, if k <= |source| then 0 else k - |source|);
    LeadsConcat(s, source, x, queue, z);
    ApplyPart(s, source, queue, k);
    if k == |source| + |queue| {
      assert (source + queue)[..k] == source + queue;
    }
  }
}
