/** Commits that queue operations for a version record they leave alone: a repeated
    delete or destroy of the current version and the enqueue of associations. When such a
    commit, interrupted and recovered, is all-or-nothing
    (internal/backend/path_versions.go, association_enqueue.go, recovery.go). */
module Requeues {
  import opened Records
  import opened OutboxStorage
  import opened SourceStorage
  import opened SourceMutations
  import opened Recovery
  import opened WriteEffects
  import opened Interruption
  import opened CrashSafety
  import opened Restarts

  /** Intent, cancellations, operations, intent removal. */
  ghost function RequeueWrites(s: Store, m: Mutation): seq<Write> {
    [PutIntent(IntentOf(m))] + QueueWrites(Step(s, PutIntent(IntentOf(m))), m).writes
  }

  ghost function Requeued(s: Store, m: Mutation): Store { Apply(s, RequeueWrites(s, m)) }

  /** Every prefix of the writes. */
  lemma RequeuePrefix(s: Store, m: Mutation, k: nat)
    requires QuietlyRestorable(s, m) && k <= |RequeueWrites(s, m)|
    ensures QueueWrites(Step(s, PutIntent(IntentOf(m))), m).ok
    ensures var x := Apply(s, RequeueWrites(s, m)[..k]);
      if k == 0 then x == s
      else if k < |RequeueWrites(s, m)| then Moving(s, m, true, x)
      else Queued(s, m, Announcement(s, m), x)
  {
    var x := Step(s, PutIntent(IntentOf(m)));
    var queue := QueueWrites(x, m).writes;
    SameIndexes(s, x);
    var z := CommitQueuePrefix(s, m, Announcement(s, m), x, if k <= 1 then 0 else k - 1);
    CutAfterFirst(s, PutIntent(IntentOf(m)), queue, k);
    WholePrefix(queue);
  }

  lemma CutAfterFirst(s: Store, first: Write, rest: seq<Write>, k: nat)
    requires k <= |rest| + 1
    ensures Apply(s, ([first] + rest)[..k]) == if k == 0 then s else Apply(Step(s, first), rest[..k - 1])
  {
    ApplyOne(s, first);
    ApplyPart(s, [first], rest, k);
    if k == 1 {
      assert [first][..1] == [first] && rest[..0] == [];
    }
  }

  lemma RequeuedIsQueued(s: Store, m: Mutation)
    requires QuietlyRestorable(s, m)
    ensures Queued(s, m, Announcement(s, m), Requeued(s, m)) && Requeued(s, m).intents == s.intents
  {
    RequeuePrefix(s, m, |RequeueWrites(s, m)|);
    WholePrefix(RequeueWrites(s, m));
    IntentRemoved(s, m);
  }

  // ---------------------------------------------------------------- the condition

  /** Stored records that the commit replaces by different ones. */
  ghost function Conflicting(s: Store, m: Mutation): set<string> {
    set i | 0 <= i < |m.operations| && m.operations[i].id in s.outbox &&
      !Same(s.outbox[m.operations[i].id], m.operations[i]) :: m.operations[i].id
  }

  /** Recovery before anything is queued would neither cancel nor add. */
  ghost predicate NothingToRestore(s: Store, m: Mutation) {
    CanceledIds(s, m.cancelIds) == {} && forall i :: 0 <= i < |m.operations| ==> m.operations[i].id in s.outbox
  }

  /** One conflicting record is replaced by a single write. */
  ghost predicate AtomicRequeue(s: Store, m: Mutation) {
    NoConflict(s, m) || (|Conflicting(s, m)| == 1 && NothingToRestore(s, m))
  }

  // ------------------------------------------------------------------ sufficiency

  lemma FinishedWithoutConflict(s: Store, m: Mutation, z: Store)
    requires QuietlyRestorable(s, m) && NoConflict(s, m) && Finished(s, m, true, z)
    ensures SameOutcome(Requeued(s, m), z)
  {
    RequeuedIsQueued(s, m);
    var end := Requeued(s, m);
    forall id
      ensures id in end.outbox <==> id in z.outbox
      ensures id in end.outbox ==> Same(end.outbox[id], z.outbox[id])
    {
      if IsIdOf(m.operations, id) {
        var i :| 0 <= i < |m.operations| && m.operations[i].id == id;
        assert Same(end.outbox[id], m.operations[i]) && Same(z.outbox[id], m.operations[i]);
      }
    }
  }

  lemma FinishedWithOneConflict(s: Store, m: Mutation, z: Store)
    requires QuietlyRestorable(s, m) && |Conflicting(s, m)| == 1 && NothingToRestore(s, m) && Finished(s, m, true, z)
    ensures SameOutcome(s, z) || SameOutcome(Requeued(s, m), z)
  {
    RequeuedIsQueued(s, m);
    var end := Requeued(s, m);
    var c := OneOf(s, m);
    forall id
      ensures (id in s.outbox <==> id in z.outbox) && (id in end.outbox <==> id in z.outbox)
      ensures id in z.outbox ==> Same(s.outbox[id], z.outbox[id]) || Same(end.outbox[id], z.outbox[id])
      ensures id in z.outbox && id != c ==> Same(s.outbox[id], z.outbox[id]) && Same(end.outbox[id], z.outbox[id])
    {
      OperationOutcome(s, m, z, end, id);
      assert id != c ==> id !in Conflicting(s, m);
    }
    OneOfBoth(s.outbox, end.outbox, z.outbox, c);
  }

  /** An outbox that differs from two others in one record at most is like one of them. */
  lemma OneOfBoth(
    a: map<string, OutboxRecord>, b: map<string, OutboxRecord>, z: map<string, OutboxRecord>, c: string)
    requires forall id :: (id in a <==> id in z) && (id in b <==> id in z)
    requires forall id :: id in z ==> Same(a[id], z[id]) || Same(b[id], z[id])
    requires forall id :: id in z && id != c ==> Same(a[id], z[id]) && Same(b[id], z[id])
    ensures SameOutbox(a, z) || SameOutbox(b, z)
  {
  }

  lemma OneOf(s: Store, m: Mutation) returns (c: string)
    requires |Conflicting(s, m)| == 1
    ensures Conflicting(s, m) == {c}
  {
    c :| c in Conflicting(s, m);
    assert |Conflicting(s, m) - {c}| == 0;
    assert Conflicting(s, m) == {c} + (Conflicting(s, m) - {c});
  }

  /** What recovery and the whole commit make of one id. */
  lemma OperationOutcome(s: Store, m: Mutation, z: Store, end: Store, id: string)
    requires NothingToRestore(s, m) && Finished(s, m, true, z) && Queued(s, m, Announcement(s, m), end)
    ensures (id in s.outbox <==> id in z.outbox) && (id in end.outbox <==> id in z.outbox)
    ensures id in z.outbox ==> Same(s.outbox[id], z.outbox[id]) || Same(end.outbox[id], z.outbox[id])
    ensures id in z.outbox && id !in Conflicting(s, m) ==>
      Same(s.outbox[id], z.outbox[id]) && Same(end.outbox[id], z.outbox[id])
  {
    if IsIdOf(m.operations, id) {
      var i :| 0 <= i < |m.operations| && m.operations[i].id == id;
      assert Same(end.outbox[id], m.operations[i]);
    }
  }

  lemma AtomicCut(
    s: Store, m: Mutation, k: nat, attempts: seq<Attempt>, last: Attempt, z: Store)
    requires QuietlyRestorable(s, m) && AtomicRequeue(s, m) && k <= |RequeueWrites(s, m)|
    requires RecoversTo(Apply(s, RequeueWrites(s, m)[..k]), Key(m), attempts, last, m.now, z)
    ensures IndexComplete(z) && (SameOutcome(s, z) || SameOutcome(Requeued(s, m), z))
  {
    var x := Apply(s, RequeueWrites(s, m)[..k]);
    RequeuePrefix(s, m, k);
    if 0 < k < |RequeueWrites(s, m)| {
      AttemptsFinish(s, m, true, x, attempts, last, z);
      if NoConflict(s, m) {
        FinishedWithoutConflict(s, m, z);
      } else {
        FinishedWithOneConflict(s, m, z);
      }
    } else {
      IntentRemoved(s, m);
      NoIntentRestarts(x, Key(m), attempts, last, m.now, z);
      SameAsItself(x);
      if k > 0 {
        WholePrefix(RequeueWrites(s, m));
      }
    }
  }

  // -------------------------------------------------------------------- necessity

  lemma SplitAt(s: Store, m: Mutation, k: nat, z: Store, last: Attempt)
    requires k <= |RequeueWrites(s, m)|
    requires RecoversTo(Apply(s, RequeueWrites(s, m)[..k]), Key(m), [], last, m.now, z)
    requires !SameOutcome(s, z) && !SameOutcome(Requeued(s, m), z)
    ensures !Atomic(s, RequeueWrites(s, m), Key(m), m.now)
  {
  }

  /** A record that recovery kept although the commit replaces it. */
  lemma KeptConflict(s: Store, m: Mutation, z: Store, i: nat)
    requires QuietlyRestorable(s, m) && i < |m.operations|
    requires var id := m.operations[i].id;
      id in s.outbox && !Same(s.outbox[id], m.operations[i]) && id in z.outbox && z.outbox[id] == s.outbox[id]
    ensures !SameOutcome(Requeued(s, m), z)
  {
    RequeuedIsQueued(s, m);
    assert Same(Requeued(s, m).outbox[m.operations[i].id], m.operations[i]);
  }

  lemma KeepsConflicts(s: Store, m: Mutation, z: Store)
    requires QuietlyRestorable(s, m) && !NoConflict(s, m) && Continues(m, s.outbox, z.outbox)
    ensures !SameOutcome(Requeued(s, m), z)
  {
    var i :| 0 <= i < |m.operations| && m.operations[i].id in s.outbox &&
      !Same(s.outbox[m.operations[i].id], m.operations[i]);
    KeptConflict(s, m, z, i);
  }

  lemma IntentCut(s: Store, m: Mutation)
    requires QuietlyRestorable(s, m)
    ensures |RequeueWrites(s, m)| > 1
    ensures var x := Apply(s, RequeueWrites(s, m)[..1]); Moving(s, m, true, x) && x.outbox == s.outbox
  {
    RequeuePrefix(s, m, 0);
    RequeuePrefix(s, m, 1);
    assert RequeueWrites(s, m)[..1] == [PutIntent(IntentOf(m))];
    ApplyOne(s, PutIntent(IntentOf(m)));
  }

  /** The intent alone: recovery cancels and adds, and keeps the conflicting record. */
  lemma SplitsAtTheIntent(s: Store, m: Mutation)
    requires QuietlyRestorable(s, m) && !NoConflict(s, m) && !NothingToRestore(s, m)
    ensures !Atomic(s, RequeueWrites(s, m), Key(m), m.now)
  {
    IntentCut(s, m);
    var x := Apply(s, RequeueWrites(s, m)[..1]);
    var last, z := CompleteAttempt(x, Key(m), m.now);
    AttemptsFinish(s, m, true, x, [], last, z);
    KeepsConflicts(s, m, z);
    RestoredSomething(s, m, z);
    SplitAt(s, m, 1, z, last);
  }

  lemma RestoredSomething(s: Store, m: Mutation, z: Store)
    requires QuietlyRestorable(s, m) && !NothingToRestore(s, m) && Finished(s, m, true, z)
    ensures !SameOutcome(s, z)
  {
    if CanceledIds(s, m.cancelIds) != {} {
      var id :| id in CanceledIds(s, m.cancelIds);
      assert id in s.outbox && !IsIdOf(m.operations, id) && id !in z.outbox;
    } else {
      var i :| 0 <= i < |m.operations| && m.operations[i].id !in s.outbox;
      assert m.operations[i].id in z.outbox;
    }
  }

  /** The queue step up to the first `j` operations. */
  lemma QueueHead(s: Store, m: Mutation, x: Store, j: nat) returns (head: seq<Write>)
    requires PlannedQueue(s, m) && IndexComplete(x) && x.outbox == s.outbox && j < |m.operations|
    ensures head <= QueueWrites(x, m).writes && |head| < |QueueWrites(x, m).writes|
    ensures Stored(s.outbox - CanceledIds(s, m.cancelIds), m.operations[..j], Apply(x, head).outbox)
  {
    var y := CancelEffect(x, m.cancelIds, m.cancelTime);
    var cancel := Cancel(x, m.cancelIds, m.cancelTime).writes;
    var puts := PutAllWrites(y, m.operations[..j]);
    var z := PutAllEffect(y, m.operations[..j]);
    PutAllPrefix(y, m.operations, j);
    head := cancel + puts;
    ApplyConcat(x, cancel, puts);
    assert QueueWrites(x, m).writes == cancel + (PutAllWrites(y, m.operations) + CompleteWrites(m));
  }

  /** Cut after the first `j` operations are stored. */
  lemma CutBetween(s: Store, m: Mutation, j: nat) returns (k: nat)
    requires QuietlyRestorable(s, m) && j < |m.operations|
    ensures 0 < k < |RequeueWrites(s, m)|
    ensures var x := Apply(s, RequeueWrites(s, m)[..k]);
      Stored(s.outbox - CanceledIds(s, m.cancelIds), m.operations[..j], x.outbox)
  {
    var put := PutIntent(IntentOf(m));
    var x := Step(s, put);
    SameIndexes(s, x);
    var head := QueueHead(s, m, x, j);
    k := 1 + |head|;
    assert RequeueWrites(s, m)[..k] == [put] + head;
    ApplyOne(s, put);
    ApplyConcat(s, [put], head);
  }

  lemma SplitsBetween(s: Store, m: Mutation, i: nat, j: nat)
    requires QuietlyRestorable(s, m) && i < j < |m.operations|
    requires m.operations[i].id in Conflicting(s, m) && m.operations[j].id in Conflicting(s, m)
    ensures !Atomic(s, RequeueWrites(s, m), Key(m), m.now)
  {
    var k := CutBetween(s, m, j);
    var x := Apply(s, RequeueWrites(s, m)[..k]);
    RequeuePrefix(s, m, k);
    var last, z := CompleteAttempt(x, Key(m), m.now);
    AttemptsFinish(s, m, true, x, [], last, z);
    ConflictAt(s, m, i);
    ConflictAt(s, m, j);
    StoredFirst(s, m, x, i, j);
    KeptConflict(s, m, z, j);
    assert z.outbox[m.operations[i].id] == m.operations[i];
    SplitAt(s, m, k, z, last);
  }

  lemma ConflictAt(s: Store, m: Mutation, i: nat)
    requires DistinctIds(m.operations) && i < |m.operations| && m.operations[i].id in Conflicting(s, m)
    ensures m.operations[i].id in s.outbox && !Same(s.outbox[m.operations[i].id], m.operations[i])
  {
    var j :| 0 <= j < |m.operations| && m.operations[j].id == m.operations[i].id && m.operations[j].id in s.outbox &&
      !Same(s.outbox[m.operations[j].id], m.operations[j]);
    assert i == j;
  }

  lemma StoredFirst(s: Store, m: Mutation, x: Store, i: nat, j: nat)
    requires PlannedQueue(s, m) && i < j < |m.operations| && m.operations[j].id in s.outbox
    requires Stored(s.outbox - CanceledIds(s, m.cancelIds), m.operations[..j], x.outbox)
    ensures m.operations[i].id in x.outbox && x.outbox[m.operations[i].id] == m.operations[i]
    ensures m.operations[j].id in x.outbox && x.outbox[m.operations[j].id] == s.outbox[m.operations[j].id]
  {
    var first := m.operations[..j];
    assert first[i] == m.operations[i];
    assert !IsIdOf(first, m.operations[j].id);
    assert m.operations[j].id !in m.cancelIds;
  }

  lemma TwoConflicts(s: Store, m: Mutation) returns (i: nat, j: nat)
    requires |Conflicting(s, m)| > 1
    ensures i < j < |m.operations| && m.operations[i].id in Conflicting(s, m) && m.operations[j].id in Conflicting(s, m)
  {
    var a :| a in Conflicting(s, m);
    assert |Conflicting(s, m) - {a}| > 0;
    var b :| b in Conflicting(s, m) - {a};
    var p :| 0 <= p < |m.operations| && m.operations[p].id == a;
    var q :| 0 <= q < |m.operations| && m.operations[q].id == b;
    i, j := if p < q then p else q, if p < q then q else p;
  }

  /** A commit that leaves its version record alone is all-or-nothing exactly when it
      replaces no stored record by a different one, or replaces one such record and
      neither cancels nor adds anything else. */
  lemma RequeueIsAtomicExactly(s: Store, m: Mutation)
    requires QuietlyRestorable(s, m)
    ensures Atomic(s, RequeueWrites(s, m), Key(m), m.now) <==> AtomicRequeue(s, m)
  {
    if AtomicRequeue(s, m) {
      forall k: nat, attempts, last, z |
        k <= |RequeueWrites(s, m)| && RecoversTo(Apply(s, RequeueWrites(s, m)[..k]), Key(m), attempts, last, m.now, z)
        ensures IndexComplete(z) && (SameOutcome(s, z) || SameOutcome(Requeued(s, m), z))
      {
        AtomicCut(s, m, k, attempts, last, z);
      }
    } else if |Conflicting(s, m)| > 1 {
      var i, j := TwoConflicts(s, m);
      SplitsBetween(s, m, i, j);
    } else {
      SomeConflict(s, m);
      SplitsAtTheIntent(s, m);
    }
  }

  lemma SomeConflict(s: Store, m: Mutation)
    ensures NoConflict(s, m) <==> Conflicting(s, m) == {}
    ensures NoConflict(s, m) <==> |Conflicting(s, m)| == 0
  {
    if !NoConflict(s, m) {
      var i :| 0 <= i < |m.operations| && m.operations[i].id in s.outbox &&
        !Same(s.outbox[m.operations[i].id], m.operations[i]);
      assert m.operations[i].id in Conflicting(s, m);
    }
  }

  /** Recovery of such a commit is restartable from every cut. */
  lemma RequeueIsRestartable(
    s: Store, m: Mutation, k: nat, attempts: seq<Attempt>, last: Attempt, z: Store, once: Attempt, z1: Store)
    requires QuietlyRestorable(s, m) && k <= |RequeueWrites(s, m)|
    requires RecoversTo(Apply(s, RequeueWrites(s, m)[..k]), Key(m), attempts, last, m.now, z)
    requires RecoversTo(Apply(s, RequeueWrites(s, m)[..k]), Key(m), [], once, m.now, z1)
    ensures SameOutcome(z, z1)
  {
    var x := Apply(s, RequeueWrites(s, m)[..k]);
    RequeuePrefix(s, m, k);
    if 0 < k < |RequeueWrites(s, m)| {
      MovingRestarts(s, m, true, x, attempts, last, z, once, z1);
    } else {
      IntentRemoved(s, m);
      NoIntentRestarts(x, Key(m), attempts, last, m.now, z);
      NoIntentRestarts(x, Key(m), [], once, m.now, z1);
      SameAsItself(x);
    }
  }
}
