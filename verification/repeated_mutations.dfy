/** Mutations of the current version, changed or repeated: when an interrupted one is
    all-or-nothing (internal/backend/path_data.go, path_versions.go). */
module RepeatedMutations {
  import opened Records
  import opened OutboxStorage
  import opened SourceStorage
  import opened SourceMutations
  import opened Recovery
  import opened WriteEffects
  import opened Interruption
  import opened CrashSafety
  import opened Restarts
  import opened Requeues
  import opened SourceHistory

  /** A delete or destroy that finds its work done: it stores the metadata it read. */
  ghost predicate Repeats(s: Store, m: Mutation) { LeavesSource(s, m) && PlannedQueue(s, m) }

  predicate LeavesSource(s: Store, m: Mutation) {
    !m.touchesVersion && m.prune == [] && m.path in s.metadata && s.metadata[m.path] == m.metadata
  }

  lemma SourceUnchanged(s: Store, m: Mutation)
    requires LeavesSource(s, m)
    ensures SourceWrites(m) == [PutMetadata(m.path, m.metadata)]
    ensures Step(s, PutMetadata(m.path, m.metadata)) == s
  {
    assert s.metadata[m.path := m.metadata] == s.metadata;
  }

  lemma RepeatedMutation(
    s: Store, kind: VersionMutationKind, path: string, operations: seq<OutboxRecord>, cancelIds: seq<string>,
    now: Time, cancelTime: Time) returns (m: Mutation)
    requires SourceConsistent(s, path) && VersionRequest(s, kind, path, operations, cancelIds, now, cancelTime)
    requires kind != Undelete && Ignores(kind, s.versions[(path, s.metadata[path].currentVersion)])
    ensures var metadata := s.metadata[path];
      m == VersionMutation(
        kind, path, metadata, s.versions[(path, metadata.currentVersion)], operations, cancelIds, now, cancelTime)
    ensures Repeats(s, m) && (operations != [] ==> QuietlyRestorable(s, m))
    ensures CanceledIds(s, m.cancelIds) == set id | id in cancelIds
  {
    var metadata := s.metadata[path];
    m := VersionMutation(
      kind, path, metadata, s.versions[(path, metadata.currentVersion)], operations, cancelIds, now, cancelTime);
    assert BaseMetadata(s, IntentOf(m)) == metadata;
    VersionQueueIsPlanned(s, kind, path, operations, cancelIds, now, cancelTime);
  }

  // --------------------------------------------------------- with operations

  /** The unchanged metadata is the only write a requeue does not have. */
  lemma RepeatedWrites(s: Store, m: Mutation)
    requires LeavesSource(s, m) && m.operations != []
    ensures Commit(s, m).writes ==
      [PutIntent(IntentOf(m))] + ([PutMetadata(m.path, m.metadata)] + QueueWrites(Step(s, PutIntent(IntentOf(m))), m).writes)
  {
    var intent, put := PutIntent(IntentOf(m)), PutMetadata(m.path, m.metadata);
    var x := Step(s, intent);
    SourceApplied(s, m, x);
    CommitParts(s, m, x);
    Regrouped([intent], [put], QueueWrites(x, m).writes);
  }

  lemma CommitParts(s: Store, m: Mutation, x: Store)
    requires x == Apply(s, IntentWrites(m) + SourceWrites(m))
    ensures Commit(s, m).writes == (IntentWrites(m) + SourceWrites(m)) + QueueWrites(x, m).writes
  {
  }

  lemma Regrouped(a: seq<Write>, b: seq<Write>, c: seq<Write>)
    ensures (a + b) + c == a + (b + c)
  {
  }

  /** A write that changes nothing may be left out. */
  lemma CutWithIdleWrite(s: Store, a: Write, idle: Write, rest: seq<Write>, k: nat)
    requires Step(Step(s, a), idle) == Step(s, a) && 1 < k <= |rest| + 2
    ensures Apply(s, ([a] + ([idle] + rest))[..k]) == Apply(s, ([a] + rest)[..k - 1])
  {
    ApplyOne(s, a);
    ApplyOne(Step(s, a), idle);
    ApplyPart(s, [a], [idle] + rest, k);
    ApplyPart(Step(s, a), [idle], rest, k - 1);
    ApplyPart(s, [a], rest, k - 1);
    WholePrefix([idle]);
    WholePrefix([a]);
    assert rest[..0] == [];
  }

  lemma SourceApplied(s: Store, m: Mutation, x: Store)
    requires LeavesSource(s, m) && m.operations != [] && x == Step(s, PutIntent(IntentOf(m)))
    ensures IntentWrites(m) + SourceWrites(m) == [PutIntent(IntentOf(m))] + [PutMetadata(m.path, m.metadata)]
    ensures Apply(s, IntentWrites(m) + SourceWrites(m)) == x
  {
    var intent, put := PutIntent(IntentOf(m)), PutMetadata(m.path, m.metadata);
    SourceUnchanged(s, m);
    SourceUnchanged(x, m);
    ApplyConcat(s, [intent], [put]);
    ApplyOne(s, intent);
    ApplyOne(x, put);
  }

  lemma RepeatedCut(s: Store, m: Mutation, k: nat)
    requires LeavesSource(s, m) && m.operations != [] && k <= |Commit(s, m).writes|
    ensures |Commit(s, m).writes| == |RequeueWrites(s, m)| + 1
    ensures Apply(s, Commit(s, m).writes[..k]) == Apply(s, RequeueWrites(s, m)[..if k <= 1 then k else k - 1])
  {
    var intent, put := PutIntent(IntentOf(m)), PutMetadata(m.path, m.metadata);
    var queue := QueueWrites(Step(s, intent), m).writes;
    RepeatedWrites(s, m);
    SourceUnchanged(Step(s, intent), m);
    if k > 1 {
      CutWithIdleWrite(s, intent, put, queue, k);
    } else {
      assert ([intent] + ([put] + queue))[..k] == ([intent] + queue)[..k];
    }
  }

  /** What atomicity says of one store the writes can be cut at. */
  lemma AtCut(
    s: Store, ws: seq<Write>, key: (string, nat), from: Time, k: nat, x: Store,
    attempts: seq<Attempt>, last: Attempt, z: Store)
    requires Atomic(s, ws, key, from) && k <= |ws| && Apply(s, ws[..k]) == x && RecoversTo(x, key, attempts, last, from, z)
    ensures IndexComplete(z) && (SameOutcome(s, z) || SameOutcome(Apply(s, ws), z))
  {
  }

  lemma SameEnd(s: Store, m: Mutation)
    requires LeavesSource(s, m) && m.operations != []
    ensures Apply(s, Commit(s, m).writes) == Apply(s, RequeueWrites(s, m))
  {
    RepeatedCut(s, m, |Commit(s, m).writes|);
    WholePrefix(Commit(s, m).writes);
    WholePrefix(RequeueWrites(s, m));
    RequeueLength(s, m);
  }

  lemma RequeueLength(s: Store, m: Mutation)
    requires m.operations != []
    ensures |RequeueWrites(s, m)| >= 1
  {
  }

  lemma AtomicRequeueGivesCommit(s: Store, m: Mutation)
    requires LeavesSource(s, m) && m.operations != [] && Atomic(s, RequeueWrites(s, m), Key(m), m.now)
    ensures AllOrNothing(s, m)
  {
    var ws, rs := Commit(s, m).writes, RequeueWrites(s, m);
    SameEnd(s, m);
    forall k: nat, attempts, last, z | k <= |ws| && RecoversTo(Apply(s, ws[..k]), Key(m), attempts, last, m.now, z)
      ensures IndexComplete(z) && (SameOutcome(s, z) || SameOutcome(Apply(s, ws), z))
    {
      RepeatedCut(s, m, k);
      AtCut(s, rs, Key(m), m.now, if k <= 1 then k else k - 1, Apply(s, ws[..k]), attempts, last, z);
    }
  }

  lemma CommitCut(s: Store, m: Mutation, k: nat) returns (cut: nat)
    requires LeavesSource(s, m) && m.operations != [] && k <= |RequeueWrites(s, m)|
    ensures cut <= |Commit(s, m).writes| && Apply(s, Commit(s, m).writes[..cut]) == Apply(s, RequeueWrites(s, m)[..k])
  {
    RepeatedCut(s, m, 0);
    cut := if k <= 1 then k else k + 1;
    RepeatedCut(s, m, cut);
  }

  lemma AtomicCommitGivesRequeue(s: Store, m: Mutation)
    requires LeavesSource(s, m) && m.operations != [] && AllOrNothing(s, m)
    ensures Atomic(s, RequeueWrites(s, m), Key(m), m.now)
  {
    var ws, rs := Commit(s, m).writes, RequeueWrites(s, m);
    SameEnd(s, m);
    forall k: nat, attempts, last, z | k <= |rs| && RecoversTo(Apply(s, rs[..k]), Key(m), attempts, last, m.now, z)
      ensures IndexComplete(z) && (SameOutcome(s, z) || SameOutcome(Apply(s, rs), z))
    {
      var cut := CommitCut(s, m, k);
      AtCut(s, ws, Key(m), m.now, cut, Apply(s, rs[..k]), attempts, last, z);
    }
  }

  // ------------------------------------------------------ without operations

  lemma CancelingWrites(s: Store, m: Mutation)
    requires LeavesSource(s, m) && m.operations == []
    ensures Commit(s, m).writes == [PutMetadata(m.path, m.metadata)] + Cancel(s, m.cancelIds, m.cancelTime).writes
    ensures Apply(s, [PutMetadata(m.path, m.metadata)]) == s
  {
    var put := PutMetadata(m.path, m.metadata);
    var cancel := Cancel(s, m.cancelIds, m.cancelTime).writes;
    SourceUnchanged(s, m);
    ApplyOne(s, put);
    assert IntentWrites(m) + SourceWrites(m) == [put];
    assert QueueWrites(s, m).writes == cancel;
  }

  /** Only cancellations: every prefix keeps a part of what is replaced. */
  lemma CancelingCut(s: Store, m: Mutation, k: nat)
    requires Repeats(s, m) && m.operations == [] && k <= |Commit(s, m).writes|
    ensures Queueing(s, m, s, Apply(s, Commit(s, m).writes[..k]))
    ensures Completed(s, m).outbox == s.outbox - CanceledIds(s, m.cancelIds)
    ensures Queueing(s, m, s, Completed(s, m))
  {
    var put := PutMetadata(m.path, m.metadata);
    var cancel := Cancel(s, m.cancelIds, m.cancelTime).writes;
    CancelingWrites(s, m);
    var y := CancelEffect(s, m.cancelIds, m.cancelTime);
    OnlyMoveForward(s, m, cancel, CanceledIds(s, m.cancelIds), []);
    ApplyConcat(s, [put], cancel);
    QueueingPrefix(s, m, s, s, cancel, |cancel|);
    WholePrefix(cancel);
    ApplyPart(s, [put], cancel, k);
    if k > 1 {
      QueueingPrefix(s, m, s, s, cancel, k - 1);
    } else {
      assert [put][..1] == [put] && cancel[..0] == [];
    }
  }

  lemma FewCancellations(s: Store, m: Mutation, x: Store)
    requires m.operations == [] && OutboxBetween(s, m, x.outbox) && |CanceledIds(s, m.cancelIds)| <= 1
    ensures x.outbox == s.outbox || x.outbox == s.outbox - CanceledIds(s, m.cancelIds)
  {
    var gone := CanceledIds(s, m.cancelIds);
    if gone == {} {
      assert x.outbox == s.outbox;
    } else {
      var id :| id in gone;
      assert |gone - {id}| == 0;
      assert gone == {id} + (gone - {id});
      if id in x.outbox {
        assert x.outbox == s.outbox;
      } else {
        assert x.outbox == s.outbox - gone;
      }
    }
  }

  /** The queue after the first of several cancellations. */
  lemma FirstCancellation(s: Store, m: Mutation) returns (k: nat)
    requires Repeats(s, m) && m.operations == [] && m.cancelIds != []
    ensures k <= |Commit(s, m).writes|
    ensures Apply(s, Commit(s, m).writes[..k]).outbox == s.outbox - CanceledIds(s, m.cancelIds[..1])
  {
    var put, first := PutMetadata(m.path, m.metadata), m.cancelIds[..1];
    CancelingWrites(s, m);
    var y := CancelEffect(s, first, m.cancelTime);
    CancelBegins(s, m.cancelIds, 1, m.cancelTime);
    var part, whole := Cancel(s, first, m.cancelTime).writes, Cancel(s, m.cancelIds, m.cancelTime).writes;
    k := 1 + |part|;
    assert Commit(s, m).writes[..k] == [put] + part;
    ApplyConcat(s, [put], part);
  }

  lemma SeveralCancellationsSplit(s: Store, m: Mutation)
    requires Repeats(s, m) && m.operations == [] && Key(m) !in s.intents
    requires NoDuplicates(m.cancelIds) && |m.cancelIds| > 1 && CanceledIds(s, m.cancelIds) == set id | id in m.cancelIds
    ensures !AllOrNothing(s, m)
  {
    var k := FirstCancellation(s, m);
    CancelingCut(s, m, k);
    var z := Apply(s, Commit(s, m).writes[..k]);
    var last, z' := CompleteAttempt(z, Key(m), m.now);
    assert z' == z;
    var a, b := m.cancelIds[0], m.cancelIds[1];
    assert m.cancelIds[..1] == [a];
    assert a in CanceledIds(s, m.cancelIds) && b in CanceledIds(s, m.cancelIds);
    assert a in s.outbox && a !in z.outbox;
    assert b in z.outbox && b !in Completed(s, m).outbox;
    Unsettled(s, m, k, last, z);
  }

  /** Without an intent nothing finishes interrupted cancellations. */
  lemma CancellationsAreAtomicExactly(s: Store, m: Mutation)
    requires Repeats(s, m) && m.operations == [] && Key(m) !in s.intents
    requires NoDuplicates(m.cancelIds) && CanceledIds(s, m.cancelIds) == set id | id in m.cancelIds
    ensures AllOrNothing(s, m) <==> |m.cancelIds| <= 1
  {
    ListedCount(m.cancelIds, CanceledIds(s, m.cancelIds));
    if |m.cancelIds| <= 1 {
      forall k: nat, attempts, last, z |
        k <= |Commit(s, m).writes| && RecoversTo(Apply(s, Commit(s, m).writes[..k]), Key(m), attempts, last, m.now, z)
        ensures IndexComplete(z) && (SameOutcome(s, z) || SameOutcome(Completed(s, m), z))
      {
        OneCancellation(s, m, k, attempts, last, z);
      }
    } else {
      SeveralCancellationsSplit(s, m);
    }
  }

  lemma OneCancellation(s: Store, m: Mutation, k: nat, attempts: seq<Attempt>, last: Attempt, z: Store)
    requires Repeats(s, m) && m.operations == [] && Key(m) !in s.intents && |CanceledIds(s, m.cancelIds)| <= 1
    requires k <= |Commit(s, m).writes|
    requires RecoversTo(Apply(s, Commit(s, m).writes[..k]), Key(m), attempts, last, m.now, z)
    ensures IndexComplete(z) && (SameOutcome(s, z) || SameOutcome(Completed(s, m), z))
  {
    var x := Apply(s, Commit(s, m).writes[..k]);
    CancelingCut(s, m, k);
    NoIntentRestarts(x, Key(m), attempts, last, m.now, z);
    FewCancellations(s, m, x);
    if x.outbox == s.outbox {
      EqualButIndexes(s, x);
    } else {
      EqualButIndexes(Completed(s, m), x);
    }
  }

  lemma EqualButIndexes(x: Store, y: Store)
    requires y == x.(index := y.index)
    ensures SameOutcome(x, y)
  {
  }

  // ------------------------------------------------------------------ the theorem

  /** A delete, undelete or destroy of the current version is all-or-nothing exactly
      when the following holds. If it changes the version record: it queues something,
      meets no different record of one of its operations and, for the destroy of a
      soft-deleted version, recovery of its intent alone would find nothing to do. If it
      only repeats what was done: it replaces no record by a different one, or one such
      record and nothing else, or it queues nothing and cancels one operation at most.
      An undelete that changes nothing returns without enqueueing. */
  lemma VersionMutationIsAllOrNothing(
    s: Store, kind: VersionMutationKind, path: string, operations: seq<OutboxRecord>, cancelIds: seq<string>,
    now: Time, cancelTime: Time)
    requires SourceConsistent(s, path) && VersionRequest(s, kind, path, operations, cancelIds, now, cancelTime)
    requires kind == Undelete ==> Changes(kind, s.versions[(path, s.metadata[path].currentVersion)])
    ensures var metadata := s.metadata[path];
      var record := s.versions[(path, metadata.currentVersion)];
      var m := VersionMutation(kind, path, metadata, record, operations, cancelIds, now, cancelTime);
      AllOrNothing(s, m) <==>
        if Changes(kind, record) then
          operations != [] && NoConflict(s, m) && (kind != Destroy || record.Available() || NothingToRestore(s, m))
        else if operations != [] then AtomicRequeue(s, m)
        else |cancelIds| <= 1
  {
    var record := s.versions[(path, s.metadata[path].currentVersion)];
    if Changes(kind, record) {
      ChangingMutationIsAllOrNothing(s, kind, path, operations, cancelIds, now, cancelTime);
    } else {
      var m := RepeatedMutation(s, kind, path, operations, cancelIds, now, cancelTime);
      if operations != [] {
        RequeueIsAtomicExactly(s, m);
        if AtomicRequeue(s, m) {
          AtomicRequeueGivesCommit(s, m);
        } else if AllOrNothing(s, m) {
          AtomicCommitGivesRequeue(s, m);
        }
      } else {
        CancellationsAreAtomicExactly(s, m);
      }
    }
  }
}
