/** Recovery is restartable: interrupted attempts and a complete one end where a single
    complete one ends, from every cut and whether or not the mutation is all-or-nothing
    (internal/backend/recovery.go). */
module Restarts {
  import opened Records
  import opened OutboxStorage
  import opened SourceStorage
  import opened SourceMutations
  import opened Recovery
  import opened WriteEffects
  import opened Interruption
  import opened CrashSafety
  import opened RecoveryPass

  /** Recovery of an intent whose version record and metadata it leaves alone. */
  ghost predicate QuietlyRestorable(s: Store, m: Mutation) {
    PlannedQueue(s, m) && Restorable(s, m) && m.operations != [] && Key(m) !in s.intents && Key(m) in s.versions &&
    s.versions[Key(m)].Available() == m.record.Available() &&
    RecoveredMetadata(BaseMetadata(s, IntentOf(m)), IntentOf(m), s.versions[Key(m)], Protected(s, m)) == None
  }

  /** The two kinds of store recovery meets: a mutation in flight, or only its queue. */
  ghost predicate Recovering(s: Store, m: Mutation, quiet: bool) {
    if quiet then QuietlyRestorable(s, m) else Ready(s, m) && m.operations != []
  }

  ghost predicate Moving(s: Store, m: Mutation, quiet: bool, x: Store) {
    if quiet then Queueing(s, m, Announcement(s, m), x) else InFlight(s, m, x)
  }

  /** What a complete recovery leaves. */
  ghost predicate Finished(s: Store, m: Mutation, quiet: bool, z: Store) {
    var base := if quiet then s else Base(s, m).(intents := s.intents);
    z == base.(outbox := z.outbox, index := z.index) && IndexComplete(z) &&
    Enqueued(s, m, z.outbox) && OutboxBetween(s, m, z.outbox) && Key(m) !in z.intents
  }

  lemma MovingIntent(s: Store, m: Mutation, quiet: bool, x: Store)
    requires Recovering(s, m, quiet) && Moving(s, m, quiet, x)
    ensures Key(m) in x.intents && x.intents[Key(m)] == IntentOf(m)
  {
    if !quiet {
      InFlightVersion(s, m, x);
    }
  }

  lemma QuietAttempt(s: Store, m: Mutation, x: Store, now: Time, order: seq<nat>, k: nat)
    requires Recovering(s, m, true) && Moving(s, m, true, x) && m.now <= now
    requires k <= |Recover(x, IntentOf(m), now, order).writes|
    ensures var ws := Recover(x, IntentOf(m), now, order).writes;
      var y := Apply(x, ws[..k]);
      (if k < |ws| then Moving(s, m, true, y) else Finished(s, m, true, y)) && Continues(m, x.outbox, y.outbox)
  {
    NoMetadataPhase(s, m, x, order);
    NoMetadataToRecover(m, x, now, order);
    var z := RecoverQueuePrefix(s, m, Announcement(s, m), x, now, k);
    IntentRemoved(s, m);
    WholePrefix(Recover(x, IntentOf(m), now, order).writes);
  }

  lemma FlightAttempt(s: Store, m: Mutation, x: Store, now: Time, order: seq<nat>, k: nat)
    requires Recovering(s, m, false) && Moving(s, m, false, x) && m.now <= now
    requires Visits(order, PruneKeys(x, IntentOf(m))) && k <= |Recover(x, IntentOf(m), now, order).writes|
    ensures var ws := Recover(x, IntentOf(m), now, order).writes;
      var y := Apply(x, ws[..k]);
      (if k < |ws| then Moving(s, m, false, y) else Finished(s, m, false, y)) && Continues(m, x.outbox, y.outbox)
  {
    if k < |Recover(x, IntentOf(m), now, order).writes| {
      RecoverInFlightPrefix(s, m, x, now, order, k);
    } else {
      var z := RecoverInFlight(s, m, x, now, order);
      WholePrefix(Recover(x, IntentOf(m), now, order).writes);
    }
  }

  lemma OneAttempt(s: Store, m: Mutation, quiet: bool, x: Store, a: Attempt)
    requires Recovering(s, m, quiet) && Moving(s, m, quiet, x) && Possible(x, Key(m), a, m.now)
    ensures var y := Attempted(x, Key(m), a);
      (Moving(s, m, quiet, y) || Finished(s, m, quiet, y)) && Continues(m, x.outbox, y.outbox) &&
      (a.cut >= |RecoveryWrites(x, Key(m), a)| ==> Finished(s, m, quiet, y))
  {
    MovingIntent(s, m, quiet, x);
    var ws := RecoveryWrites(x, Key(m), a);
    var k := if a.cut <= |ws| then a.cut else |ws|;
    WholePrefix(ws);
    if quiet {
      QuietAttempt(s, m, x, a.now, a.order, k);
    } else {
      FlightAttempt(s, m, x, a.now, a.order, k);
    }
  }

  /** Without its intent a mutation is not touched any more. */
  lemma {:induction false} NothingLeft(key: (string, nat), x: Store, attempts: seq<Attempt>)
    requires key !in x.intents
    ensures Retried(x, key, attempts) == x
    decreases |attempts|
  {
    if attempts != [] {
      assert RecoveryWrites(x, key, attempts[0]) == [];
      NothingLeft(key, x, attempts[1..]);
    }
  }

  lemma {:induction false} ManyAttempts(s: Store, m: Mutation, quiet: bool, x: Store, attempts: seq<Attempt>)
    requires Recovering(s, m, quiet) && Moving(s, m, quiet, x) && AllPossible(x, Key(m), attempts, m.now)
    ensures var y := Retried(x, Key(m), attempts);
      (Moving(s, m, quiet, y) || Finished(s, m, quiet, y)) && Continues(m, x.outbox, y.outbox)
    decreases |attempts|
  {
    if attempts != [] {
      OneAttempt(s, m, quiet, x, attempts[0]);
      var y := Attempted(x, Key(m), attempts[0]);
      if Moving(s, m, quiet, y) {
        ManyAttempts(s, m, quiet, y, attempts[1..]);
        ContinuesOn(m, x.outbox, y.outbox, Retried(y, Key(m), attempts[1..]).outbox);
      } else {
        NothingLeft(Key(m), y, attempts[1..]);
      }
    }
  }

  /** Any attempts and a complete one finish, adding to the queue only as planned. */
  lemma AttemptsFinish(
    s: Store, m: Mutation, quiet: bool, x: Store, attempts: seq<Attempt>, last: Attempt, z: Store)
    requires Recovering(s, m, quiet) && Moving(s, m, quiet, x)
    requires RecoversTo(x, Key(m), attempts, last, m.now, z)
    ensures Finished(s, m, quiet, z) && Continues(m, x.outbox, z.outbox)
  {
    ManyAttempts(s, m, quiet, x, attempts);
    var y := Retried(x, Key(m), attempts);
    LastAttempt(s, m, quiet, y, last);
    ContinuesOn(m, x.outbox, y.outbox, z.outbox);
  }

  lemma LastAttempt(s: Store, m: Mutation, quiet: bool, y: Store, last: Attempt)
    requires Recovering(s, m, quiet) && (Moving(s, m, quiet, y) || Finished(s, m, quiet, y))
    requires Possible(y, Key(m), last, m.now) && last.cut >= |RecoveryWrites(y, Key(m), last)|
    ensures Finished(s, m, quiet, Attempted(y, Key(m), last))
    ensures Continues(m, y.outbox, Attempted(y, Key(m), last).outbox)
  {
    if Moving(s, m, quiet, y) {
      OneAttempt(s, m, quiet, y, last);
    } else {
      assert RecoveryWrites(y, Key(m), last) == [];
    }
  }

  lemma FinishedAlike(s: Store, m: Mutation, quiet: bool, x: Store, y: Store, z: Store)
    requires Finished(s, m, quiet, y) && Finished(s, m, quiet, z)
    requires Continues(m, x.outbox, y.outbox) && Continues(m, x.outbox, z.outbox)
    ensures SameOutcome(y, z)
  {
    forall id
      ensures id in y.outbox <==> id in z.outbox
      ensures id in y.outbox ==> Same(y.outbox[id], z.outbox[id])
    {
      if IsIdOf(m.operations, id) {
        var i :| 0 <= i < |m.operations| && m.operations[i].id == id;
      }
    }
  }

  /** From any store recovery meets, how often it is interrupted does not matter. */
  lemma MovingRestarts(
    s: Store, m: Mutation, quiet: bool, x: Store,
    attempts: seq<Attempt>, last: Attempt, z: Store, once: Attempt, z1: Store)
    requires Recovering(s, m, quiet) && Moving(s, m, quiet, x)
    requires RecoversTo(x, Key(m), attempts, last, m.now, z) && RecoversTo(x, Key(m), [], once, m.now, z1)
    ensures SameOutcome(z, z1)
  {
    AttemptsFinish(s, m, quiet, x, attempts, last, z);
    AttemptsFinish(s, m, quiet, x, [], once, z1);
    FinishedAlike(s, m, quiet, x, z, z1);
  }

  // --------------------------------------------------------- an aborted mutation

  lemma {:induction false} AbortedAttempts(s: Store, m: Mutation, x: Store, attempts: seq<Attempt>)
    requires Ready(s, m) && m.operations != [] && FlipsAvailability(s, m) && (Announced(s, m, x) || x == s)
    requires AllPossible(x, Key(m), attempts, m.now)
    ensures Announced(s, m, Retried(x, Key(m), attempts)) || Retried(x, Key(m), attempts) == s
    decreases |attempts|
  {
    if attempts != [] {
      AbortedAttempt(s, m, x, attempts[0]);
      AbortedAttempts(s, m, Attempted(x, Key(m), attempts[0]), attempts[1..]);
    }
  }

  lemma AbortedAttempt(s: Store, m: Mutation, x: Store, a: Attempt)
    requires Ready(s, m) && m.operations != [] && FlipsAvailability(s, m) && (Announced(s, m, x) || x == s)
    ensures var y := Attempted(x, Key(m), a);
      (Announced(s, m, y) || y == s) && (a.cut >= |RecoveryWrites(x, Key(m), a)| ==> y == s)
  {
    var ws := RecoveryWrites(x, Key(m), a);
    WholePrefix(ws);
    if Announced(s, m, x) {
      Abort(s, m, x, a.now, a.order, if a.cut <= |ws| then a.cut else |ws|);
    } else {
      assert ws == [];
    }
  }

  lemma AbortRestarts(s: Store, m: Mutation, x: Store, attempts: seq<Attempt>, last: Attempt, z: Store)
    requires Ready(s, m) && m.operations != [] && FlipsAvailability(s, m) && Announced(s, m, x)
    requires RecoversTo(x, Key(m), attempts, last, m.now, z)
    ensures z == s
  {
    AbortedAttempts(s, m, x, attempts);
    AbortedAttempt(s, m, Retried(x, Key(m), attempts), last);
  }

  // --------------------------------------------------------------- every cut

  lemma SameAsItself(x: Store)
    ensures SameOutcome(x, x)
  {
  }

  lemma NoIntentRestarts(
    x: Store, key: (string, nat), attempts: seq<Attempt>, last: Attempt, from: Time, z: Store)
    requires key !in x.intents && RecoversTo(x, key, attempts, last, from, z)
    ensures z == x
  {
    NothingLeft(key, x, attempts);
    assert RecoveryWrites(x, key, last) == [];
  }

  lemma {:induction false} LeavesIntents(x: Store, ws: seq<Write>)
    requires forall w :: w in ws ==> !w.PutIntent? && !w.DeleteIntent?
    ensures Apply(x, ws).intents == x.intents
    decreases |ws|
  {
    if ws != [] {
      LeavesIntents(Step(x, ws[0]), ws[1..]);
    }
  }

  /** A mutation without operations never stores an intent. */
  lemma CommitWithoutIntent(s: Store, m: Mutation, k: nat)
    requires IndexComplete(s) && VersionDeletes(m.prune) && m.operations == [] && k <= |Commit(s, m).writes|
    ensures Apply(s, Commit(s, m).writes[..k]).intents == s.intents
  {
    WritesWithoutOperations(s, m);
    LeavesIntents(s, Commit(s, m).writes[..k]);
  }

  lemma WritesWithoutOperations(s: Store, m: Mutation)
    requires IndexComplete(s) && VersionDeletes(m.prune) && m.operations == []
    ensures forall w :: w in Commit(s, m).writes ==> !w.PutIntent? && !w.DeleteIntent?
  {
    var source := IntentWrites(m) + SourceWrites(m);
    var x := Apply(s, source);
    SourceLeavesOutbox(s, m);
    SameIndexes(s, x);
    var cancel := Cancel(x, m.cancelIds, m.cancelTime);
    CancelIsSafe(x, m.cancelIds, m.cancelTime);
    assert QueueWrites(x, m).writes == cancel.writes;
    assert Commit(s, m).writes == source + cancel.writes;
  }

  /** When recovery meets the intent alone and takes the mutation for committed. */
  lemma AnnouncedRestarts(
    s: Store, m: Mutation, x: Store, attempts: seq<Attempt>, last: Attempt, z: Store, once: Attempt, z1: Store)
    requires Planned(s, m) && m.operations != [] && !FlipsAvailability(s, m) && Announced(s, m, x)
    requires RecoversTo(x, Key(m), attempts, last, m.now, z) && RecoversTo(x, Key(m), [], once, m.now, z1)
    ensures SameOutcome(z, z1)
  {
    var quiet, m' := AnnouncedIsMoving(s, m, x);
    MovingRestarts(s, m', quiet, x, attempts, last, z, once, z1);
  }

  lemma AnnouncedIsMoving(s: Store, m: Mutation, x: Store) returns (quiet: bool, m': Mutation)
    requires Planned(s, m) && m.operations != [] && !FlipsAvailability(s, m) && Announced(s, m, x)
    ensures Recovering(s, m', quiet) && Moving(s, m', quiet, x) && Key(m') == Key(m) && m'.now == m.now
  {
    match RecoveredMetadata(BaseMetadata(s, IntentOf(m)), IntentOf(m), s.versions[Key(m)], Protected(s, m))
    case Some(metadata) =>
      quiet := false;
      m' := MistakenIsReady(s, m, metadata);
      AnnouncedIsVersioned(s, m, m', x);
    case None =>
      quiet, m' := true, m;
      SameIndexes(s, x);
  }

  /** For the mutation recovery takes it for, the announced store is already versioned. */
  lemma AnnouncedIsVersioned(s: Store, m: Mutation, m': Mutation, x: Store)
    requires Announced(s, m, x) && Key(m) in s.versions && Key(m') == Key(m) && IntentOf(m') == IntentOf(m)
    requires m'.record == s.versions[Key(m)]
    ensures Versioned(s, m', x)
  {
    KeyIsNotDoomed(s, m');
  }

  /** Recovery is restartable after every cut of every planned mutation, also of those
      that are not all-or-nothing. */
  lemma RecoveryIsRestartable(
    s: Store, m: Mutation, k: nat, attempts: seq<Attempt>, last: Attempt, z: Store, once: Attempt, z1: Store)
    requires Planned(s, m) && k <= |Commit(s, m).writes|
    requires RecoversTo(Apply(s, Commit(s, m).writes[..k]), Key(m), attempts, last, m.now, z)
    requires RecoversTo(Apply(s, Commit(s, m).writes[..k]), Key(m), [], once, m.now, z1)
    ensures SameOutcome(z, z1)
  {
    var x := Apply(s, Commit(s, m).writes[..k]);
    if m.operations == [] {
      CommitWithoutIntent(s, m, k);
    } else {
      CommitPrefix(s, m, k);
    }
    if Key(m) !in x.intents {
      NoIntentRestarts(x, Key(m), attempts, last, m.now, z);
      NoIntentRestarts(x, Key(m), [], once, m.now, z1);
      SameAsItself(x);
    } else if k > 1 {
      MovingRestarts(s, m, false, x, attempts, last, z, once, z1);
    } else if FlipsAvailability(s, m) {
      AbortRestarts(s, m, x, attempts, last, z);
      AbortRestarts(s, m, x, [], once, z1);
      SameAsItself(s);
    } else {
      AnnouncedRestarts(s, m, x, attempts, last, z, once, z1);
    }
  }
}
