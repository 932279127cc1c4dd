/** The commit and recovery methods themselves, run on storage that may fail at any
    write (internal/backend/path_data.go, path_versions.go, recovery.go). */
module CrashRun {
  import opened Records
  import opened OutboxStorage
  import opened SourceStorage
  import opened SourceMutations
  import opened Recovery
  import opened Interruption
  import opened CrashSafety
  import opened RecoveryPass

  lemma UnderwayIsIndexed(s: Store, m: Mutation, x: Store)
    requires Ready(s, m) && Underway(s, m, x)
    ensures IndexComplete(x)
  {
    if Versioned(s, m, x) || Announced(s, m, x) {
      SameIndexes(s, x);
    }
  }

  lemma EndedIsSettled(s: Store, m: Mutation, x: Store)
    requires Recoverable(s, m) && Ended(s, m, x)
    ensures Settled(s, m, x)
  {
    if Done(s, m, x) {
      CompletedIsDone(s, m);
      DoneAlike(s, m, Completed(s, m), x);
    }
  }

  /** What is left by a commit that storage cut off anywhere. */
  lemma CommitLeavesUnderway(s: Store, m: Mutation, budget: nat, after: Store, left: nat, ok: bool)
    requires Recoverable(s, m) && Ran(s, budget, Commit(s, m), after, left, ok)
    ensures Underway(s, m, after)
  {
    var ws := Commit(s, m).writes;
    CutIsUnderway(s, m, if budget < |ws| then budget else |ws|);
    assert ws[..|ws|] == ws;
  }

  lemma RecoveryLeavesUnderway(
    s: Store, m: Mutation, x: Store, now: Time, order: seq<nat>, budget: nat, after: Store, left: nat, ok: bool)
    requires Recoverable(s, m) && Underway(s, m, x) && Key(m) in x.intents && m.now <= now
    requires Visits(order, PruneKeys(x, x.intents[Key(m)]))
    requires Ran(x, budget, Recover(x, x.intents[Key(m)], now, order), after, left, ok)
    ensures Underway(s, m, after) && (ok ==> Ended(s, m, after))
  {
    var ws := Recover(x, x.intents[Key(m)], now, order).writes;
    var a := Attempt(now, order, budget);
    assert RecoveryWrites(x, Key(m), a) == ws;
    if budget >= |ws| {
      assert Attempted(x, Key(m), a) == after by {
        assert ws[..|ws|] == ws;
      }
    }
    AttemptKeepsUnderway(s, m, x, a);
  }

  /** One recovery attempt of the mutation's intent, if it is still there. */
  method RecoverIntent(st: Storage, key: (string, nat), now: Time) returns (ok: bool)
    requires IndexComplete(st.data) && key.0 != "" && (key in st.data.intents ==> st.data.intents[key].path == key.0)
    modifies st
    ensures key !in old(st.data).intents ==> ok && st.data == old(st.data)
    ensures key in old(st.data).intents ==> exists order ::
      Visits(order, PruneKeys(old(st.data), old(st.data).intents[key])) &&
      Ran(old(st.data), old(st.budget), Recover(old(st.data), old(st.data).intents[key], now, order), st.data,
        st.budget, ok)
  {
    if key !in st.data.intents {
      return true;
    }
    var order := AnyOrder(PruneKeys(st.data, st.data.intents[key]));
    ok := RecoverEnqueueIntent(st, st.data.intents[key], now, order);
  }

  /** A commit on storage that may fail after any write, then restarts with storage that
      may fail again: whatever the budgets, once an attempt succeeds the mutation has
      happened entirely or not at all. */
  method CommitAndRecover(st: Storage, m: Mutation, budgets: seq<nat>, now: Time) returns (ok: bool)
    requires Recoverable(st.data, m) && m.path != "" && m.now <= now
    modifies st
    ensures IndexComplete(st.data)
    ensures ok ==> Settled(old(st.data), m, st.data)
  {
    ghost var s, b := st.data, st.budget;
    ok := CommitMutation(st, m);
    CommitLeavesUnderway(s, m, b, st.data, st.budget, ok);
    ok := false;
    UnderwayIsIndexed(s, m, st.data);
    for i := 0 to |budgets|
      invariant Underway(s, m, st.data) && IndexComplete(st.data)
      invariant ok ==> Ended(s, m, st.data)
    {
      st.budget := budgets[i];
      ghost var x := st.data;
      IntentOfUnderway(s, m, x);
      ok := RecoverIntent(st, Key(m), now);
      if Key(m) in x.intents {
        ghost var order :| Visits(order, PruneKeys(x, x.intents[Key(m)])) &&
          Ran(x, budgets[i], Recover(x, x.intents[Key(m)], now, order), st.data, st.budget, ok);
        RecoveryLeavesUnderway(s, m, x, now, order, budgets[i], st.data, st.budget, ok);
      }
      UnderwayIsIndexed(s, m, st.data);
    }
    if ok {
      EndedIsSettled(s, m, st.data);
    }
  }

  lemma IntentOfUnderway(s: Store, m: Mutation, x: Store)
    requires Ready(s, m) && Underway(s, m, x)
    ensures Key(m) in x.intents ==> x.intents[Key(m)] == IntentOf(m)
    ensures Key(m) !in x.intents ==> Ended(s, m, x)
  {
    if InFlight(s, m, x) {
      InFlightVersion(s, m, x);
    } else if Waiting(s, m, x) {
      WaitingIntent(s, m, x);
    } else {
      EndedWithoutIntent(s, m, x);
    }
  }
}
