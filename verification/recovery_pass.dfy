/** A pass over all enqueue intents (internal/backend/recovery.go). */
module RecoveryPass {
  import opened Records
  import opened OutboxStorage
  import opened SourceStorage
  import opened SourceMutations
  import opened Recovery
  import opened WriteEffects

  // ------------------------------------------------- recovery keeps indexes complete

  /** Writes to outbox records and their indexes. */
  ghost predicate OutboxOnly(ws: seq<Write>) {
    forall w :: w in ws ==> w.PutIndex? || w.DeleteIndex? || w.PutOutbox? || w.DeleteOutbox?
  }

  lemma {:induction false} OutboxOnlyKeeps(s: Store, ws: seq<Write>)
    requires OutboxOnly(ws)
    ensures Apply(s, ws).intents == s.intents && Apply(s, ws).metadata == s.metadata &&
      Apply(s, ws).versions == s.versions
    decreases |ws|
  {
    if ws != [] {
      OutboxOnlyKeeps(Step(s, ws[0]), ws[1..]);
    }
  }

  /** Safe writes to the outbox take one index-complete store to another. */
  ghost predicate SafePart(s: Store, ws: seq<Write>) { AllSafe(s, ws) && OutboxOnly(ws) && IndexComplete(Apply(s, ws)) }

  lemma SafeParts(s: Store, a: seq<Write>, b: seq<Write>)
    requires SafePart(s, a) && SafePart(Apply(s, a), b)
    ensures SafePart(s, a + b)
  {
    AllSafeConcat(s, a, b);
    ApplyConcat(s, a, b);
  }

  lemma WholePart(s: Store, ws: seq<Write>)
    requires IndexComplete(s) && AllSafe(s, ws) && OutboxOnly(ws)
    ensures SafePart(s, ws)
  {
    SafeWritesKeepIndexes(s, ws, |ws|);
    assert ws[..|ws|] == ws;
  }

  lemma {:induction false} CancelIsSafe(s: Store, ids: seq<string>, now: Time)
    requires IndexComplete(s)
    ensures SafePart(s, Cancel(s, ids, now).writes)
    decreases |ids|
  {
    if ids != [] {
      var front, last := ids[..|ids| - 1], ids[|ids| - 1];
      CancelIsSafe(s, front, now);
      var done := Cancel(s, front, now);
      if done.ok {
        var x := Apply(s, done.writes);
        CancelOneIsSafe(x, last, now);
        SafeParts(s, done.writes, CancelOne(x, last, now).writes);
      }
    }
  }

  lemma CancelOneIsSafe(s: Store, id: string, now: Time)
    requires IndexComplete(s)
    ensures SafePart(s, CancelOne(s, id, now).writes)
  {
    assert Keyed(s) by {
      assert forall k :: k in s.outbox ==> Indexed(s, k);
    }
    if CancelOne(s, id, now).writes != [] {
      DeleteEffect(s, s.outbox[id]);
    }
    WholePart(s, CancelOne(s, id, now).writes);
  }

  lemma {:induction false} RecoverPutsAreSafe(s: Store, operations: seq<OutboxRecord>)
    requires IndexComplete(s)
    ensures SafePart(s, RecoverPutWrites(s, operations))
    decreases |operations|
  {
    if operations != [] {
      var front, last := operations[..|operations| - 1], operations[|operations| - 1];
      RecoverPutsAreSafe(s, front);
      var x := Apply(s, RecoverPutWrites(s, front));
      assert Keyed(x) by {
        assert forall k :: k in x.outbox ==> Indexed(x, k);
      }
      var y := RecoverOneEffect(x, last);
      WholePart(x, RecoverOneWrites(x, last));
      SafeParts(s, RecoverPutWrites(s, front), RecoverOneWrites(x, last));
    }
  }

  lemma MetadataPhaseIsSafe(s: Store, intent: Intent, order: seq<nat>) returns (x: Store)
    requires IndexComplete(s)
    ensures Leads(s, MetadataPhase(s, intent, order), x)
    ensures x.outbox == s.outbox && x.index == s.index && x.intents == s.intents && IndexComplete(x)
  {
    var ws := MetadataPhase(s, intent, order);
    var n := if ws == [] then 0 else |ws| - 1;
    var deletes := ws[..n];
    if ws != [] {
      SourceWritesShape(s, intent, order);
      assert ws == deletes + [ws[n]];
      DeletesEffect(s, deletes);
      var mid := Apply(s, deletes);
      AllSafeSingle(mid, ws[n]);
      LeadsConcat(s, deletes, mid, [ws[n]], Step(mid, ws[n]));
    }
    x := Apply(s, ws);
    SameIndexes(s, x);
  }

  /** Recovery after its metadata step. */
  function Tail(s: Store, intent: Intent, available: bool, now: Time): Outcome {
    var cancel := CancelPhase(s, intent, available, now);
    Then(cancel, QueuePhase(Apply(s, cancel.writes), intent, available, now))
  }

  lemma TailIsSafe(s: Store, intent: Intent, available: bool, now: Time)
    requires IndexComplete(s)
    ensures AllSafe(s, Tail(s, intent, available, now).writes)
    ensures Tail(s, intent, available, now).ok ==>
      Apply(s, Tail(s, intent, available, now).writes).intents == s.intents - {(intent.path, intent.version)}
  {
    var cancel := CancelPhase(s, intent, available, now);
    CancelPhaseIsSafe(s, intent, available, now);
    if cancel.ok {
      var y := Apply(s, cancel.writes);
      OutboxOnlyKeeps(s, cancel.writes);
      QueuePhaseIsSafe(y, intent, available, now);
      AllSafeConcat(s, cancel.writes, QueuePhase(y, intent, available, now).writes);
      ApplyConcat(s, cancel.writes, QueuePhase(y, intent, available, now).writes);
    }
  }

  lemma RecoverIsTail(s: Store, intent: Intent, now: Time, order: seq<nat>)
    ensures var first := MetadataPhase(s, intent, order);
      var tail := Tail(Apply(s, first), intent, VersionAvailable(s, intent.path, intent.version), now);
      Recover(s, intent, now, order) == Outcome(first + tail.writes, tail.ok)
  {
  }

  /** Whatever the intent, recovery keeps the outbox indexes complete after every single
      write, and removes that intent and no other if it runs to its end. */
  lemma RecoverIsSafe(s: Store, intent: Intent, now: Time, order: seq<nat>, k: nat)
    requires IndexComplete(s) && k <= |Recover(s, intent, now, order).writes|
    ensures IndexComplete(Apply(s, Recover(s, intent, now, order).writes[..k]))
    ensures Recover(s, intent, now, order).ok ==>
      Apply(s, Recover(s, intent, now, order).writes).intents == s.intents - {(intent.path, intent.version)}
  {
    var available := VersionAvailable(s, intent.path, intent.version);
    var first := MetadataPhase(s, intent, order);
    var x := MetadataPhaseIsSafe(s, intent, order);
    var tail := Tail(x, intent, available, now).writes;
    TailIsSafe(x, intent, available, now);
    RecoverIsTail(s, intent, now, order);
    AllSafeConcat(s, first, tail);
    ApplyConcat(s, first, tail);
    SafeWritesKeepIndexes(s, first + tail, k);
  }

  lemma CancelPhaseIsSafe(s: Store, intent: Intent, available: bool, now: Time)
    requires IndexComplete(s)
    ensures SafePart(s, CancelPhase(s, intent, available, now).writes)
  {
    if MutationCommitted(intent, available) {
      CancelIsSafe(s, intent.cancelIds, now);
    }
  }

  lemma QueuePhaseIsSafe(s: Store, intent: Intent, available: bool, now: Time)
    requires IndexComplete(s)
    ensures AllSafe(s, QueuePhase(s, intent, available, now).writes)
    ensures Apply(s, QueuePhase(s, intent, available, now).writes).intents == s.intents - {(intent.path, intent.version)}
  {
    var operations := RecoverableOperations(s, intent, intent.operations, now, available);
    var puts, last := RecoverPutWrites(s, operations), DeleteIntent(intent.path, intent.version);
    RecoverPutsAreSafe(s, operations);
    OutboxOnlyKeeps(s, puts);
    var x := Apply(s, puts);
    AllSafeSingle(x, last);
    LeadsConcat(s, puts, x, [last], Step(x, last));
  }

  // ------------------------------------------------------------------------ the pass

  ghost predicate KeyedIntents(s: Store) {
    forall key :: key in s.intents ==> key == (s.intents[key].path, s.intents[key].version) && key.0 != ""
  }

  method ListIntents(intents: map<(string, nat), Intent>) returns (keys: seq<(string, nat)>)
    ensures NoDuplicates(keys) && forall key :: key in keys <==> key in intents
  {
    keys := [];
    var pending := intents.Keys;
    while pending != {}
      invariant pending <= intents.Keys && NoDuplicates(keys)
      invariant forall key :: key in keys <==> key in intents && key !in pending
      decreases pending
    {
      var key :| key in pending;
      keys, pending := keys + [key], pending - {key};
    }
  }

  method RecoverOne(st: Storage, key: (string, nat), now: Time) returns (ok: bool)
    requires IndexComplete(st.data) && KeyedIntents(st.data) && key in st.data.intents
    modifies st
    ensures IndexComplete(st.data)
    ensures ok ==> st.data.intents == old(st.data).intents - {key}
  {
    var intent := st.data.intents[key];
    var order := AnyOrder(PruneKeys(st.data, intent));
    ghost var s, b := st.data, st.budget;
    ghost var writes := Recover(s, intent, now, order).writes;
    ok := RecoverEnqueueIntent(st, intent, now, order);
    RecoverIsSafe(s, intent, now, order, if b < |writes| then b else |writes|);
    assert writes[..|writes|] == writes;
  }

  lemma OneMore(start: map<(string, nat), Intent>, keys: seq<(string, nat)>, i: nat)
    requires i < |keys| && NoDuplicates(keys) && forall key :: key in keys <==> key in start
    ensures keys[i] in start - Recovered(keys[..i])
    ensures keys[..i + 1] == keys[..i] + [keys[i]]
    ensures start - Recovered(keys[..i + 1]) == (start - Recovered(keys[..i])) - {keys[i]}
  {
    assert keys[i] in keys && keys[i] !in keys[..i];
  }

  /** recoverIncompleteEnqueueIntentsLimit: a limit of zero means every intent. */
  method RecoverIncompleteIntents(
    st: Storage, now: Time, maxIntents: nat) returns (recovered: seq<(string, nat)>, ok: bool)
    requires IndexComplete(st.data) && KeyedIntents(st.data)
    modifies st
    ensures IndexComplete(st.data)
    ensures old(st.data).intents == map[] ==> st.data == old(st.data) && ok
    ensures ok ==> NoDuplicates(recovered) && st.data.intents == old(st.data).intents - Recovered(recovered)
    ensures ok ==> |recovered| == maxIntents || st.data.intents == map[]
    ensures maxIntents > 0 ==> |recovered| <= maxIntents
    ensures ok && maxIntents == 0 ==> st.data.intents == map[]
  {
    var keys := ListIntents(st.data.intents);
    ghost var start := st.data.intents;
    assert start - {} == start;
    assert keys != [] ==> keys[0] in start;
    recovered := [];
    for i := 0 to |keys|
      invariant IndexComplete(st.data) && KeyedIntents(st.data)
      invariant recovered == keys[..i] && (maxIntents > 0 ==> i < maxIntents)
      invariant st.data.intents == start - Recovered(recovered)
      invariant i == 0 ==> st.data == old(st.data)
    {
      OneMore(start, keys, i);
      ok := RecoverOne(st, keys[i], now);
      if !ok {
        return;
      }
      recovered := recovered + [keys[i]];
      if maxIntents > 0 && |recovered| >= maxIntents {
        return;
      }
    }
    assert keys[..|keys|] == keys;
    ok := true;
  }

  function Recovered(keys: seq<(string, nat)>): set<(string, nat)> { set key | key in keys }
}
