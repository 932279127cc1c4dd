/** What whole groups of writes do to the store, and what each of their writes may be.
    Every group also keeps the outbox indexes complete after each single write. */
module WriteEffects {
  import opened Records
  import opened OutboxStorage
  import opened SourceStorage
  import opened SourceMutations
  import opened Recovery

  lemma ApplyPart(s: Store, a: seq<Write>, b: seq<Write>, k: nat)
    requires k <= |a| + |b|
    ensures Apply(s, (a + b)[..k]) == if k <= |a| then Apply(s, a[..k]) else Apply(Apply(s, a), b[..k - |a|])
  {
    if k <= |a| {
      assert (a + b)[..k] == a[..k];
    } else {
      assert (a + b)[..k] == a + b[..k - |a|];
      ApplyConcat(s, a, b[..k - |a|]);
    }
  }

  lemma ApplyOne(s: Store, w: Write)
    ensures Apply(s, [w]) == Step(s, w)
  {
    assert [w][1..] == [];
  }

  // ------------------------------------------------------------ version deletes

  ghost predicate VersionDeletes(ws: seq<Write>) { forall w :: w in ws ==> w.DeleteVersion? }

  function DeletedKeys(ws: seq<Write>): set<(string, nat)> {
    set w | w in ws && w.DeleteVersion? :: (w.path, w.version)
  }

  lemma {:induction false} DeletesEffect(s: Store, ws: seq<Write>)
    requires VersionDeletes(ws)
    ensures Apply(s, ws) == s.(versions := s.versions - DeletedKeys(ws))
    ensures AllSafe(s, ws)
    decreases |ws|
  {
    if ws == [] {
      assert s.versions - {} == s.versions;
    } else {
      DeletesEffect(Step(s, ws[0]), ws[1..]);
      assert DeletedKeys(ws) == DeletedKeys(ws[1..]) + {(ws[0].path, ws[0].version)};
      assert s.versions - DeletedKeys(ws) == (s.versions - {(ws[0].path, ws[0].version)}) - DeletedKeys(ws[1..]);
    }
  }

  lemma {:induction false} DeletesInOrderWrites(path: string, order: seq<nat>, doomed: set<nat>)
    ensures forall w :: w in DeletesInOrder(path, order, doomed) <==>
      w.DeleteVersion? && w.path == path && w.version in order && w.version in doomed
    ensures VersionDeletes(DeletesInOrder(path, order, doomed))
  {
    if order != [] {
      var front, last := order[..|order| - 1], order[|order| - 1];
      DeletesInOrderWrites(path, front, doomed);
      assert order == front + [last];
    }
  }

  /** Nothing a commit writes before its queue step touches the outbox. */
  lemma SourceLeavesOutbox(s: Store, m: Mutation)
    requires VersionDeletes(m.prune)
    ensures var x := Apply(s, IntentWrites(m) + SourceWrites(m)); x.outbox == s.outbox && x.index == s.index
  {
    NoQueueWrites(s, IntentWrites(m) + SourceWrites(m));
  }

  lemma {:induction false} NoQueueWrites(x: Store, ws: seq<Write>)
    requires forall w :: w in ws ==> w.PutIntent? || w.PutVersion? || w.DeleteVersion? || w.PutMetadata?
    ensures Apply(x, ws).outbox == x.outbox && Apply(x, ws).index == x.index
    decreases |ws|
  {
    if ws != [] {
      NoQueueWrites(Step(x, ws[0]), ws[1..]);
    }
  }

  /** The metadata step of recovery: version deletes, then at most one metadata write. */
  lemma SourceWritesShape(s: Store, intent: Intent, order: seq<nat>)
    ensures var ws := MetadataPhase(s, intent, order);
      (ws != [] ==> VersionDeletes(ws[..|ws| - 1]) && ws[|ws| - 1].PutMetadata?) &&
      forall w :: w in ws ==> w.DeleteVersion? || w.PutMetadata?
  {
    var ws := MetadataPhase(s, intent, order);
    var base, protected := BaseMetadata(s, intent), QueuedUpsertVersions(s.outbox, intent.path);
    if ws != [] {
      var front, last := ws[..|ws| - 1], ws[|ws| - 1];
      if base.currentVersion < intent.version {
        var record := s.versions[(intent.path, intent.version)];
        var doomed := Prunable(Advanced(base, intent.version, record.createdTime), protected);
        DeletesInOrderWrites(intent.path, order, doomed);
        assert front == DeletesInOrder(intent.path, order, doomed);
      }
      assert ws == front + [last];
    }
  }

  // -------------------------------------------------------------- queue writes

  /** A write to the outbox: any index write, the deletion of one of `gone`, or the
      storing of one of `put`. */
  predicate QueueWrite(w: Write, gone: set<string>, put: seq<OutboxRecord>) {
    w.PutIndex? || w.DeleteIndex? || (w.DeleteOutbox? && w.id in gone) || (w.PutOutbox? && w.operation in put)
  }

  ghost predicate QueueWritesOnly(ws: seq<Write>, gone: set<string>, put: seq<OutboxRecord>) {
    forall w :: w in ws ==> QueueWrite(w, gone, put)
  }

  ghost predicate Unclaimed(s: Store, ids: seq<string>, now: Time) {
    forall id :: id in ids && AlreadyQueued(s, id) ==> !s.outbox[id].ClaimActive(now)
  }

  ghost function CanceledIds(s: Store, ids: seq<string>): set<string> {
    set id | id in ids && AlreadyQueued(s, id)
  }

  /** `ws` takes `s` to `s'` and keeps the indexes complete after every single write. */
  ghost predicate Leads(s: Store, ws: seq<Write>, s': Store) {
    Apply(s, ws) == s' && AllSafe(s, ws)
  }

  lemma LeadsConcat(s: Store, a: seq<Write>, s1: Store, b: seq<Write>, s2: Store)
    requires Leads(s, a, s1) && Leads(s1, b, s2)
    ensures Leads(s, a + b, s2)
  {
    AllSafeConcat(s, a, b);
    ApplyConcat(s, a, b);
  }

  lemma CancelOneEffect(s: Store, id: string, now: Time) returns (s': Store)
    requires Keyed(s) && Unclaimed(s, [id], now)
    ensures CancelOne(s, id, now).ok && Leads(s, CancelOne(s, id, now).writes, s')
    ensures s' == s.(outbox := if AlreadyQueued(s, id) then s.outbox - {id} else s.outbox, index := s'.index)
    ensures QueueWritesOnly(CancelOne(s, id, now).writes, if AlreadyQueued(s, id) then {id} else {}, [])
  {
    s' := Apply(s, CancelOne(s, id, now).writes);
    if AlreadyQueued(s, id) {
      DeleteEffect(s, s.outbox[id]);
    }
  }

  lemma CanceledSplits(s: Store, s1: Store, ids: seq<string>, last: string)
    requires s1.outbox == s.outbox - CanceledIds(s, ids)
    ensures CanceledIds(s, ids + [last]) == CanceledIds(s, ids) + if AlreadyQueued(s1, last) then {last} else {}
  {
  }

  lemma {:induction false} CancelEffect(s: Store, ids: seq<string>, now: Time) returns (s': Store)
    requires Keyed(s) && Unclaimed(s, ids, now)
    ensures Cancel(s, ids, now).ok && Leads(s, Cancel(s, ids, now).writes, s')
    ensures s' == s.(outbox := s.outbox - CanceledIds(s, ids), index := s'.index)
    ensures QueueWritesOnly(Cancel(s, ids, now).writes, CanceledIds(s, ids), [])
    decreases |ids|
  {
    if ids == [] {
      s' := s;
      assert s.outbox - {} == s.outbox;
    } else {
      var front, last := ids[..|ids| - 1], ids[|ids| - 1];
      assert ids == front + [last];
      var s1 := CancelEffect(s, front, now);
      s' := CancelOneEffect(s1, last, now);
      LeadsConcat(s, Cancel(s, front, now).writes, s1, CancelOne(s1, last, now).writes, s');
      CanceledSplits(s, s1, front, last);
    }
  }

  ghost predicate DistinctIds(operations: seq<OutboxRecord>) {
    forall i, j :: 0 <= i < j < |operations| ==> operations[i].id != operations[j].id
  }

  predicate IsIdOf(operations: seq<OutboxRecord>, id: string) {
    exists i :: 0 <= i < |operations| && operations[i].id == id
  }

  lemma IdsOfFront(operations: seq<OutboxRecord>)
    requires operations != []
    ensures forall id :: IsIdOf(operations, id) <==>
      IsIdOf(operations[..|operations| - 1], id) || id == operations[|operations| - 1].id
  {
    var front := operations[..|operations| - 1];
    forall id | IsIdOf(front, id)
      ensures IsIdOf(operations, id)
    {
      var i :| 0 <= i < |front| && front[i].id == id;
      assert operations[i].id == id;
    }
    assert operations[|operations| - 1].id == operations[|operations| - 1].id;
  }

  /** Each of `operations` is stored, and every other id is as it was. */
  ghost predicate Stored(
    before: map<string, OutboxRecord>, operations: seq<OutboxRecord>, after: map<string, OutboxRecord>) {
    (forall i :: 0 <= i < |operations| ==> operations[i].id in after && after[operations[i].id] == operations[i]) &&
    forall id :: !IsIdOf(operations, id) ==> (id in after <==> id in before) && (id in before ==> after[id] == before[id])
  }

  lemma PutOneEffect(s: Store, r: OutboxRecord) returns (s': Store)
    requires Keyed(s)
    ensures Leads(s, PutWrites(s, r), s') && s' == s.(outbox := s.outbox[r.id := r], index := s'.index)
    ensures QueueWritesOnly(PutWrites(s, r), {}, [r])
  {
    s' := Apply(s, PutWrites(s, r));
    PutEffect(s, r);
  }

  lemma {:induction false} PutAllEffect(s: Store, operations: seq<OutboxRecord>) returns (s': Store)
    requires Keyed(s) && DistinctIds(operations)
    ensures Leads(s, PutAllWrites(s, operations), s')
    ensures s' == s.(outbox := s'.outbox, index := s'.index) && Keyed(s')
    ensures Stored(s.outbox, operations, s'.outbox)
    ensures QueueWritesOnly(PutAllWrites(s, operations), {}, operations)
    decreases |operations|
  {
    if operations == [] {
      s' := s;
    } else {
      var front, last := operations[..|operations| - 1], operations[|operations| - 1];
      assert operations == front + [last];
      IdsOfFront(operations);
      var s1 := PutAllEffect(s, front);
      s' := PutOneEffect(s1, last);
      LeadsConcat(s, PutAllWrites(s, front), s1, PutWrites(s1, last), s');
    }
  }

  /** Operations not yet stored are added, and every stored record stays as it was. */
  ghost predicate Added(
    before: map<string, OutboxRecord>, operations: seq<OutboxRecord>, after: map<string, OutboxRecord>) {
    (forall id :: id in before ==> id in after && after[id] == before[id]) &&
    (forall id :: id in after ==> id in before || IsIdOf(operations, id)) &&
    forall i :: 0 <= i < |operations| ==>
      operations[i].id in after && (operations[i].id !in before ==> after[operations[i].id] == operations[i])
  }

  lemma RecoverOneEffect(s: Store, r: OutboxRecord) returns (s': Store)
    requires Keyed(s)
    ensures Leads(s, RecoverOneWrites(s, r), s')
    ensures s' == s.(outbox := if r.id in s.outbox then s.outbox else s.outbox[r.id := r], index := s'.index)
    ensures AddsMissing(RecoverOneWrites(s, r), s.outbox, [r])
  {
    s' := Apply(s, RecoverOneWrites(s, r));
    if r.id in s.outbox {
      IndexPuts(s, IndexKeys(s.outbox[r.id]), PutIndexWrites(s.outbox[r.id]), r.id);
    } else {
      PutEffect(s, r);
    }
  }

  /** Index writes, and the storing of operations whose id is not stored yet. */
  ghost predicate AddsMissing(ws: seq<Write>, before: map<string, OutboxRecord>, operations: seq<OutboxRecord>) {
    QueueWritesOnly(ws, {}, operations) && forall w :: w in ws && w.PutOutbox? ==> w.operation.id !in before
  }

  lemma {:induction false} RecoverPutsEffect(s: Store, operations: seq<OutboxRecord>) returns (s': Store)
    requires Keyed(s) && DistinctIds(operations)
    ensures Leads(s, RecoverPutWrites(s, operations), s')
    ensures s' == s.(outbox := s'.outbox, index := s'.index) && Keyed(s')
    ensures Added(s.outbox, operations, s'.outbox)
    ensures AddsMissing(RecoverPutWrites(s, operations), s.outbox, operations)
    decreases |operations|
  {
    if operations == [] {
      s' := s;
    } else {
      var front, last := operations[..|operations| - 1], operations[|operations| - 1];
      assert operations == front + [last];
      var s1 := RecoverPutsEffect(s, front);
      s' := RecoverOneEffect(s1, last);
      var puts, one := RecoverPutWrites(s, front), RecoverOneWrites(s1, last);
      LeadsConcat(s, puts, s1, one, s');
      AddsMissingToo(puts, one, s.outbox, s1.outbox, front, last);
      AddedToo(s.outbox, front, last, s1.outbox, s'.outbox);
    }
  }

  lemma AddedToo(
    before: map<string, OutboxRecord>, front: seq<OutboxRecord>, last: OutboxRecord,
    mid: map<string, OutboxRecord>, after: map<string, OutboxRecord>)
    requires Added(before, front, mid) && DistinctIds(front + [last])
    requires after == if last.id in mid then mid else mid[last.id := last]
    ensures Added(before, front + [last], after)
  {
    var all := front + [last];
    IdsOfFront(all);
    assert all[..|all| - 1] == front && all[|front|] == last;
    forall i | 0 <= i < |front|
      ensures all[i].id != last.id
    {
      assert all[i].id != all[|front|].id;
    }
  }

  lemma AddsMissingToo(
    puts: seq<Write>, one: seq<Write>, before: map<string, OutboxRecord>, mid: map<string, OutboxRecord>,
    front: seq<OutboxRecord>, last: OutboxRecord)
    requires AddsMissing(puts, before, front) && AddsMissing(one, mid, [last])
    requires forall id :: id in before ==> id in mid
    ensures AddsMissing(puts + one, before, front + [last])
  {
    forall w | w in puts + one
      ensures QueueWrite(w, {}, front + [last]) && (w.PutOutbox? ==> w.operation.id !in before)
    {
      assert w in puts ==> QueueWrite(w, {}, front);
      assert w in one ==> QueueWrite(w, {}, [last]);
    }
  }
}
