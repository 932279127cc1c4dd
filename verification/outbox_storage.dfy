/** Outbox records and their path, state and due-time indexes
    (internal/backend/storage_outbox.go). */
module OutboxStorage {
  import opened Records
  import opened Text

  function IndexKeys(r: OutboxRecord): seq<IndexKey> {
    (if r.path != "" then [ByPath(r.path, r.id)] else []) +
    [ByState(r.state, r.id)] +
    (if r.DueTime().Some? then [ByDue(r.DueTime().value, r.id)] else [])
  }

  function PutIndexWrites(r: OutboxRecord): seq<Write> {
    seq(|IndexKeys(r)|, i requires 0 <= i < |IndexKeys(r)| => PutIndex(IndexKeys(r)[i], r.id))
  }

  function DeleteKeys(keys: seq<IndexKey>): seq<Write> {
    seq(|keys|, i requires 0 <= i < |keys| => DeleteIndex(keys[i]))
  }

  function Without(keys: seq<IndexKey>, retained: seq<IndexKey>): (r: seq<IndexKey>)
    ensures forall k :: k in r <==> k in keys && k !in retained
  {
    if keys == [] then [] else (if keys[0] in retained then [] else [keys[0]]) + Without(keys[1..], retained)
  }

  /** putOutbox: new index entries, then the record, then the entries it no longer has. */
  function PutWrites(s: Store, r: OutboxRecord): seq<Write> {
    PutIndexWrites(r) + [PutOutbox(r)] +
    if r.id in s.outbox then DeleteKeys(Without(IndexKeys(s.outbox[r.id]), IndexKeys(r))) else []
  }

  /** deleteOutbox: the record, then the entries of the caller's copy and of the stored copy. */
  function DeleteWrites(s: Store, r: OutboxRecord): seq<Write> {
    [DeleteOutbox(r.id)] + DeleteKeys(IndexKeys(r)) +
    if r.id in s.outbox then DeleteKeys(IndexKeys(s.outbox[r.id])) else []
  }

  /** putOutboxRecords */
  function PutAllWrites(s: Store, operations: seq<OutboxRecord>): seq<Write>
    decreases |operations|
  {
    if operations == [] then []
    else
      var done := PutAllWrites(s, operations[..|operations| - 1]);
      done + PutWrites(Apply(s, done), operations[|operations| - 1])
  }

  /** One turn of the loop of cancelQueuedOutboxIDs: unknown and finished operations
      are skipped, an active claim is an error. */
  function CancelOne(s: Store, id: string, now: Time): Outcome {
    if id !in s.outbox || !s.outbox[id].Queued() then Outcome([], true)
    else if s.outbox[id].ClaimActive(now) then Outcome([], false)
    else Outcome(DeleteWrites(s, s.outbox[id]), true)
  }

  /** cancelQueuedOutboxIDs: an error keeps the deletions already made. */
  function Cancel(s: Store, ids: seq<string>, now: Time): Outcome
    decreases |ids|
  {
    if ids == [] then Outcome([], true)
    else
      var done := Cancel(s, ids[..|ids| - 1], now);
      Then(done, CancelOne(Apply(s, done.writes), ids[|ids| - 1], now))
  }

  // -------------------------------------------------------- index completeness

  ghost predicate Indexed(s: Store, id: string)
    requires id in s.outbox
  {
    s.outbox[id].id == id &&
    forall k :: k in IndexKeys(s.outbox[id]) ==> k in s.index && s.index[k] == id
  }

  /** Every stored operation has all of its index entries. Stale entries are allowed. */
  ghost predicate IndexComplete(s: Store) {
    forall id :: id in s.outbox ==> Indexed(s, id)
  }

  predicate OutboxKey(k: IndexKey) { k.ByPath? || k.ByState? || k.ByDue? }

  /** A write that cannot take an index entry away from a stored operation. */
  ghost predicate Safe(s: Store, w: Write) {
    match w
    case PutOutbox(r) => forall k :: k in IndexKeys(r) ==> k in s.index && s.index[k] == r.id
    case PutIndex(k, value) => OutboxKey(k) ==> value == k.id
    case DeleteIndex(k) => k.id in s.outbox ==> k !in IndexKeys(s.outbox[k.id])
    case _ => true
  }

  ghost predicate AllSafe(s: Store, ws: seq<Write>)
    decreases |ws|
  {
    ws != [] ==> Safe(s, ws[0]) && AllSafe(Step(s, ws[0]), ws[1..])
  }

  lemma SafeWriteKeepsIndexes(s: Store, w: Write)
    requires IndexComplete(s) && Safe(s, w)
    ensures IndexComplete(Step(s, w))
  {
    var s' := Step(s, w);
    forall id | id in s'.outbox
      ensures Indexed(s', id)
    {
      if w.PutOutbox? && w.operation.id == id {
      } else {
        assert s'.outbox[id] == s.outbox[id] && Indexed(s, id);
        forall k | k in IndexKeys(s.outbox[id])
          ensures k in s'.index && s'.index[k] == id
        {
          assert k.id == id && OutboxKey(k);
        }
      }
    }
  }

  lemma {:induction false} SafeWritesKeepIndexes(s: Store, ws: seq<Write>, k: nat)
    requires IndexComplete(s) && AllSafe(s, ws) && k <= |ws|
    ensures IndexComplete(Apply(s, ws[..k]))
    decreases k
  {
    if k > 0 {
      SafeWriteKeepsIndexes(s, ws[0]);
      SafeWritesKeepIndexes(Step(s, ws[0]), ws[1..], k - 1);
      assert ws[..k][1..] == ws[1..][..k - 1];
    }
  }

  lemma {:induction false} AllSafeConcat(s: Store, a: seq<Write>, b: seq<Write>)
    requires AllSafe(s, a) && AllSafe(Apply(s, a), b)
    ensures AllSafe(s, a + b)
    decreases |a|
  {
    if a == [] {
      assert a + b == b;
    } else {
      assert (a + b)[1..] == a[1..] + b;
      AllSafeConcat(Step(s, a[0]), a[1..], b);
    }
  }

  lemma {:induction false} IndexPuts(s: Store, keys: seq<IndexKey>, ws: seq<Write>, id: string)
    requires |ws| == |keys| && forall i :: 0 <= i < |keys| ==> ws[i] == PutIndex(keys[i], id) && keys[i].id == id
    ensures AllSafe(s, ws)
    ensures Apply(s, ws) == s.(index := Apply(s, ws).index)
    ensures forall k :: k in s.index || k in keys ==> k in Apply(s, ws).index
    ensures forall k :: k in keys ==> Apply(s, ws).index[k] == id
    ensures forall k :: k in s.index && k !in keys ==> Apply(s, ws).index[k] == s.index[k]
    decreases |keys|
  {
    if keys != [] {
      IndexPuts(Step(s, ws[0]), keys[1..], ws[1..], id);
    }
  }

  lemma {:induction false} IndexDeletes(s: Store, keys: seq<IndexKey>, id: string)
    requires forall k :: k in keys ==> k.id == id && (id in s.outbox ==> k !in IndexKeys(s.outbox[id]))
    ensures AllSafe(s, DeleteKeys(keys))
    ensures Apply(s, DeleteKeys(keys)) == s.(index := Apply(s, DeleteKeys(keys)).index)
    decreases |keys|
  {
    if keys != [] {
      assert DeleteKeys(keys)[1..] == DeleteKeys(keys[1..]);
      IndexDeletes(Step(s, DeleteIndex(keys[0])), keys[1..], id);
    }
  }

  ghost predicate Keyed(s: Store) {
    forall id :: id in s.outbox ==> s.outbox[id].id == id
  }

  /** putOutbox replaces one record and changes nothing else but index entries. */
  lemma PutEffect(s: Store, r: OutboxRecord)
    requires Keyed(s)
    ensures AllSafe(s, PutWrites(s, r))
    ensures var s' := Apply(s, PutWrites(s, r)); s' == s.(outbox := s.outbox[r.id := r], index := s'.index)
  {
    var puts := PutIndexWrites(r);
    IndexPuts(s, IndexKeys(r), puts, r.id);
    var mid := Apply(s, puts);
    var after := Step(mid, PutOutbox(r));
    AllSafeSingle(mid, PutOutbox(r));
    AllSafeConcat(s, puts, [PutOutbox(r)]);
    ApplyConcat(s, puts, [PutOutbox(r)]);
    var stale := if r.id in s.outbox then Without(IndexKeys(s.outbox[r.id]), IndexKeys(r)) else [];
    assert forall k :: k in stale ==> k.id == r.id && k !in IndexKeys(after.outbox[r.id]);
    IndexDeletes(after, stale, r.id);
    AllSafeConcat(s, puts + [PutOutbox(r)], DeleteKeys(stale));
    ApplyConcat(s, puts + [PutOutbox(r)], DeleteKeys(stale));
    assert DeleteKeys([]) == [];
  }

  lemma AllSafeSingle(s: Store, w: Write)
    requires Safe(s, w)
    ensures AllSafe(s, [w])
    ensures Apply(s, [w]) == Step(s, w)
  {
    assert [w][1..] == [];
  }

  /** deleteOutbox removes one record and changes nothing else but index entries. */
  lemma DeleteEffect(s: Store, r: OutboxRecord)
    requires Keyed(s)
    ensures AllSafe(s, DeleteWrites(s, r))
    ensures var s' := Apply(s, DeleteWrites(s, r)); s' == s.(outbox := s.outbox - {r.id}, index := s'.index)
  {
    var first := Step(s, DeleteOutbox(r.id));
    AllSafeSingle(s, DeleteOutbox(r.id));
    IndexDeletes(first, IndexKeys(r), r.id);
    var mine := DeleteKeys(IndexKeys(r));
    AllSafeConcat(s, [DeleteOutbox(r.id)], mine);
    ApplyConcat(s, [DeleteOutbox(r.id)], mine);
    var stored := if r.id in s.outbox then IndexKeys(s.outbox[r.id]) else [];
    IndexDeletes(Apply(first, mine), stored, r.id);
    AllSafeConcat(s, [DeleteOutbox(r.id)] + mine, DeleteKeys(stored));
    ApplyConcat(s, [DeleteOutbox(r.id)] + mine, DeleteKeys(stored));
    assert DeleteKeys([]) == [];
  }

  /** After every single write of a put or a delete each stored operation still has all
      its index entries. */
  lemma OutboxWritesKeepIndexes(s: Store, r: OutboxRecord, k: nat)
    requires IndexComplete(s)
    ensures k <= |PutWrites(s, r)| ==> IndexComplete(Apply(s, PutWrites(s, r)[..k]))
    ensures k <= |DeleteWrites(s, r)| ==> IndexComplete(Apply(s, DeleteWrites(s, r)[..k]))
  {
    assert Keyed(s) by {
      assert forall id :: id in s.outbox ==> Indexed(s, id);
    }
    PutEffect(s, r);
    DeleteEffect(s, r);
    if k <= |PutWrites(s, r)| {
      SafeWritesKeepIndexes(s, PutWrites(s, r), k);
    }
    if k <= |DeleteWrites(s, r)| {
      SafeWritesKeepIndexes(s, DeleteWrites(s, r), k);
    }
  }

  // ---------------------------------------------------------- storage methods

  method PutOutboxRecord(st: Storage, r: OutboxRecord) returns (ok: bool)
    modifies st
    ensures Ran(old(st.data), old(st.budget), Outcome(PutWrites(old(st.data), r), true), st.data, st.budget, ok)
  {
    ghost var s, b := st.data, st.budget;
    var existing := if r.id in st.data.outbox then Some(st.data.outbox[r.id]) else None;
    var stale := if existing.Some? then DeleteKeys(Without(IndexKeys(existing.value), IndexKeys(r))) else [];
    ghost var first, second := Outcome(PutIndexWrites(r), true), Outcome([PutOutbox(r)], true);
    ok := st.WriteAll(PutIndexWrites(r));
    ghost var s1, b1, ok1 := st.data, st.budget, ok;
    if ok {
      ok := st.Write(PutOutbox(r));
    }
    RanThen(s, b, first, s1, b1, ok1, second, st.data, st.budget, ok);
    ghost var s2, b2, ok2 := st.data, st.budget, ok;
    if ok {
      ok := st.WriteAll(stale);
    }
    RanThen(s, b, Then(first, second), s2, b2, ok2, Outcome(stale, true), st.data, st.budget, ok);
  }

  method DeleteOutboxRecord(st: Storage, r: OutboxRecord) returns (ok: bool)
    modifies st
    ensures Ran(old(st.data), old(st.budget), Outcome(DeleteWrites(old(st.data), r), true), st.data, st.budget, ok)
  {
    ghost var s, b := st.data, st.budget;
    var stored := if r.id in st.data.outbox then DeleteKeys(IndexKeys(st.data.outbox[r.id])) else [];
    ghost var first, second := Outcome([DeleteOutbox(r.id)], true), Outcome(DeleteKeys(IndexKeys(r)), true);
    ok := st.Write(DeleteOutbox(r.id));
    ghost var s1, b1, ok1 := st.data, st.budget, ok;
    if ok {
      ok := st.WriteAll(DeleteKeys(IndexKeys(r)));
    }
    RanThen(s, b, first, s1, b1, ok1, second, st.data, st.budget, ok);
    ghost var s2, b2, ok2 := st.data, st.budget, ok;
    if ok {
      ok := st.WriteAll(stored);
    }
    RanThen(s, b, Then(first, second), s2, b2, ok2, Outcome(stored, true), st.data, st.budget, ok);
  }

  lemma {:induction false} PutAllPrefix(s: Store, operations: seq<OutboxRecord>, i: nat)
    requires i <= |operations|
    ensures PutAllWrites(s, operations[..i]) <= PutAllWrites(s, operations)
    decreases |operations|
  {
    if i == |operations| {
      assert operations[..i] == operations;
    } else {
      var front := operations[..|operations| - 1];
      PutAllPrefix(s, front, i);
      assert front[..i] == operations[..i];
    }
  }

  method PutOutboxRecords(st: Storage, operations: seq<OutboxRecord>) returns (ok: bool)
    modifies st
    ensures Ran(old(st.data), old(st.budget), Outcome(PutAllWrites(old(st.data), operations), true), st.data, st.budget, ok)
  {
    ghost var s, b := st.data, st.budget;
    for i := 0 to |operations|
      invariant Ran(s, b, Outcome(PutAllWrites(s, operations[..i]), true), st.data, st.budget, true)
    {
      ghost var mid, midBudget := st.data, st.budget;
      ghost var done := PutAllWrites(s, operations[..i]);
      ok := PutOutboxRecord(st, operations[i]);
      assert operations[..i + 1][..i] == operations[..i];
      RanThen(s, b, Outcome(done, true), mid, midBudget, true,
        Outcome(PutWrites(mid, operations[i]), true), st.data, st.budget, ok);
      if !ok {
        PutAllPrefix(s, operations, i + 1);
        RanBegins(s, b, Outcome(PutAllWrites(s, operations[..i + 1]), true), Outcome(PutAllWrites(s, operations), true),
          st.data, st.budget);
        return false;
      }
    }
    assert operations[..|operations|] == operations;
    ok := true;
  }

  lemma {:induction false} CancelBegins(s: Store, ids: seq<string>, i: nat, now: Time)
    requires i <= |ids|
    ensures Begins(Cancel(s, ids[..i], now), Cancel(s, ids, now))
    decreases |ids|
  {
    if i == |ids| {
      assert ids[..i] == ids;
    } else {
      var front := ids[..|ids| - 1];
      CancelBegins(s, front, i, now);
      assert front[..i] == ids[..i];
    }
  }

  method CancelQueuedOutboxIds(st: Storage, ids: seq<string>, now: Time) returns (ok: bool)
    modifies st
    ensures Ran(old(st.data), old(st.budget), Cancel(old(st.data), ids, now), st.data, st.budget, ok)
  {
    ghost var s, b := st.data, st.budget;
    for i := 0 to |ids|
      invariant Ran(s, b, Cancel(s, ids[..i], now), st.data, st.budget, true)
    {
      ghost var mid, midBudget := st.data, st.budget;
      ghost var one := CancelOne(mid, ids[i], now);
      assert ids[..i + 1][..i] == ids[..i];
      ok := true;
      if ids[i] in st.data.outbox && st.data.outbox[ids[i]].Queued() {
        if st.data.outbox[ids[i]].ClaimActive(now) {
          ok := false;
        } else {
          ok := DeleteOutboxRecord(st, st.data.outbox[ids[i]]);
        }
      }
      RanThen(s, b, Cancel(s, ids[..i], now), mid, midBudget, true, one, st.data, st.budget, ok);
      if !ok {
        CancelBegins(s, ids, i + 1, now);
        RanBegins(s, b, Cancel(s, ids[..i + 1], now), Cancel(s, ids, now), st.data, st.budget);
        return false;
      }
    }
    assert ids[..|ids|] == ids;
    ok := true;
  }

  // ------------------------------------------------------------------ listings

  predicate NoDuplicates<T(==)>(xs: seq<T>) {
    forall i, j :: 0 <= i < j < |xs| ==> xs[i] != xs[j]
  }

  /** `ids` holds each member of `expected` once and nothing else. */
  ghost predicate Lists(ids: seq<string>, expected: set<string>) {
    NoDuplicates(ids) && forall id :: id in ids <==> id in expected
  }

  lemma {:induction false} ListedCount(ids: seq<string>, expected: set<string>)
    requires Lists(ids, expected)
    ensures |ids| == |expected|
    decreases |ids|
  {
    if ids == [] {
      assert forall id :: id in expected ==> id in ids;
    } else {
      var front, last := ids[..|ids| - 1], ids[|ids| - 1];
      assert last in ids && last !in front && forall id :: id in ids <==> id in front || id == last;
      ListedCount(front, expected - {last});
    }
  }

  /** storage.List: every child key once. No caller relies on the order. */
  method ListChildren(children: set<string>) returns (ids: seq<string>)
    ensures Lists(ids, children)
  {
    ids := [];
    var pending := children;
    while pending != {}
      invariant pending <= children && Lists(ids, children - pending)
      decreases pending
    {
      var id :| id in pending;
      ids, pending := ids + [id], pending - {id};
    }
  }

  method FilterOutboxIds(st: Storage, ids: seq<string>, matches: OutboxRecord -> bool) returns (filtered: seq<string>)
    requires NoDuplicates(ids)
    ensures NoDuplicates(filtered)
    ensures forall id :: id in filtered <==> id in ids && id in st.data.outbox && matches(st.data.outbox[id])
  {
    filtered := [];
    for i := 0 to |ids|
      invariant NoDuplicates(filtered)
      invariant forall id :: id in filtered <==> id in ids[..i] && id in st.data.outbox && matches(st.data.outbox[id])
    {
      if ids[i] in st.data.outbox && matches(st.data.outbox[ids[i]]) {
        filtered := filtered + [ids[i]];
      }
    }
  }

  method ListIdsForState(st: Storage, state: State) returns (ids: seq<string>)
    requires IndexComplete(st.data)
    ensures Lists(ids, set id | id in st.data.outbox && st.data.outbox[id].state == state)
  {
    var children := set k | k in st.data.index && k.ByState? && k.state == state :: k.id;
    ids := ListChildren(children);
    ids := FilterOutboxIds(st, ids, (r: OutboxRecord) => r.state == state);
    forall id | id in st.data.outbox && st.data.outbox[id].state == state
      ensures id in children
    {
      assert Indexed(st.data, id) && ByState(state, id) in IndexKeys(st.data.outbox[id]);
    }
  }

  method ListQueuedIds(st: Storage) returns (ids: seq<string>)
    requires IndexComplete(st.data)
    ensures Lists(ids, set id | id in st.data.outbox && st.data.outbox[id].Queued())
  {
    var pending := ListIdsForState(st, Pending);
    var retry := ListIdsForState(st, RetryWait);
    ids := pending + retry;
    forall i, j | 0 <= i < j < |ids|
      ensures ids[i] != ids[j]
    {
      if i < |pending| <= j {
        assert pending[i] in pending && retry[j - |pending|] in retry;
      }
    }
  }

  method ListQueuedIdsForPath(st: Storage, path: string) returns (ids: seq<string>)
    requires IndexComplete(st.data) && path != ""
    ensures Lists(ids, set id | id in st.data.outbox && st.data.outbox[id].path == path && st.data.outbox[id].Queued())
  {
    var children := set k | k in st.data.index && k.ByPath? && k.path == path :: k.id;
    ids := ListChildren(children);
    ids := FilterOutboxIds(st, ids, (r: OutboxRecord) => r.path == path);
    ids := FilterOutboxIds(st, ids, (r: OutboxRecord) => r.Queued());
    forall id | id in st.data.outbox && st.data.outbox[id].path == path
      ensures id in children
    {
      assert Indexed(st.data, id) && ByPath(path, id) in IndexKeys(st.data.outbox[id]);
    }
  }
}
