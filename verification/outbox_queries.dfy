/** Ordered reads of the outbox: due work and the next retry time
    (internal/backend/storage_outbox.go). */
module OutboxQueries {
  import opened Records
  import opened OutboxStorage
  import opened Text

  datatype DueKey = DueKey(due: Time, id: string)

  predicate DueLess(a: DueKey, b: DueKey) {
    a.due < b.due || (a.due == b.due && Less(a.id, b.id))
  }

  lemma DueLessTransitive(a: DueKey, b: DueKey, c: DueKey)
    requires DueLess(a, b) && DueLess(b, c)
    ensures DueLess(a, c)
  {
    if Less(a.id, b.id) && Less(b.id, c.id) {
      LessTransitive(a.id, b.id, c.id);
    }
  }

  predicate Increasing(keys: seq<DueKey>) {
    forall i, j :: 0 <= i < j < |keys| ==> DueLess(keys[i], keys[j])
  }

  /** sort.Strings over a set of keys. */
  method SortDueKeys(keys: set<DueKey>) returns (sorted: seq<DueKey>)
    ensures Increasing(sorted)
    ensures forall k :: k in sorted <==> k in keys
  {
    sorted := [];
    var pending := keys;
    while pending != {}
      invariant pending <= keys && Increasing(sorted)
      invariant forall k :: k in sorted <==> k in keys - pending
      decreases pending
    {
      var key :| key in pending;
      var at := 0;
      while at < |sorted| && DueLess(sorted[at], key)
        invariant at <= |sorted|
        invariant forall i :: 0 <= i < at ==> DueLess(sorted[i], key)
      {
        at := at + 1;
      }
      forall i | at <= i < |sorted|
        ensures DueLess(key, sorted[i])
      {
        assert sorted[i] in sorted && sorted[at] in sorted;
        LessTrichotomy(key.id, sorted[at].id);
        if at < i {
          DueLessTransitive(key, sorted[at], sorted[i]);
        }
      }
      var longer := sorted[..at] + [key] + sorted[at..];
      assert forall k :: k in longer <==> k in sorted || k == key by {
        assert sorted == sorted[..at] + sorted[at..];
      }
      sorted, pending := longer, pending - {key};
    }
  }

  function DueKeyOf(r: OutboxRecord): DueKey
    requires r.Queued()
  {
    DueKey(r.DueTime().value, r.id)
  }

  ghost predicate DueBy(s: Store, id: string, now: Time) {
    id in s.outbox && s.outbox[id].Queued() && s.outbox[id].DueTime().value <= now
  }

  /** Every due operation once, in due-time-then-id order. */
  ghost predicate IsDueListing(s: Store, now: Time, ids: seq<string>) {
    (forall id :: id in ids <==> DueBy(s, id, now)) &&
    forall i, j :: 0 <= i < j < |ids| ==>
      DueBy(s, ids[i], now) && DueBy(s, ids[j], now) && DueLess(DueKeyOf(s.outbox[ids[i]]), DueKeyOf(s.outbox[ids[j]]))
  }

  method DueKeysInOrder(st: Storage) returns (keys: seq<DueKey>)
    requires IndexComplete(st.data)
    ensures Increasing(keys)
    ensures forall id :: id in st.data.outbox && st.data.outbox[id].Queued() ==> DueKeyOf(st.data.outbox[id]) in keys
  {
    var stored := set k | k in st.data.index && k.ByDue? :: DueKey(k.due, k.id);
    keys := SortDueKeys(stored);
    forall id | id in st.data.outbox && st.data.outbox[id].Queued()
      ensures DueKeyOf(st.data.outbox[id]) in keys
    {
      var r := st.data.outbox[id];
      assert Indexed(st.data, id) && ByDue(r.DueTime().value, id) in IndexKeys(r);
    }
  }

  predicate UpToDate(s: Store, key: DueKey) {
    key.id in s.outbox && s.outbox[key.id].DueTime() == Some(key.due)
  }

  /** listDueOutboxIDs: stale index keys are skipped, and the scan of the sorted keys
      stops at the first one after `now`. */
  method ListDueIds(st: Storage, now: Time) returns (ids: seq<string>)
    requires IndexComplete(st.data)
    ensures IsDueListing(st.data, now, ids)
  {
    var keys := DueKeysInOrder(st);
    ids := [];
    var i := 0;
    while i < |keys| && keys[i].due <= now
      invariant i <= |keys|
      invariant forall k :: 0 <= k < i ==> keys[k].due <= now
      invariant forall id :: id in ids <==> exists k :: 0 <= k < i && keys[k].id == id && UpToDate(st.data, keys[k])
      invariant forall id :: id in ids ==> DueBy(st.data, id, now) && st.data.outbox[id].id == id
      invariant forall a, b :: 0 <= a < b < |ids| ==>
        DueBy(st.data, ids[a], now) && DueBy(st.data, ids[b], now) &&
        DueLess(DueKeyOf(st.data.outbox[ids[a]]), DueKeyOf(st.data.outbox[ids[b]]))
      decreases |keys| - i
    {
      if UpToDate(st.data, keys[i]) {
        assert Indexed(st.data, keys[i].id);
        assert DueKeyOf(st.data.outbox[keys[i].id]) == keys[i];
        forall a | 0 <= a < |ids|
          ensures DueBy(st.data, ids[a], now) && DueLess(DueKeyOf(st.data.outbox[ids[a]]), keys[i])
        {
          assert ids[a] in ids;
          var k :| 0 <= k < i && keys[k].id == ids[a] && UpToDate(st.data, keys[k]);
          assert DueKeyOf(st.data.outbox[ids[a]]) == keys[k];
        }
        ids := ids + [keys[i].id];
      }
      i := i + 1;
    }
    assert forall k :: i < k < |keys| ==> keys[i].due <= keys[k].due;
    forall id | DueBy(st.data, id, now)
      ensures id in ids
    {
      assert Indexed(st.data, id);
      var key := DueKeyOf(st.data.outbox[id]);
      var k :| 0 <= k < |keys| && keys[k] == key;
    }
  }

  /** nextFutureOutboxDueTime: together with the due listing it covers every queued
      operation. */
  method NextFutureDueTime(st: Storage, now: Time) returns (next: Option<Time>)
    requires IndexComplete(st.data)
    ensures next.None? ==> forall id :: id in st.data.outbox && st.data.outbox[id].Queued() ==> DueBy(st.data, id, now)
    ensures next.Some? ==> next.value > now
    ensures next.Some? ==> exists id :: id in st.data.outbox && st.data.outbox[id].DueTime() == next
    ensures next.Some? ==> forall id :: id in st.data.outbox && st.data.outbox[id].Queued() ==>
      DueBy(st.data, id, now) || next.value <= st.data.outbox[id].DueTime().value
  {
    var keys := DueKeysInOrder(st);
    for i := 0 to |keys|
      invariant forall k :: 0 <= k < i ==> keys[k].due <= now || !UpToDate(st.data, keys[k])
    {
      if keys[i].due > now && UpToDate(st.data, keys[i]) {
        forall id | id in st.data.outbox && st.data.outbox[id].Queued()
          ensures DueBy(st.data, id, now) || keys[i].due <= st.data.outbox[id].DueTime().value
        {
          assert Indexed(st.data, id);
          var k :| 0 <= k < |keys| && keys[k] == DueKeyOf(st.data.outbox[id]);
          assert i < k ==> DueLess(keys[i], keys[k]);
        }
        return Some(keys[i].due);
      }
    }
    next := None;
    forall id | id in st.data.outbox && st.data.outbox[id].Queued()
      ensures DueBy(st.data, id, now)
    {
      assert Indexed(st.data, id);
      var k :| 0 <= k < |keys| && keys[k] == DueKeyOf(st.data.outbox[id]);
    }
  }
}
