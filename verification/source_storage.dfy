/** Source metadata and versions: commit, pruning and the plan a mutation carries out
    (internal/backend/storage_source.go, path_data.go, path_versions.go, enqueue.go). */
module SourceStorage {
  import opened Records
  import opened OutboxStorage
  import opened Text

  function Normalize(metadata: Metadata): Metadata {
    if metadata.maxVersions == 0 then metadata.(maxVersions := DEFAULT_MAX_VERSIONS) else metadata
  }

  function GetMetadata(s: Store, path: string): Option<Metadata> {
    if path in s.metadata then Some(Normalize(s.metadata[path])) else None
  }

  /** The zero value a Go map returns for a missing version. */
  function VersionEntry(metadata: Metadata, version: nat): VersionMetadata {
    if version in metadata.versions then metadata.versions[version] else VersionMetadata(0, None, false)
  }

  function QueuedUpsertVersions(outbox: map<string, OutboxRecord>, path: string): set<nat> {
    set id | id in outbox && outbox[id].path == path && outbox[id].Queued() && outbox[id].kind == Upsert ::
      outbox[id].version
  }

  // ------------------------------------------------------------------- pruning

  function KeepFrom(metadata: Metadata): int { metadata.currentVersion - metadata.maxVersions + 1 }

  /** Versions behind the retention window that no queued upsert still needs. */
  function Prunable(metadata: Metadata, protected: set<nat>): set<nat> {
    if metadata.maxVersions <= 0 || metadata.currentVersion == 0 || KeepFrom(metadata) <= 1 then {}
    else set v | v in metadata.versions.Keys && v < KeepFrom(metadata) && v !in protected
  }

  ghost function Oldest(versions: set<nat>): (least: nat)
    ensures if versions == {} then least == 0 else least in versions && forall v :: v in versions ==> least <= v
  {
    if versions == {} then 0
    else
      var v :| v in versions;
      var others := versions - {v};
      assert forall x :: x in versions ==> x == v || x in others;
      if others == {} then v
      else
        var rest := Oldest(others);
        if v < rest then v else rest
  }

  ghost function Pruned(metadata: Metadata, protected: set<nat>): Metadata {
    if metadata.maxVersions <= 0 || metadata.currentVersion == 0 then metadata
    else
      var kept := metadata.versions - Prunable(metadata, protected);
      metadata.(versions := kept, oldestVersion := Oldest(kept.Keys))
  }

  function DeletesInOrder(path: string, order: seq<nat>, doomed: set<nat>): seq<Write> {
    if order == [] then []
    else
      var front := DeletesInOrder(path, order[..|order| - 1], doomed);
      if order[|order| - 1] in doomed then front + [DeleteVersion(path, order[|order| - 1])] else front
  }

  /** `order` is one iteration order of a Go map with these keys. */
  ghost predicate Visits(order: seq<nat>, keys: set<nat>) {
    NoDuplicates(order) && forall v :: v in order <==> v in keys
  }

  lemma {:induction false} SomeOrder(keys: set<nat>) returns (order: seq<nat>)
    ensures Visits(order, keys)
    decreases keys
  {
    order := [];
    if keys != {} {
      var v :| v in keys;
      var rest := SomeOrder(keys - {v});
      order := rest + [v];
      assert forall u :: u in order <==> u in rest || u == v;
    }
  }

  /** One iteration order of a Go map with these keys. */
  method AnyOrder(keys: set<nat>) returns (order: seq<nat>)
    ensures Visits(order, keys)
  {
    order := [];
    var pending := keys;
    while pending != {}
      invariant pending <= keys && Visits(order, keys - pending)
      decreases pending
    {
      var v :| v in pending;
      order, pending := order + [v], pending - {v};
    }
  }

  method OldestVersion(versions: map<nat, VersionMetadata>) returns (least: nat)
    ensures least == Oldest(versions.Keys)
  {
    least := 0;
    var pending, seen := versions.Keys, false;
    while pending != {}
      invariant pending <= versions.Keys && (seen <==> pending != versions.Keys)
      invariant seen ==> least in versions && forall v :: v in versions && v !in pending ==> least <= v
      invariant !seen ==> least == 0
      decreases pending
    {
      var v :| v in pending;
      if !seen || v < least {
        least := v;
      }
      pending, seen := pending - {v}, true;
    }
  }

  method QueuedUpsertVersionsForPath(st: Storage, path: string) returns (versions: set<nat>)
    requires IndexComplete(st.data) && path != ""
    ensures versions == QueuedUpsertVersions(st.data.outbox, path)
  {
    var ids := ListQueuedIdsForPath(st, path);
    versions := {};
    for i := 0 to |ids|
      invariant versions == set id | id in ids[..i] && id in st.data.outbox && st.data.outbox[id].kind == Upsert
        :: st.data.outbox[id].version
    {
      assert ids[..i + 1] == ids[..i] + [ids[i]];
      if ids[i] in st.data.outbox && st.data.outbox[ids[i]].kind == Upsert {
        versions := versions + {st.data.outbox[ids[i]].version};
      }
    }
    assert ids[..|ids|] == ids;
  }

  method PruneExcessVersions(st: Storage, path: string, metadata: Metadata, order: seq<nat>)
    returns (pruned: Metadata, ok: bool)
    requires IndexComplete(st.data) && path != "" && Visits(order, metadata.versions.Keys)
    modifies st
    ensures var protected := QueuedUpsertVersions(old(st.data).outbox, path);
      Ran(old(st.data), old(st.budget), Outcome(DeletesInOrder(path, order, Prunable(metadata, protected)), true),
        st.data, st.budget, ok) &&
      (ok ==> pruned == Pruned(metadata, protected))
  {
    ghost var s, b := st.data, st.budget;
    ghost var doomed := Prunable(metadata, QueuedUpsertVersions(s.outbox, path));
    pruned := metadata;
    if metadata.maxVersions <= 0 || metadata.currentVersion == 0 {
      NothingDoomed(path, order);
      return metadata, true;
    }
    var keepFrom := metadata.currentVersion - metadata.maxVersions + 1;
    if keepFrom <= 1 {
      NothingDoomed(path, order);
      assert metadata.versions - {} == metadata.versions;
      var least := OldestVersion(metadata.versions);
      return metadata.(oldestVersion := least), true;
    }
    var protected := QueuedUpsertVersionsForPath(st, path);
    var kept;
    kept, ok := DeleteVersionsBefore(st, path, metadata.versions, keepFrom, protected, order, doomed);
    if !ok {
      return metadata, false;
    }
    var least := OldestVersion(kept);
    pruned := metadata.(versions := kept, oldestVersion := least);
  }

  method DeleteVersionsBefore(
    st: Storage, path: string, versions: map<nat, VersionMetadata>, keepFrom: int, protected: set<nat>,
    order: seq<nat>, ghost doomed: set<nat>) returns (kept: map<nat, VersionMetadata>, ok: bool)
    requires Visits(order, versions.Keys)
    requires doomed == set v | v in versions.Keys && v < keepFrom && v !in protected
    modifies st
    ensures Ran(old(st.data), old(st.budget), Outcome(DeletesInOrder(path, order, doomed), true), st.data, st.budget, ok)
    ensures ok ==> kept == versions - doomed
  {
    ghost var s, b := st.data, st.budget;
    kept := versions;
    ghost var gone: set<nat> := {};
    for i := 0 to |order|
      invariant Ran(s, b, Outcome(DeletesInOrder(path, order[..i], doomed), true), st.data, st.budget, true)
      invariant kept == versions - gone && gone <= doomed
      invariant forall j :: 0 <= j < i && order[j] in doomed ==> order[j] in gone
    {
      assert order[..i + 1][..i] == order[..i];
      assert order[i] in order;
      if order[i] < keepFrom && order[i] !in protected {
        ghost var mid, midBudget := st.data, st.budget;
        ok := st.Write(DeleteVersion(path, order[i]));
        RanThen(s, b, Outcome(DeletesInOrder(path, order[..i], doomed), true), mid, midBudget, true,
          Outcome([DeleteVersion(path, order[i])], true), st.data, st.budget, ok);
        if !ok {
          DeletesPrefix(path, order, doomed, i + 1);
          RanBegins(s, b, Outcome(DeletesInOrder(path, order[..i + 1], doomed), true),
            Outcome(DeletesInOrder(path, order, doomed), true), st.data, st.budget);
          return kept, false;
        }
        kept, gone := kept - {order[i]}, gone + {order[i]};
      }
    }
    assert order[..|order|] == order;
    ok := true;
  }

  lemma {:induction false} NothingDoomed(path: string, order: seq<nat>)
    ensures DeletesInOrder(path, order, {}) == []
  {
    if order != [] {
      NothingDoomed(path, order[..|order| - 1]);
    }
  }

  lemma {:induction false} DeletesPrefix(path: string, order: seq<nat>, doomed: set<nat>, i: nat)
    requires i <= |order|
    ensures DeletesInOrder(path, order[..i], doomed) <= DeletesInOrder(path, order, doomed)
  {
    if i == |order| {
      assert order[..i] == order;
    } else {
      DeletesPrefix(path, order[..|order| - 1], doomed, i);
      assert order[..|order| - 1][..i] == order[..i];
    }
  }

  // ---------------------------------------------------------- metadata commits

  function Advanced(metadata: Metadata, version: nat, now: Time): Metadata {
    metadata.(
      oldestVersion := if metadata.oldestVersion == 0 then version else metadata.oldestVersion,
      currentVersion := version,
      updatedTime := now,
      versions := metadata.versions[version := VersionMetadata(now, None, false)])
  }

  ghost function Committed(metadata: Metadata, version: nat, now: Time, protected: set<nat>): Metadata {
    Pruned(Advanced(metadata, version, now), protected)
  }

  ghost function CommitMetadataWrites(
    path: string, metadata: Metadata, version: nat, now: Time, protected: set<nat>, order: seq<nat>): seq<Write>
  {
    DeletesInOrder(path, order, Prunable(Advanced(metadata, version, now), protected)) +
    [PutMetadata(path, Committed(metadata, version, now, protected))]
  }

  method CommitSourceMetadata(st: Storage, path: string, metadata: Metadata, version: nat, now: Time, order: seq<nat>)
    returns (ok: bool)
    requires IndexComplete(st.data) && path != "" && Visits(order, metadata.versions.Keys + {version})
    modifies st
    ensures Ran(old(st.data), old(st.budget),
      Outcome(CommitMetadataWrites(path, metadata, version, now, QueuedUpsertVersions(old(st.data).outbox, path), order), true),
      st.data, st.budget, ok)
  {
    ghost var s, b := st.data, st.budget;
    var advanced := metadata.(
      oldestVersion := if metadata.oldestVersion == 0 then version else metadata.oldestVersion,
      currentVersion := version,
      updatedTime := now,
      versions := metadata.versions[version := VersionMetadata(now, None, false)]);
    assert advanced.versions.Keys == metadata.versions.Keys + {version};
    var pruned;
    pruned, ok := PruneExcessVersions(st, path, advanced, order);
    ghost var mid, midBudget, midOk := st.data, st.budget, ok;
    ghost var committed := Committed(metadata, version, now, QueuedUpsertVersions(s.outbox, path));
    if ok {
      ok := st.Write(PutMetadata(path, pruned));
    }
    RanThen(s, b, Outcome(DeletesInOrder(path, order, Prunable(advanced, QueuedUpsertVersions(s.outbox, path))), true),
      mid, midBudget, midOk, Outcome([PutMetadata(path, committed)], true), st.data, st.budget, ok);
  }

  // ---------------------------------------------------------- source mutations

  /** What a source write or a current-version delete, undelete or destroy stores.
      `touchesVersion` is false when the version record stays as it is; `prune` is in
      the iteration order of the metadata's version map; `cancelTime` is the later
      clock reading of the cancel loop. */
  datatype Mutation = Mutation(
    path: string, generation: string, record: VersionRecord, touchesVersion: bool, prune: seq<Write>,
    metadata: Metadata, operations: seq<OutboxRecord>, cancelIds: seq<string>, now: Time, cancelTime: Time)

  function IntentOperationOf(r: OutboxRecord): IntentOperation {
    IntentOperation(r.id, r.kind, r.associationId, r.objectId, r.destinationRef, r.notBefore, r.idempotencyKey,
      r.trigger)
  }

  /** newEnqueueIntentRecord */
  function IntentOf(m: Mutation): Intent {
    Intent(m.path, m.generation, m.record.version,
      seq(|m.operations|, i requires 0 <= i < |m.operations| => IntentOperationOf(m.operations[i])),
      UniqueSorted(m.cancelIds), m.now)
  }

  function IntentWrites(m: Mutation): seq<Write> {
    if m.operations == [] then [] else [PutIntent(IntentOf(m))]
  }

  function SourceWrites(m: Mutation): seq<Write> {
    (if m.touchesVersion then [PutVersion(m.path, m.record)] else []) + m.prune + [PutMetadata(m.path, m.metadata)]
  }

  function CompleteWrites(m: Mutation): seq<Write> {
    if m.operations == [] then [] else [DeleteIntent(m.path, m.record.version)]
  }

  function QueueWrites(s: Store, m: Mutation): Outcome {
    var cancel := Cancel(s, m.cancelIds, m.cancelTime);
    Then(cancel, Outcome(PutAllWrites(Apply(s, cancel.writes), m.operations) + CompleteWrites(m), true))
  }

  /** The whole commit: intent, version, pruning, metadata, cancellations, outbox
      records, intent removal. */
  function Commit(s: Store, m: Mutation): Outcome {
    var source := IntentWrites(m) + SourceWrites(m);
    Then(Outcome(source, true), QueueWrites(Apply(s, source), m))
  }
}
