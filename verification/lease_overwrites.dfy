/** Source mutations and leases: a commit stores its operations over whatever record has
    their id, and when no worker is robbed of its claim by that
    (internal/backend/path_data.go, path_versions.go, dispatcher.go). */
module LeaseOverwrites {
  import opened Naming
  import opened Records
  import opened OutboxStorage
  import opened SourceStorage
  import opened SourceMutations
  import opened WriteEffects
  import opened Interruption
  import opened CrashSafety
  import opened SourceHistory
  import opened CrashExamples
  import opened Claims

  /** The processes after a complete commit. */
  ghost function AfterCommit(system: System, s: Store, m: Mutation): System {
    WithOutbox(system, Completed(s, m).outbox)
  }

  ghost predicate Commits(system: System, s: Store, m: Mutation) {
    Valid(system) && system.outbox == s.outbox && system.now == m.now && PlannedQueue(s, m) && VersionDeletes(m.prune) &&
    NewOperations(m.operations, if m.record.Available() then Upsert else Delete, m.path, m.record.version, m.now)
  }

  lemma CommitChanges(system: System, s: Store, m: Mutation)
    requires Commits(system, s, m)
    ensures ChangedUnclaimed(s.outbox, Completed(s, m).outbox)
    ensures forall id :: Changed(s.outbox, Completed(s, m).outbox, id) ==>
      IsIdOf(m.operations, id) || id in CanceledIds(s, m.cancelIds)
  {
    var after := Completed(s, m).outbox;
    CompletedOutbox(s, m);
    forall id | id in after
      ensures RecordValid(id, after[id]) && (Changed(s.outbox, after, id) ==> after[id].claimOwner == "")
    {
      if IsIdOf(m.operations, id) {
        var i :| 0 <= i < |m.operations| && m.operations[i].id == id;
        assert after[id] == m.operations[i];
      }
    }
  }

  /** A complete source mutation keeps the lease invariant exactly when no worker counts
      on its claim of one of the stored operations. The operations it cancels it has
      checked. */
  lemma CommitKeepsLeasesExactly(system: System, s: Store, m: Mutation)
    requires Commits(system, s, m)
    ensures Valid(AfterCommit(system, s, m)) <==>
      forall i :: 0 <= i < |m.operations| ==> !Trusted(system, m.operations[i].id)
  {
    var after := Completed(s, m).outbox;
    CommitChanges(system, s, m);
    ReplacingKeepsLeasesExactly(system, after);
    forall id | id in CanceledIds(s, m.cancelIds)
      ensures !Trusted(system, id)
    {
      if Trusted(system, id) {
        TrustIsStored(system, id);
      }
    }
    forall i | 0 <= i < |m.operations| && Trusted(system, m.operations[i].id)
      ensures Changed(s.outbox, after, m.operations[i].id)
    {
      TrustIsStored(system, m.operations[i].id);
      CompletedOutbox(s, m);
      assert after[m.operations[i].id] == m.operations[i];
    }
  }

  /** What the request could check: no stored record of its operations is claimed now. */
  lemma UnclaimedOperationsKeepLeases(system: System, s: Store, m: Mutation)
    requires Commits(system, s, m)
    requires forall i :: 0 <= i < |m.operations| ==> !ClaimedNow(s.outbox, m.operations[i].id, m.now)
    ensures Valid(AfterCommit(system, s, m))
  {
    forall i | 0 <= i < |m.operations|
      ensures !Trusted(system, m.operations[i].id)
    {
      if Trusted(system, m.operations[i].id) {
        TrustIsStored(system, m.operations[i].id);
      }
    }
    CommitKeepsLeasesExactly(system, s, m);
  }

  // ------------------------------------------------------------ a concrete case

  const CLAIMED := WithClaim(OPERATION, "node/worker", 2)

  /** The delete of a soft-deleted version, in the hands of a worker. */
  const DELIVERING := SOFT_DELETED.(
    outbox := map["op" := CLAIMED],
    index := map[ByPath("app", "op") := "op", ByState(Pending, "op") := "op", ByDue(2, "op") := "op"])

  /** Destroying a soft-deleted version while its delete is being delivered: the request
      passes all its checks, stores the delete unclaimed, and a second worker can claim it
      with the very claim the first one holds. */
  lemma DestroyRobsTheWorker()
    ensures var s := DELIVERING;
      var m := VersionMutation(Destroy, "app", DELETED_METADATA, DELETED, [OPERATION], [], 2, 2);
      var system := System(s.outbox, map[], 2, map[0 := CLAIMED], {});
      SourceConsistent(s, "app") && VersionRequest(s, Destroy, "app", [OPERATION], [], 2, 2) && Valid(system) &&
      !Valid(AfterCommit(system, s, m)) && Claimable(Completed(s, m).outbox, "op", 2) &&
      WithClaim(Completed(s, m).outbox["op"], "node/worker", 2) == CLAIMED
  {
    var s := DELIVERING;
    var system := System(s.outbox, map[], 2, map[0 := CLAIMED], {});
    DeliveringIsRequested();
    var m := VersionMutationIsPlanned(s, Destroy, "app", [OPERATION], [], 2, 2);
    assert Live(system, 0) && forall w :: Live(system, w) ==> w == 0;
    assert Valid(system);
    CompletedOutbox(s, m);
    assert Completed(s, m).outbox[m.operations[0].id] == OPERATION;
    assert system.workers[0].id == "op" && system.workers[0].ClaimActive(2);
    assert Trusted(system, m.operations[0].id);
    CommitKeepsLeasesExactly(system, s, m);
  }

  lemma DeliveringIsRequested()
    ensures SourceConsistent(DELIVERING, "app") && VersionRequest(DELIVERING, Destroy, "app", [OPERATION], [], 2, 2)
  {
    var s := DELIVERING;
    assert Oldest({1}) == 1;
    assert DELETED_METADATA.versions.Keys == {1};
    assert Indexed(s, "op");
    assert Lists([], Replaced(s, Destroy, "app", 1, [OPERATION]));
    assert NewOperations([OPERATION], Delete, "app", 1, 2);
  }
}
