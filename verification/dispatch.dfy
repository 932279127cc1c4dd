/** The dispatcher: claiming, committing and failing operations, the operator actions,
    and the dispatch loop of a worker running alone
    (internal/backend/dispatcher.go, path_queue.go, event_dispatch.go). */
module Dispatch {
  import opened Sets
  import opened Records
  import opened Retry
  import opened OutboxStorage
  import opened Claims

  // ------------------------------------------------------------------- progress

  ghost predicate RecordsValid(outbox: Outbox) { forall id :: id in outbox ==> RecordValid(id, outbox[id]) }

  /** The attempts queued operations have left, one element for each. */
  ghost function AttemptsLeft(outbox: Outbox): set<(string, nat)> {
    set id, k | id in outbox && k in {0, 1, 2} && outbox[id].Queued() && outbox[id].attempts <= k :: (id, k)
  }

  /** A processed operation is gone, terminal, or due again between 30 seconds after
      `from` and 5 minutes after `to`. */
  predicate Processed(before: OutboxRecord, after: Outbox, from: Time, to: Time) {
    before.id in after ==>
      var r := after[before.id];
      r.state == FailedTerminal ||
      (r.state == RetryWait && r.attempts == before.attempts + 1 < MAX_AUTOMATIC_ATTEMPTS && r.claimOwner == "" &&
       r.notBefore.Some? && from + BASE_DELAY <= r.notBefore.value <= to + MAX_DELAY)
  }

  predicate Untouched(before: Outbox, after: Outbox, id: string) {
    (id in before <==> id in after) && (id in before ==> after[id] == before[id])
  }

  lemma ProcessingUsesAttempts(before: Outbox, after: Outbox, id: string, from: Time, to: Time)
    requires RecordsValid(before) && id in before && before[id].Queued() && Processed(before[id], after, from, to)
    requires forall other :: other != id ==> Untouched(before, after, other)
    ensures AttemptsLeft(after) < AttemptsLeft(before) && |AttemptsLeft(after)| < |AttemptsLeft(before)|
  {
    var a := before[id].attempts;
    assert a in {0, 1, 2} && (id, a) in AttemptsLeft(before) && (id, a) !in AttemptsLeft(after);
    forall p | p in AttemptsLeft(after)
      ensures p in AttemptsLeft(before)
    {
      assert p.0 != id ==> Untouched(before, after, p.0);
    }
    SmallerSet(AttemptsLeft(after), AttemptsLeft(before));
  }

  /** One operation of a pass: gone, or processed by it. */
  predicate Moved(before: Outbox, after: Outbox, id: string, from: Time, to: Time) {
    id in before && (id !in after || (before[id].Queued() && Processed(before[id], after, from, to)))
  }

  /** An operation of the listing after its turn. */
  predicate Dispatched(before: Outbox, after: Outbox, id: string, from: Time, to: Time) {
    Moved(before, after, id, from, to) || (Untouched(before, after, id) && !Claimable(before, id, from))
  }

  /** What a turn of the loop did to its operation. */
  predicate Turn(before: Outbox, after: Outbox, id: string, now: Time) {
    (id in before && before[id].Queued() && Processed(before[id], after, now, now)) ||
    (!Claimable(before, id, now) && (Untouched(before, after, id) || id !in after))
  }

  /** The pass so far: the operations seen have had their turn, the others are untouched. */
  ghost predicate Passed(start: Outbox, current: Outbox, seen: seq<string>, now: Time, clock: Time) {
    (forall id :: id !in seen ==> Untouched(start, current, id)) &&
    forall id :: id in seen ==> Dispatched(start, current, id, now, clock)
  }

  lemma TurnExtendsPass(
    start: Outbox, before: Outbox, after: Outbox, seen: seq<string>, id: string, now: Time, clock: Time, later: Time)
    requires RecordsValid(start) && Passed(start, before, seen, now, clock) && id !in seen && now <= clock <= later
    requires Turn(before, after, id, later) && forall other :: other != id ==> Untouched(before, after, other)
    ensures Passed(start, after, seen + [id], now, later)
  {
    forall other
      ensures other !in seen + [id] ==> Untouched(start, after, other)
      ensures other in seen + [id] ==> Dispatched(start, after, other, now, later)
    {
      if other != id {
        assert Untouched(before, after, other);
        assert other in seen ==> Dispatched(start, before, other, now, clock);
      } else {
        assert Untouched(start, before, id);
      }
    }
  }

  /** After a pass over all due operations nothing is left that could have been claimed
      at its start. */
  lemma PassLeavesNothingDue(start: Outbox, end: Outbox, ids: seq<string>, now: Time, clock: Time)
    requires RecordsValid(start) && Passed(start, end, ids, now, clock)
    requires forall id :: id in start && Due(start[id], now) ==> id in ids
    ensures forall id :: !Claimable(end, id, now)
  {
    forall id
      ensures !Claimable(end, id, now)
    {
      if id in ids {
        assert Dispatched(start, end, id, now, clock);
      } else {
        assert Untouched(start, end, id);
      }
    }
  }

  /** Terminal records the prune removed. */
  ghost predicate OnlyTerminalGone(before: Outbox, after: Outbox) {
    (forall id :: id in after ==> id in before && after[id] == before[id]) &&
    forall id :: id in before && id !in after ==> before[id].state == FailedTerminal
  }

  lemma PruneAfterPass(start: Outbox, end: Outbox, after: Outbox, seen: seq<string>, now: Time, clock: Time)
    requires Passed(start, end, seen, now, clock) && OnlyTerminalGone(end, after) && RecordsValid(end)
    ensures RecordsValid(after) && AttemptsLeft(after) == AttemptsLeft(end)
    ensures forall id :: Untouched(start, after, id) || Moved(start, after, id, now, clock)
    ensures (forall id :: !Claimable(end, id, now)) ==> forall id :: !Claimable(after, id, now)
  {
    forall id
      ensures Untouched(start, after, id) || Moved(start, after, id, now, clock)
    {
      assert if id in seen then Dispatched(start, end, id, now, clock) else Untouched(start, end, id);
    }
    if forall id :: !Claimable(end, id, now) {
      forall id
        ensures !Claimable(after, id, now)
      {
        assert !Claimable(end, id, now);
      }
    }
    forall p
      ensures p in AttemptsLeft(after) <==> p in AttemptsLeft(end)
    {
      assert p.0 in after ==> after[p.0] == end[p.0];
    }
  }

  // ----------------------------------------------------------------- dispatcher

  predicate Belongs(r: OutboxRecord, path: string, associationId: string) { r.path == path && r.associationId == associationId }

  function OfAssociation(outbox: Outbox, path: string, associationId: string): set<string> {
    set id | id in outbox && Belongs(outbox[id], path, associationId)
  }

  /** What processing a claimed operation comes to. Interrupted is a canceled context. */
  datatype ProviderResult = Success | Failure(failure: ErrorClass) | StaleUpsert | Interrupted

  datatype OperatorResult = Done | NotFound | Claimed | NothingToDo | NotAllowed

  class Dispatcher {
    var outbox: Outbox
    var status: map<StatusKey, Status>

    /** claimDispatchableOutboxRecord, with the read-back that follows the write. */
    method ClaimRecord(id: string, owner: string, now: Time, blocked: bool) returns (claimed: Option<OutboxRecord>)
      requires owner != ""
      modifies this
      ensures status == old(status)
      ensures claimed.Some? <==> Claimable(old(outbox), id, now) && !blocked
      ensures claimed.Some? ==>
        claimed == Some(WithClaim(old(outbox)[id], owner, now)) && outbox == old(outbox)[id := claimed.value]
      ensures claimed.None? ==>
        outbox == old(outbox) -
          if id in old(outbox) && Due(old(outbox)[id], now) && !Supported(old(outbox)[id]) then {id} else {}
    {
      claimed := None;
      if id !in outbox || !Due(outbox[id], now) {
        assert outbox - {} == outbox;
        return;
      }
      var record := outbox[id];
      if !Supported(record) {
        outbox := outbox - {id};
        return;
      }
      if blocked || record.ClaimActive(now) {
        assert outbox - {} == outbox;
        return;
      }
      record := record.(claimOwner := owner, claimExpires := Some(now + CLAIM_LEASE));
      record := record.(claimAttempt := record.claimAttempt + 1, updatedTime := now);
      outbox := outbox[id := record];
      var stored := outbox[id];
      if stored.claimOwner == owner && stored.claimExpires == record.claimExpires &&
         stored.claimAttempt == record.claimAttempt {
        claimed := Some(stored);
      }
    }

    /** commitClaimedUpsertSuccess and commitClaimedDeleteSuccess. */
    method CommitSuccess(claimed: OutboxRecord, now: Time) returns (committed: bool)
      modifies this
      ensures committed == Holds(old(outbox), claimed)
      ensures outbox == if committed then old(outbox) - {claimed.id} else old(outbox)
      ensures status == if !committed then old(status) else old(status)[StatusKeyOf(claimed) :=
        Status(claimed.version, claimed.id, if claimed.kind == Upsert then Synced else RemoteMissing, now)]
    {
      committed := Holds(outbox, claimed);
      if committed {
        var verdict := if claimed.kind == Upsert then Synced else RemoteMissing;
        status := status[StatusKeyOf(claimed) := Status(claimed.version, claimed.id, verdict, now)];
        outbox := outbox - {claimed.id};
      }
    }

    /** markClaimedOperationFailed */
    method CommitFailure(claimed: OutboxRecord, failure: ErrorClass, now: Time) returns (committed: bool)
      requires claimed.attempts < MAX_AUTOMATIC_ATTEMPTS
      modifies this
      ensures committed == Holds(old(outbox), claimed)
      ensures outbox == if committed then old(outbox)[claimed.id := AfterFailure(claimed, failure, now)] else old(outbox)
      ensures status == if !committed then old(status) else old(status)[StatusKeyOf(claimed) :=
        Status(claimed.version, claimed.id, Failed(failure), now)]
    {
      committed := Holds(outbox, claimed);
      if committed {
        var record := claimed.(state := FailedTerminal, attempts := claimed.attempts + 1);
        if RetriesAutomatically(failure, record.attempts) {
          record := record.(state := RetryWait, notBefore := Some(now + RetrySeconds(record.id, record.attempts)));
        } else {
          record := record.(notBefore := None);
        }
        record := record.(updatedTime := now, claimOwner := "", claimExpires := None);
        outbox := outbox[record.id := record];
        status := status[StatusKeyOf(claimed) := Status(claimed.version, claimed.id, Failed(failure), now)];
      }
    }

    /** cancelClaimedOutboxOperation */
    method CancelClaimed(claimed: OutboxRecord) returns (committed: bool)
      modifies this
      ensures committed == Holds(old(outbox), claimed)
      ensures outbox == (if committed then old(outbox) - {claimed.id} else old(outbox)) && status == old(status)
    {
      committed := Holds(outbox, claimed);
      if committed {
        outbox := outbox - {claimed.id};
      }
    }

    /** pathQueueOperationRetry */
    method OperatorRetry(id: string, now: Time) returns (result: OperatorResult)
      modifies this
      ensures status == old(status)
      ensures result == Done <==> Retryable(old(outbox), id, now)
      ensures outbox == if result == Done then old(outbox)[id := AfterRetry(old(outbox)[id], now)] else old(outbox)
      ensures result == NotFound <==> id !in old(outbox)
      ensures result == Claimed <==> id in old(outbox) && old(outbox)[id].ClaimActive(now)
    {
      if id !in outbox {
        return NotFound;
      }
      var record := outbox[id];
      if record.ClaimActive(now) {
        return Claimed;
      }
      match record.state
      case Pending => result := NothingToDo;
      case RetryWait | FailedTerminal =>
        record := record.(attempts := 0, state := Pending, notBefore := Some(now), updatedTime := now);
        outbox := outbox[id := record.(claimOwner := "", claimExpires := None)];
        result := Done;
      case Canceled => result := NotAllowed;
    }

    /** pathQueueOperationCancel */
    method OperatorCancel(id: string, now: Time) returns (result: OperatorResult)
      modifies this
      ensures status == old(status)
      ensures result == Done <==> id in old(outbox) && !old(outbox)[id].ClaimActive(now)
      ensures outbox == if result == Done then old(outbox) - {id} else old(outbox)
      ensures result == NotFound <==> id !in old(outbox)
      ensures result != Done && result != NotFound ==> result == Claimed
    {
      if id !in outbox {
        return NotFound;
      }
      if outbox[id].ClaimActive(now) {
        return Claimed;
      }
      outbox := outbox - {id};
      result := Done;
    }

    /** deleteOutboxForAssociation: stops at the first active claim. */
    method DeleteForAssociation(path: string, associationId: string, now: Time)
      returns (removed: set<string>, ok: bool)
      requires RecordsValid(outbox)
      modifies this
      ensures status == old(status) && RecordsValid(outbox)
      ensures removed <= OfAssociation(old(outbox), path, associationId) && outbox == old(outbox) - removed
      ensures forall id :: id in removed ==> !old(outbox)[id].ClaimActive(now)
      ensures ok ==> outbox == old(outbox) - OfAssociation(old(outbox), path, associationId)
      ensures !ok ==>
        exists id :: id in outbox && Belongs(outbox[id], path, associationId) && outbox[id].ClaimActive(now)
    {
      var ids := ListChildren(set id | id in outbox && outbox[id].path == path);
      removed := {};
      assert outbox - {} == outbox;
      for i := 0 to |ids|
        invariant status == old(status) && outbox == old(outbox) - removed
        invariant removed <= OfAssociation(old(outbox), path, associationId)
        invariant forall id :: id in removed ==> !old(outbox)[id].ClaimActive(now)
        invariant forall j :: 0 <= j < i && ids[j] in OfAssociation(old(outbox), path, associationId) ==>
          ids[j] in removed
      {
        assert ids[i] in ids;
        if ids[i] in outbox && outbox[ids[i]].associationId == associationId {
          if outbox[ids[i]].ClaimActive(now) {
            assert Belongs(outbox[ids[i]], path, associationId);
            return removed, false;
          }
          outbox, removed := outbox - {ids[i]}, removed + {ids[i]};
        }
      }
      assert forall id :: id in OfAssociation(old(outbox), path, associationId) ==> id in ids;
      ok := true;
    }

    /** processOutboxRecord on a claimed record, at the clock reading of its claim. */
    method ProcessClaimed(claimed: OutboxRecord, result: ProviderResult, now: Time) returns (ok: bool)
      requires RecordsValid(outbox) && claimed.claimOwner != "" && claimed.Queued()
      requires claimed.id in outbox && outbox[claimed.id] == claimed
      modifies this
      ensures ok == !result.Interrupted? && RecordsValid(outbox)
      ensures forall id :: id != claimed.id ==> Untouched(old(outbox), outbox, id)
      ensures if ok then Processed(claimed, outbox, now, now) else outbox == old(outbox) && status == old(status)
    {
      match result {
        case Success =>
          ok := CommitSuccess(claimed, now);
        case Failure(failure) =>
          ok := CommitFailure(claimed, failure, now);
        case StaleUpsert =>
          ok := CancelClaimed(claimed);
        case Interrupted =>
          ok := false;
      }
    }

    /** Terminal pruning may remove any finished records. */
    method PruneTerminal()
      modifies this
      ensures status == old(status) && OnlyTerminalGone(old(outbox), outbox)
    {
      var chosen: set<string> := *;
      outbox := outbox - (set id | id in outbox.Keys && id in chosen && outbox[id].state == FailedTerminal);
    }

    /** One turn of the dispatch loop. */
    method DispatchOne(id: string, owner: string, now: Time) returns (processed: bool, ok: bool)
      requires RecordsValid(outbox) && owner != ""
      modifies this
      ensures RecordsValid(outbox)
      ensures forall other :: other != id ==> Untouched(old(outbox), outbox, other)
      ensures ok ==> Turn(old(outbox), outbox, id, now)
      ensures processed ==> ok && Claimable(old(outbox), id, now) && Processed(old(outbox)[id], outbox, now, now)
      ensures AttemptsLeft(outbox) <= AttemptsLeft(old(outbox))
      ensures processed ==> |AttemptsLeft(outbox)| < |AttemptsLeft(old(outbox))|
    {
      var claimed := ClaimRecord(id, owner, now, false);
      processed, ok := false, true;
      ghost var between := outbox;
      if claimed.Some? {
        var result: ProviderResult := *;
        ok := ProcessClaimed(claimed.value, result, now);
        processed := ok;
        if ok {
          forall other | other != id
            ensures Untouched(old(outbox), outbox, other)
          {
            assert Untouched(between, outbox, other);
          }
          ProcessingUsesAttempts(old(outbox), outbox, id, now, now);
        }
      }
    }

    /** processDueOutboxLimitWithClock for a worker running alone. Each operation is
        claimed at its own, later clock reading; `end` is the last of them. A limit of
        zero means no limit. */
    method ProcessDue(now: Time, maxOperations: nat, owner: string) returns (processed: nat, end: Time, ok: bool)
      requires RecordsValid(outbox) && owner != ""
      modifies this
      ensures RecordsValid(outbox) && end >= now
      ensures |AttemptsLeft(outbox)| + processed <= |AttemptsLeft(old(outbox))|
      ensures ok ==> forall id :: Untouched(old(outbox), outbox, id) || Moved(old(outbox), outbox, id, now, end)
      ensures ok && (maxOperations == 0 || processed < maxOperations) ==> forall id :: !Claimable(outbox, id, now)
    {
      var ids := ListChildren(set id | id in outbox && Due(outbox[id], now));
      processed, end, ok := 0, now, true;
      for i := 0 to |ids|
        invariant RecordsValid(outbox) && end >= now && ok
        invariant |AttemptsLeft(outbox)| + processed <= |AttemptsLeft(old(outbox))|
        invariant maxOperations == 0 || processed < maxOperations
        invariant Passed(old(outbox), outbox, ids[..i], now, end)
      {
        assert ids[..i + 1] == ids[..i] + [ids[i]] && ids[i] !in ids[..i];
        var clock := end;
        ghost var before := outbox;
        end :| end >= clock;
        var done;
        done, ok := DispatchOne(ids[i], owner, end);
        SubsetSize(AttemptsLeft(outbox), AttemptsLeft(before));
        if !ok {
          return;
        }
        TurnExtendsPass(old(outbox), before, outbox, ids[..i], ids[i], now, clock, end);
        if done {
          processed := processed + 1;
          if maxOperations > 0 && processed >= maxOperations {
            ghost var full := outbox;
            PruneTerminal();
            PruneAfterPass(old(outbox), full, outbox, ids[..i + 1], now, end);
            return;
          }
        }
      }
      assert ids[..|ids|] == ids;
      PassLeavesNothingDue(old(outbox), outbox, ids, now, end);
      ghost var full := outbox;
      PruneTerminal();
      PruneAfterPass(old(outbox), full, outbox, ids, now, end);
    }

    /** runEventDispatch: passes of at most `limit` operations until one finds fewer.
        The loop ends because every processed operation uses up an attempt. */
    method RunEventDispatch(now: Time, limit: nat, owner: string) returns (total: nat, last: Time, ok: bool)
      requires RecordsValid(outbox) && owner != "" && limit >= 1
      modifies this
      ensures RecordsValid(outbox) && last >= now
      ensures |AttemptsLeft(outbox)| + total <= |AttemptsLeft(old(outbox))|
      ensures ok ==> forall id :: !Claimable(outbox, id, last)
    {
      total, last, ok := 0, now, true;
      while true
        invariant RecordsValid(outbox) && last >= now && ok
        invariant |AttemptsLeft(outbox)| + total <= |AttemptsLeft(old(outbox))|
        decreases |AttemptsLeft(outbox)|
      {
        var clock := last;
        last :| last >= clock;
        var processed, end;
        processed, end, ok := ProcessDue(last, limit, owner);
        if !ok {
          return;
        }
        total := total + processed;
        if processed < limit {
          return;
        }
        last := end;
      }
    }
  }
}
