/** Claims on queued operations: leases, commits under a held claim, and every other step
    that touches the outbox, each taken under the enqueue lock
    (internal/backend/dispatcher.go, path_queue.go, association_enqueue.go). */
module Claims {
  import opened Records
  import opened Retry
  import opened AssociationEnqueue

  const CLAIM_LEASE: nat := 300

  datatype StatusKey = StatusKey(path: string, associationId: string, objectId: string)

  datatype Verdict = Synced | RemoteMissing | Failed(failure: ErrorClass)

  datatype Status = Status(version: nat, operationId: string, verdict: Verdict, updatedTime: Time)

  type Outbox = map<string, OutboxRecord>

  function StatusKeyOf(r: OutboxRecord): StatusKey { StatusKey(r.path, r.associationId, r.objectId) }

  // ------------------------------------------------------------ locked sections

  predicate Supported(r: OutboxRecord) { r.objectId != "" && (r.kind == Upsert || r.kind == Delete) }

  predicate Due(r: OutboxRecord, now: Time) { r.Queued() && r.DueTime().value <= now }

  function WithClaim(r: OutboxRecord, owner: string, now: Time): OutboxRecord {
    r.(claimOwner := owner, claimExpires := Some(now + CLAIM_LEASE), claimAttempt := r.claimAttempt + 1, updatedTime := now)
  }

  /** clearOutboxClaim keeps the attempt counter. */
  function WithoutClaim(r: OutboxRecord): OutboxRecord { r.(claimOwner := "", claimExpires := None) }

  predicate Claimable(outbox: Outbox, id: string, now: Time) {
    id in outbox && Due(outbox[id], now) && Supported(outbox[id]) && !outbox[id].ClaimActive(now)
  }

  /** outboxClaimMatches */
  predicate Holds(outbox: Outbox, claimed: OutboxRecord) {
    claimed.id in outbox && claimed.claimOwner != "" &&
    outbox[claimed.id].claimOwner == claimed.claimOwner &&
    outbox[claimed.id].claimExpires == claimed.claimExpires &&
    outbox[claimed.id].claimAttempt == claimed.claimAttempt
  }

  /** markOperationFailed: the record it stores. `now` is the clock reading of the claim. */
  function AfterFailure(r: OutboxRecord, failure: ErrorClass, now: Time): OutboxRecord
    requires r.attempts < MAX_AUTOMATIC_ATTEMPTS
  {
    var attempts := r.attempts + 1;
    var retries := RetriesAutomatically(failure, attempts);
    WithoutClaim(r.(
      attempts := attempts,
      state := if retries then RetryWait else FailedTerminal,
      notBefore := if retries then Some(now + RetrySeconds(r.id, attempts)) else None,
      updatedTime := now))
  }

  /** pathQueueOperationRetry */
  predicate Retryable(outbox: Outbox, id: string, now: Time) {
    id in outbox && !outbox[id].ClaimActive(now) &&
    (outbox[id].state == RetryWait || outbox[id].state == FailedTerminal)
  }

  function AfterRetry(r: OutboxRecord, now: Time): OutboxRecord {
    WithoutClaim(r.(attempts := 0, state := Pending, notBefore := Some(now), updatedTime := now))
  }

  /** A record as an enqueue builds it. */
  predicate Fresh(r: OutboxRecord) {
    r.state == Pending && r.attempts == 0 && r.claimOwner == "" && r.claimExpires == None
  }

  // -------------------------------------------------------------- state machine

  /** `workers` are the dispatches that hold a claimed copy. `superseded` is history:
      those whose record some other step has since changed or removed. */
  datatype System = System(
    outbox: Outbox, status: map<StatusKey, Status>, now: Time, workers: map<nat, OutboxRecord>, superseded: set<nat>)

  datatype Step =
    | Claim(worker: nat, id: string, owner: string, delivered: bool)
    | Discard(id: string)
    | CommitSuccess(worker: nat)
    | CommitFailure(worker: nat, failure: ErrorClass)
    | CommitStale(worker: nat)
    | Abandon(worker: nat)
    | OperatorRetry(id: string)
    | Remove(id: string)
    | Reenqueue(operation: OutboxRecord)
    | Create(operation: OutboxRecord)
    | Tick(now: Time)

  predicate ClaimedNow(outbox: Outbox, id: string, now: Time) { id in outbox && outbox[id].ClaimActive(now) }

  predicate Acts(step: Step) { step.CommitSuccess? || step.CommitFailure? || step.CommitStale? || step.Abandon? }

  /** Remove is one turn of the cancel, association delete and terminal prune loops;
      Create stores an operation without regard to a record with its id, as long as no
      claim on that record is active. */
  predicate Enabled(s: System, step: Step) {
    match step
    case Claim(worker, id, owner, _) => worker !in s.workers && owner != "" && Claimable(s.outbox, id, s.now)
    case Discard(id) => id in s.outbox && Due(s.outbox[id], s.now) && !Supported(s.outbox[id])
    case CommitSuccess(worker) => worker in s.workers
    case CommitFailure(worker, _) => worker in s.workers
    case CommitStale(worker) => worker in s.workers
    case Abandon(worker) => worker in s.workers
    case OperatorRetry(id) => Retryable(s.outbox, id, s.now)
    case Remove(id) => id in s.outbox && !s.outbox[id].ClaimActive(s.now)
    case Reenqueue(operation) => Fresh(operation)
    case Create(operation) => Fresh(operation) && !ClaimedNow(s.outbox, operation.id, s.now)
    case Tick(now) => s.now <= now
  }

  ghost function NextOutbox(s: System, step: Step): Outbox
    requires Valid(s) && Enabled(s, step)
  {
    match step
    case Claim(_, id, owner, _) => s.outbox[id := WithClaim(s.outbox[id], owner, s.now)]
    case Discard(id) => s.outbox - {id}
    case CommitSuccess(worker) => if Holds(s.outbox, s.workers[worker]) then s.outbox - {s.workers[worker].id} else s.outbox
    case CommitFailure(worker, failure) =>
      var claimed := s.workers[worker];
      if Holds(s.outbox, claimed) then s.outbox[claimed.id := AfterFailure(claimed, failure, claimed.updatedTime)] else s.outbox
    case CommitStale(worker) => if Holds(s.outbox, s.workers[worker]) then s.outbox - {s.workers[worker].id} else s.outbox
    case OperatorRetry(id) => s.outbox[id := AfterRetry(s.outbox[id], s.now)]
    case Remove(id) => s.outbox - {id}
    case Reenqueue(operation) => s.outbox[operation.id := Reenqueued(s.outbox, operation)]
    case Create(operation) => s.outbox[operation.id := operation]
    case _ => s.outbox
  }

  ghost function NextStatus(s: System, step: Step): map<StatusKey, Status>
    requires Valid(s) && Enabled(s, step)
  {
    match step
    case CommitSuccess(worker) =>
      var claimed := s.workers[worker];
      if Holds(s.outbox, claimed) then
        s.status[StatusKeyOf(claimed) :=
          Status(claimed.version, claimed.id, if claimed.kind == Upsert then Synced else RemoteMissing,
            claimed.updatedTime)]
      else s.status
    case CommitFailure(worker, failure) =>
      var claimed := s.workers[worker];
      if Holds(s.outbox, claimed) then
        s.status[StatusKeyOf(claimed) := Status(claimed.version, claimed.id, Failed(failure), claimed.updatedTime)]
      else s.status
    case _ => s.status
  }

  ghost function NextWorkers(s: System, step: Step): map<nat, OutboxRecord>
    requires Valid(s) && Enabled(s, step)
  {
    match step
    case Claim(worker, id, owner, delivered) =>
      if delivered then s.workers[worker := WithClaim(s.outbox[id], owner, s.now)] else s.workers
    case CommitSuccess(worker) => s.workers - {worker}
    case CommitFailure(worker, _) => s.workers - {worker}
    case CommitStale(worker) => s.workers - {worker}
    case Abandon(worker) => s.workers - {worker}
    case _ => s.workers
  }

  predicate Changed(before: Outbox, after: Outbox, id: string) {
    !(id in before <==> id in after) || (id in before && before[id] != after[id])
  }

  ghost function Next(s: System, step: Step): System
    requires Valid(s) && Enabled(s, step)
  {
    var outbox, workers := NextOutbox(s, step), NextWorkers(s, step);
    System(outbox, NextStatus(s, step), if step.Tick? then step.now else s.now, workers,
      set w | w in s.workers.Keys && w in workers && (w in s.superseded || Changed(s.outbox, outbox, s.workers[w].id)))
  }

  /** The outbox replaced, with the history that goes with it. */
  function WithOutbox(s: System, outbox: Outbox): System {
    s.(outbox := outbox, superseded :=
      set w | w in s.workers.Keys && (w in s.superseded || Changed(s.outbox, outbox, s.workers[w].id)))
  }

  // ------------------------------------------------------------------ invariant

  predicate RecordValid(id: string, r: OutboxRecord) {
    r.id == id && (r.claimOwner != "" ==> r.Queued() && r.claimExpires.Some?) &&
    (r.Queued() ==> r.attempts < MAX_AUTOMATIC_ATTEMPTS)
  }

  predicate TokenValid(claimed: OutboxRecord) {
    RecordValid(claimed.id, claimed) && claimed.claimOwner != "" && Supported(claimed)
  }

  /** A superseded claim has expired, and any claim now stored expires later. */
  predicate Superseded(s: System, claimed: OutboxRecord)
    requires TokenValid(claimed)
  {
    claimed.claimExpires.value <= s.now &&
    (claimed.id in s.outbox && s.outbox[claimed.id].claimOwner != "" && s.outbox[claimed.id].claimExpires.Some? ==>
      s.outbox[claimed.id].claimExpires.value > claimed.claimExpires.value)
  }

  predicate Live(s: System, worker: nat) { worker in s.workers && worker !in s.superseded }

  ghost predicate Valid(s: System) {
    s.superseded <= s.workers.Keys &&
    (forall id :: id in s.outbox ==> RecordValid(id, s.outbox[id])) &&
    (forall w :: w in s.workers ==> TokenValid(s.workers[w])) &&
    (forall w :: w in s.superseded ==> Superseded(s, s.workers[w])) &&
    (forall w :: Live(s, w) ==> s.workers[w].id in s.outbox && s.outbox[s.workers[w].id] == s.workers[w]) &&
    forall v, w :: Live(s, v) && Live(s, w) && v != w ==> s.workers[v].id != s.workers[w].id
  }

  /** The commit check passes exactly for the workers whose record nobody has touched. */
  lemma HeldIffNotSuperseded(s: System, worker: nat)
    requires Valid(s) && worker in s.workers
    ensures Holds(s.outbox, s.workers[worker]) <==> worker !in s.superseded
    ensures worker !in s.superseded ==> s.outbox[s.workers[worker].id] == s.workers[worker]
  {
    if worker in s.superseded {
      assert Superseded(s, s.workers[worker]);
    } else {
      assert Live(s, worker);
    }
  }

  lemma StepKeepsRecords(s: System, step: Step)
    requires Valid(s) && Enabled(s, step)
    ensures forall id :: id in Next(s, step).outbox ==> RecordValid(id, Next(s, step).outbox[id])
    ensures forall w :: w in Next(s, step).workers ==> TokenValid(Next(s, step).workers[w])
  {
  }

  /** Whoever is superseded by a step had already lost the lease, and no claim stored
      later can carry the same expiry. */
  lemma StepSupersedes(s: System, step: Step, w: nat)
    requires Valid(s) && Enabled(s, step) && w in s.workers && w in Next(s, step).workers
    requires Changed(s.outbox, NextOutbox(s, step), s.workers[w].id)
    ensures s.workers[w].claimExpires.value <= s.now
    ensures Superseded(Next(s, step), s.workers[w])
  {
    if w in s.superseded {
      assert Superseded(s, s.workers[w]);
    } else {
      assert Live(s, w);
    }
    if step.CommitSuccess? || step.CommitFailure? || step.CommitStale? {
      HeldIffNotSuperseded(s, step.worker);
      assert Live(s, step.worker);
    }
  }

  lemma StepKeepsValid(s: System, step: Step)
    requires Valid(s) && Enabled(s, step)
    ensures Valid(Next(s, step))
  {
    var s' := Next(s, step);
    StepKeepsRecords(s, step);
    forall w | w in s'.superseded
      ensures Superseded(s', s'.workers[w])
    {
      if Changed(s.outbox, s'.outbox, s.workers[w].id) {
        StepSupersedes(s, step, w);
      } else {
        assert Superseded(s, s.workers[w]);
      }
    }
    forall w | Live(s', w)
      ensures s'.workers[w].id in s'.outbox && s'.outbox[s'.workers[w].id] == s'.workers[w]
      ensures w in s.workers ==> Live(s, w)
    {
    }
  }

  // ------------------------------------------------------------------- theorems

  ghost predicate Follows(s: System, step: Step, s': System) {
    Valid(s) ==> Enabled(s, step) && s' == Next(s, step)
  }

  ghost predicate ClaimRun(states: seq<System>, steps: seq<Step>) {
    |states| == |steps| + 1 && forall i :: 0 <= i < |steps| ==> Follows(states[i], steps[i], states[i + 1])
  }

  /** A process that has just started: no worker, and an outbox as storage left it. */
  ghost predicate Start(s: System) {
    s.workers == map[] && s.superseded == {} && forall id :: id in s.outbox ==> RecordValid(id, s.outbox[id])
  }

  lemma {:induction false} RunsStayValid(states: seq<System>, steps: seq<Step>, i: nat)
    requires ClaimRun(states, steps) && Start(states[0]) && i <= |steps|
    ensures Valid(states[i])
  {
    if i > 0 {
      RunsStayValid(states, steps, i - 1);
      assert Follows(states[i - 1], steps[i - 1], states[i]);
      StepKeepsValid(states[i - 1], steps[i - 1]);
    }
  }

  /** At every point of every run at most one unexpired claim exists per operation. */
  lemma OneUnexpiredClaim(states: seq<System>, steps: seq<Step>, i: nat, v: nat, w: nat)
    requires ClaimRun(states, steps) && Start(states[0]) && i <= |steps|
    requires v in states[i].workers && w in states[i].workers && states[i].workers[v].id == states[i].workers[w].id
    requires states[i].workers[v].ClaimActive(states[i].now) && states[i].workers[w].ClaimActive(states[i].now)
    ensures v == w
  {
    RunsStayValid(states, steps, i);
    assert v in states[i].superseded ==> Superseded(states[i], states[i].workers[v]);
    assert w in states[i].superseded ==> Superseded(states[i], states[i].workers[w]);
    assert Live(states[i], v) && Live(states[i], w);
  }

  /** A worker whose claim was superseded changes neither outbox nor status, and any
      other worker finds its record exactly as it claimed it. */
  lemma CommitsAreExclusive(states: seq<System>, steps: seq<Step>, i: nat)
    requires ClaimRun(states, steps) && Start(states[0]) && i < |steps| && Acts(steps[i])
    ensures var s, worker := states[i], steps[i].worker;
      worker in s.workers &&
      if worker in s.superseded
      then states[i + 1].outbox == s.outbox && states[i + 1].status == s.status
      else s.workers[worker].id in s.outbox && s.outbox[s.workers[worker].id] == s.workers[worker]
  {
    RunsStayValid(states, steps, i);
    assert Follows(states[i], steps[i], states[i + 1]);
    HeldIffNotSuperseded(states[i], steps[i].worker);
  }

  /** Once superseded, for ever superseded: no later step lets the worker commit. */
  lemma {:induction false} SupersededForever(states: seq<System>, steps: seq<Step>, i: nat, j: nat, worker: nat)
    requires ClaimRun(states, steps) && Start(states[0]) && i <= j <= |steps| && worker in states[i].superseded
    requires forall k :: i <= k < j ==> worker in states[k].workers
    requires worker in states[j].workers
    ensures worker in states[j].superseded
  {
    RunsStayValid(states, steps, j);
    if i < j {
      SupersededForever(states, steps, i, j - 1, worker);
      RunsStayValid(states, steps, j - 1);
      assert Follows(states[j - 1], steps[j - 1], states[j]);
    }
  }

  // ------------------------------------------------- overwriting without a guard

  /** Some worker still counts on its claim of the operation. */
  ghost predicate Trusted(s: System, id: string) {
    exists w :: w in s.workers && s.workers[w].id == id && s.workers[w].ClaimActive(s.now)
  }

  /** An outbox whose changed records carry no claim. */
  ghost predicate ChangedUnclaimed(before: Outbox, after: Outbox) {
    forall id :: id in after ==> RecordValid(id, after[id]) && (Changed(before, after, id) ==> after[id].claimOwner == "")
  }

  /** Replacing records by unclaimed ones keeps the lease invariant exactly when no worker
      counts on its claim of one of them. */
  lemma ReplacingKeepsLeasesExactly(s: System, outbox: Outbox)
    requires Valid(s) && ChangedUnclaimed(s.outbox, outbox)
    ensures Valid(WithOutbox(s, outbox)) <==> forall id :: Changed(s.outbox, outbox, id) ==> !Trusted(s, id)
  {
    var s' := WithOutbox(s, outbox);
    if forall id :: Changed(s.outbox, outbox, id) ==> !Trusted(s, id) {
      forall w | w in s'.superseded
        ensures Superseded(s', s'.workers[w])
      {
        if Changed(s.outbox, outbox, s.workers[w].id) {
          assert !Trusted(s, s.workers[w].id);
        } else {
          assert Superseded(s, s.workers[w]);
        }
      }
      forall w | Live(s', w)
        ensures s'.workers[w].id in outbox && outbox[s'.workers[w].id] == s'.workers[w]
        ensures Live(s, w)
      {
      }
    } else {
      var id :| Changed(s.outbox, outbox, id) && Trusted(s, id);
      var w :| w in s.workers && s.workers[w].id == id && s.workers[w].ClaimActive(s.now);
      assert w in s'.superseded && !Superseded(s', s'.workers[w]);
    }
  }

  /** Storing an operation over whatever has its id keeps the lease invariant exactly when
      no worker counts on its claim of it. */
  lemma OverwritingKeepsLeasesExactly(s: System, operation: OutboxRecord)
    requires Valid(s) && Fresh(operation)
    ensures Valid(WithOutbox(s, s.outbox[operation.id := operation])) <==> !Trusted(s, operation.id)
  {
    var outbox := s.outbox[operation.id := operation];
    ReplacingKeepsLeasesExactly(s, outbox);
    if Trusted(s, operation.id) {
      TrustIsStored(s, operation.id);
    }
    assert forall id :: Changed(s.outbox, outbox, id) ==> id == operation.id;
  }

  /** A claim a worker counts on is the one stored. */
  lemma TrustIsStored(s: System, id: string)
    requires Valid(s) && Trusted(s, id)
    ensures ClaimedNow(s.outbox, id, s.now)
  {
    var w :| w in s.workers && s.workers[w].id == id && s.workers[w].ClaimActive(s.now);
    assert w in s.superseded ==> Superseded(s, s.workers[w]);
    assert Live(s, w);
  }

  /** The guard a caller can check under the lock is the exact one: whatever workers there
      are, overwriting is harmless if and only if the stored record has no active claim. */
  lemma GuardIsExact(outbox: Outbox, now: Time, operation: OutboxRecord)
    requires Fresh(operation)
    requires forall id :: id in outbox ==>
      RecordValid(id, outbox[id]) && (outbox[id].claimOwner != "" ==> Supported(outbox[id]))
    ensures !ClaimedNow(outbox, operation.id, now) <==>
      forall s :: Valid(s) && s.outbox == outbox && s.now == now ==> Valid(WithOutbox(s, outbox[operation.id := operation]))
  {
    if ClaimedNow(outbox, operation.id, now) {
      var s := System(outbox, map[], now, map[0 := outbox[operation.id]], {});
      assert forall w :: Live(s, w) ==> w == 0;
      assert Valid(s) && s.workers[0].id == operation.id;
      OverwritingKeepsLeasesExactly(s, operation);
    } else {
      forall s | Valid(s) && s.outbox == outbox && s.now == now
        ensures Valid(WithOutbox(s, outbox[operation.id := operation]))
      {
        if Trusted(s, operation.id) {
          TrustIsStored(s, operation.id);
        }
        OverwritingKeepsLeasesExactly(s, operation);
      }
    }
  }
}
