/** Stored records, storage keys and the key/value store itself
    (internal/backend/storage_records.go).

    Times are RFC 3339 UTC strings of fixed width, so their string order is time
    order (section 5.1 of RFC 3339); here they are numbers of seconds. An empty or
    unparsable time is None. SHA-256 based ids are compared only for equality. */
module Records {
  import opened Naming

  datatype Option<+T> = None | Some(value: T)

  type Time = nat

  type Payload = map<string, string>

  const DEFAULT_MAX_VERSIONS := 10

  // ------------------------------------------------------------ source records

  datatype VersionRecord = VersionRecord(
    version: nat, createdTime: Time, data: Payload, deletionTime: Option<Time>, destroyed: bool)
  {
    predicate Available() { !destroyed && deletionTime.None? }
  }

  datatype VersionMetadata = VersionMetadata(createdTime: Time, deletionTime: Option<Time>, destroyed: bool)

  /** Fields no mutation of this model touches. */
  datatype Settings = Settings(
    casRequired: bool, deleteVersionAfter: string, sourceSyncEnabled: bool, customMetadata: map<string, string>)

  datatype Metadata = Metadata(
    generation: string, currentVersion: nat, oldestVersion: nat, maxVersions: int,
    settings: Settings, versions: map<nat, VersionMetadata>, updatedTime: Time)

  function NewMetadata(generation: string): Metadata {
    Metadata(generation, 0, 0, DEFAULT_MAX_VERSIONS, Settings(false, "0s", false, map[]), map[], 0)
  }

  // ------------------------------------------------------------ outbox records

  datatype OperationType = Upsert | Delete | OtherType(name: string)

  datatype State = Pending | RetryWait | FailedTerminal | Canceled

  datatype Trigger = User | DriftRepair

  datatype OutboxRecord = OutboxRecord(
    id: string, kind: OperationType, path: string, version: nat,
    associationId: string, objectId: string, destinationRef: string,
    state: State, attempts: nat, notBefore: Option<Time>,
    createdTime: Time, updatedTime: Time, idempotencyKey: string, trigger: Trigger,
    claimOwner: string, claimExpires: Option<Time>, claimAttempt: nat)
  {
    predicate Queued() { state == Pending || state == RetryWait }

    /** isOutboxClaimActive */
    predicate ClaimActive(now: Time) { claimOwner != "" && claimExpires.Some? && claimExpires.value > now }

    /** outboxDueIndexTime: queued work without a parsable not_before is due at the zero time. */
    function DueTime(): Option<Time> {
      if !Queued() then None else if notBefore.Some? then notBefore else Some(0)
    }
  }

  datatype IntentOperation = IntentOperation(
    id: string, kind: OperationType, associationId: string, objectId: string, destinationRef: string,
    notBefore: Option<Time>, idempotencyKey: string, trigger: Trigger)

  datatype Intent = Intent(
    path: string, generation: string, version: nat,
    operations: seq<IntentOperation>, cancelIds: seq<string>, createdTime: Time)

  // ------------------------------------------------------- association records

  datatype Association = Association(
    id: string, path: string, destinationType: string, destinationName: string, destinationRef: string,
    nameTemplate: string, resolvedName: string, concreteNames: seq<string>, granularity: Granularity,
    providerIdentity: string, deleteMode: string, enabled: bool, updatedTime: Time)

  // --------------------------------------------------------------------- store

  datatype IndexKey =
    | ByPath(path: string, id: string)
    | ByState(state: State, id: string)
    | ByDue(due: Time, id: string)
    | ByDestination(destinationType: string, destinationName: string, id: string)
    | ByName(destinationRef: string, name: string, id: string)

  /** One key/value store, split by key prefix. An outbox index entry holds the
      operation id, an association index entry the source path. */
  datatype Store = Store(
    metadata: map<string, Metadata>,
    versions: map<(string, nat), VersionRecord>,
    intents: map<(string, nat), Intent>,
    outbox: map<string, OutboxRecord>,
    associations: map<(string, string), Association>,
    index: map<IndexKey, string>)

  /** A single Put or Delete. */
  datatype Write =
    | PutMetadata(path: string, metadata: Metadata)
    | PutVersion(path: string, record: VersionRecord)
    | DeleteVersion(path: string, version: nat)
    | PutIntent(intent: Intent)
    | DeleteIntent(path: string, version: nat)
    | PutOutbox(operation: OutboxRecord)
    | DeleteOutbox(id: string)
    | PutAssociation(association: Association)
    | DeleteAssociation(path: string, id: string)
    | PutIndex(key: IndexKey, value: string)
    | DeleteIndex(key: IndexKey)

  function Step(s: Store, w: Write): Store {
    match w
    case PutMetadata(path, metadata) => s.(metadata := s.metadata[path := metadata])
    case PutVersion(path, record) => s.(versions := s.versions[(path, record.version) := record])
    case DeleteVersion(path, version) => s.(versions := s.versions - {(path, version)})
    case PutIntent(intent) => s.(intents := s.intents[(intent.path, intent.version) := intent])
    case DeleteIntent(path, version) => s.(intents := s.intents - {(path, version)})
    case PutOutbox(operation) => s.(outbox := s.outbox[operation.id := operation])
    case DeleteOutbox(id) => s.(outbox := s.outbox - {id})
    case PutAssociation(a) => s.(associations := s.associations[(a.path, a.id) := a])
    case DeleteAssociation(path, id) => s.(associations := s.associations - {(path, id)})
    case PutIndex(key, value) => s.(index := s.index[key := value])
    case DeleteIndex(key) => s.(index := s.index - {key})
  }

  function Apply(s: Store, ws: seq<Write>): Store
    decreases |ws|
  {
    if ws == [] then s else Apply(Step(s, ws[0]), ws[1..])
  }

  lemma {:induction false} ApplyConcat(s: Store, a: seq<Write>, b: seq<Write>)
    ensures Apply(s, a + b) == Apply(Apply(s, a), b)
    decreases |a|
  {
    if a == [] {
      assert a + b == b;
    } else {
      assert (a + b)[1..] == a[1..] + b;
      ApplyConcat(Step(s, a[0]), a[1..], b);
    }
  }

  /** The writes of an operation that meets no storage failure, and whether the
      operation itself reports success. */
  datatype Outcome = Outcome(writes: seq<Write>, ok: bool)

  /** The state left when storage fails after `budget` more writes. */
  ghost predicate Ran(before: Store, budget: nat, o: Outcome, after: Store, left: nat, ok: bool) {
    if |o.writes| <= budget then
      after == Apply(before, o.writes) && left == budget - |o.writes| && ok == o.ok
    else
      after == Apply(before, o.writes[..budget]) && left == 0 && !ok
  }

  /** Two operations in sequence, the second started only if the first succeeds. */
  function Then(first: Outcome, second: Outcome): Outcome {
    if first.ok then Outcome(first.writes + second.writes, second.ok) else first
  }

  lemma RanThen(
    before: Store, budget: nat, first: Outcome, mid: Store, midBudget: nat, midOk: bool,
    second: Outcome, after: Store, left: nat, ok: bool)
    requires Ran(before, budget, first, mid, midBudget, midOk)
    requires if midOk then Ran(mid, midBudget, second, after, left, ok) else after == mid && left == midBudget && !ok
    ensures Ran(before, budget, Then(first, second), after, left, ok)
  {
    if first.ok {
      var both := first.writes + second.writes;
      if |first.writes| <= budget {
        ApplyConcat(before, first.writes, second.writes);
        if |both| > budget {
          var rest := second.writes[..budget - |first.writes|];
          ApplyConcat(before, first.writes, rest);
          assert both[..budget] == first.writes + rest;
        }
      } else {
        assert both[..budget] == first.writes[..budget];
      }
    }
  }

  /** `whole` starts with `part`, and stops where `part` stops if that fails. */
  predicate Begins(part: Outcome, whole: Outcome) {
    if part.ok then part.writes <= whole.writes else whole == part
  }

  /** Cut short inside a first part is cut short as a whole. */
  lemma RanBegins(before: Store, budget: nat, part: Outcome, whole: Outcome, after: Store, left: nat)
    requires Ran(before, budget, part, after, left, false) && Begins(part, whole)
    ensures Ran(before, budget, whole, after, left, false)
  {
    if part.ok {
      assert whole.writes[..budget] == part.writes[..budget];
    }
  }

  /** Storage without transactions: each Put or Delete is durable on its own, and
      any of them may be the last one before a crash or an error return. */
  class Storage {
    var data: Store
    var budget: nat

    method Write(w: Write) returns (ok: bool)
      modifies this
      ensures Ran(old(data), old(budget), Outcome([w], true), data, budget, ok)
    {
      if budget == 0 {
        return false;
      }
      data := Step(data, w);
      budget := budget - 1;
      ok := true;
      assert Apply(data, [w][1..]) == data;
    }

    /** A Go loop over storage.Put or storage.Delete calls that returns on the first error. */
    method WriteAll(ws: seq<Write>) returns (ok: bool)
      modifies this
      ensures Ran(old(data), old(budget), Outcome(ws, true), data, budget, ok)
    {
      for i := 0 to |ws|
        invariant Ran(old(data), old(budget), Outcome(ws[..i], true), data, budget, true)
      {
        ghost var mid, midBudget := data, budget;
        ok := Write(ws[i]);
        assert ws[..i + 1] == ws[..i] + [ws[i]];
        RanThen(old(data), old(budget), Outcome(ws[..i], true), mid, midBudget, true, Outcome([ws[i]], true),
          data, budget, ok);
        if !ok {
          RanBegins(old(data), old(budget), Outcome(ws[..i + 1], true), Outcome(ws, true), data, budget);
          return false;
        }
      }
      assert ws[..|ws|] == ws;
      ok := true;
    }
  }
}
