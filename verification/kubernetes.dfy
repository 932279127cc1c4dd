/** Planning, writing and deleting a managed Kubernetes Secret
    (internal/providers/kubernetessecrets/provider.go). */
module KubernetesSecrets {
  import opened Naming
  import opened Text
  import opened Numbers
  import opened Records

  type Bytes = seq<bv8>

  const SECRET_MAX_BYTES: nat := 1048576
  const DATA_KEY_PAYLOAD := "payload"
  const FORMAT_DATA_MAP := "data-map"
  const TYPE_OPAQUE := "Opaque"

  const LABEL_MANAGED := "managed"
  const ASSOCIATION_ID := "association-id"
  const SOURCE_PATH := "source-path"
  const SOURCE_VERSION := "source-version"
  const OBJECT_ID := "object-id"
  const PAYLOAD_SHA256 := "payload-sha256"
  const FORMAT := "format"
  const DATA_KEYS := "data-keys"
  const MOUNT_UUID := "mount-uuid"
  const RESTORE_EPOCH := "restore-epoch"

  /** The annotations and labels this provider owns; all share one key prefix, left out
      here. */
  const OWN_ANNOTATIONS: set<string> :=
    {ASSOCIATION_ID, SOURCE_PATH, SOURCE_VERSION, OBJECT_ID, PAYLOAD_SHA256, FORMAT, DATA_KEYS, MOUNT_UUID, RESTORE_EPOCH}

  datatype Secret = Secret(
    kind: string, data: map<string, Bytes>, labels: map<string, string>, annotations: map<string, string>, immutable: bool)

  datatype Identity = Identity(
    associationId: string, sourcePath: string, objectId: string, mountUuid: string, restoreEpoch: string)
  {
    predicate Complete() { associationId != "" && sourcePath != "" && objectId != "" && mountUuid != "" && restoreEpoch != "" }
  }

  /** `dataKeys` are the sorted keys of `dataMap`; an empty data map means a payload
      write. `nameValid` and `keysValid` stand for the Kubernetes name rules. */
  datatype Request = Request(
    nameValid: bool, keysValid: bool, identity: Identity, sourceVersion: int, payloadSha: string, format: string,
    payload: Bytes, dataMap: map<string, Bytes>, dataKeys: seq<string>)
  {
    predicate IsDataMap() { dataMap != map[] }
  }

  /** SHA-256 of a payload and of a data map's canonical JSON, and JSON for key lists. */
  datatype Encoding = Encoding(
    payloadSha: Bytes -> string, dataMapSha: map<string, Bytes> -> string,
    encodeKeys: seq<string> -> string, decodeKeys: string -> Option<seq<string>>)
  {
    ghost predicate Valid() {
      forall keys: seq<string> :: encodeKeys(keys) != "" && decodeKeys(encodeKeys(keys)) == Some(keys)
    }
  }

  /** The request describes its own payload. */
  ghost predicate Consistent(r: Request, e: Encoding) {
    (forall k :: k in r.dataKeys <==> k in r.dataMap) &&
    r.payloadSha == (if r.IsDataMap() then e.dataMapSha(r.dataMap) else e.payloadSha(r.payload)) &&
    (!r.IsDataMap() ==> r.keysValid)
  }

  datatype ErrorClass = Validation | Capacity | Collision | Ownership | Drift | Remote(name: string)

  /** The answer to reading the Secret. */
  datatype Current = Found(secret: Secret) | Missing | Failed(class_: ErrorClass)

  datatype Plan = PlanCreate | PlanUpdate | PlanNoop | PlanConflict(class_: ErrorClass) | PlanBlocked(class_: ErrorClass)

  /** The one write a mutation makes, if any. */
  datatype Call = CreateSecret(secret: Secret) | UpdateSecret(secret: Secret) | DeleteSecret | NoCall

  // ------------------------------------------------------------------- metadata

  function Value(annotations: map<string, string>, key: string): string {
    if key in annotations then annotations[key] else ""
  }

  predicate Matches(annotations: map<string, string>, key: string, expected: string) {
    expected != "" && Value(annotations, key) == expected
  }

  predicate OwnedByRequest(s: Secret, identity: Identity) {
    Value(s.labels, LABEL_MANAGED) == "true" &&
    Matches(s.annotations, ASSOCIATION_ID, identity.associationId) &&
    Matches(s.annotations, SOURCE_PATH, identity.sourcePath) &&
    Matches(s.annotations, OBJECT_ID, identity.objectId) && Matches(s.annotations, MOUNT_UUID, identity.mountUuid) &&
    Matches(s.annotations, RESTORE_EPOCH, identity.restoreEpoch)
  }

  predicate RemoteIsNewer(s: Secret, sourceVersion: int) {
    sourceVersion > 0 &&
    match Atoi(Value(s.annotations, SOURCE_VERSION))
    case Ok(remote) => remote > sourceVersion
    case Err(_) => false
  }

  function WithOwnership(s: Secret, r: Request): Secret {
    var base := s.annotations[ASSOCIATION_ID := r.identity.associationId][SOURCE_PATH := r.identity.sourcePath]
      [SOURCE_VERSION := Itoa(r.sourceVersion)][OBJECT_ID := r.identity.objectId]
      [PAYLOAD_SHA256 := r.payloadSha][FORMAT := r.format];
    var mount := if r.identity.mountUuid != "" then base[MOUNT_UUID := r.identity.mountUuid] else base;
    var all := if r.identity.restoreEpoch != "" then mount[RESTORE_EPOCH := r.identity.restoreEpoch] else mount;
    s.(labels := s.labels[LABEL_MANAGED := "true"], annotations := all)
  }

  function WithDataKeys(s: Secret, keys: seq<string>, e: Encoding): Secret {
    s.(annotations := s.annotations[DATA_KEYS := e.encodeKeys(keys)])
  }

  function WithoutOwnership(s: Secret): Secret {
    s.(annotations := s.annotations - OWN_ANNOTATIONS, labels := s.labels - {LABEL_MANAGED})
  }

  // --------------------------------------------------------------------- payload

  function Insert(x: string, xs: seq<string>): (r: seq<string>)
    ensures forall y :: y in r <==> y == x || y in xs
    ensures |r| == |xs| + 1
  {
    if xs == [] || Less(x, xs[0]) then [x] + xs else [xs[0]] + Insert(x, xs[1..])
  }

  function Sorted(xs: seq<string>): (r: seq<string>)
    ensures forall y :: y in r <==> y in xs
    ensures |r| == |xs|
  {
    if xs == [] then [] else Insert(xs[0], Sorted(xs[1..]))
  }

  function ManagedDataKeys(s: Secret, e: Encoding): Option<seq<string>> {
    var value := Value(s.annotations, DATA_KEYS);
    if value == "" then Some([])
    else
      match e.decodeKeys(value)
      case Some(keys) => Some(Sorted(keys))
      case None => None
  }

  function ManagedKeysForMutation(s: Secret, e: Encoding): Option<seq<string>> {
    var keys := ManagedDataKeys(s, e);
    if keys.None? || keys.value != [] then keys
    else if Value(s.annotations, FORMAT) == FORMAT_DATA_MAP then None
    else if DATA_KEY_PAYLOAD in s.data then Some([DATA_KEY_PAYLOAD])
    else Some([])
  }

  function Restricted(data: map<string, Bytes>, keys: seq<string>): map<string, Bytes> {
    map k | k in data && k in keys :: data[k]
  }

  function DataMapShaOf(s: Secret, e: Encoding): string {
    match ManagedDataKeys(s, e)
    case None => ""
    case Some(keys) =>
      if keys == [] || Restricted(s.data, keys) == map[] then "" else e.dataMapSha(Restricted(s.data, keys))
  }

  function PayloadShaOf(s: Secret, e: Encoding): string {
    if s.data == map[] then ""
    else if DATA_KEY_PAYLOAD in s.data && |s.data| == 1 then e.payloadSha(s.data[DATA_KEY_PAYLOAD])
    else e.dataMapSha(s.data)
  }

  predicate PayloadMatches(s: Secret, r: Request, e: Encoding) {
    if r.IsDataMap() then DataMapShaOf(s, e) == r.payloadSha else PayloadShaOf(s, e) == r.payloadSha && |s.data| == 1
  }

  predicate ManagedMetadataMatches(s: Secret, r: Request, e: Encoding) {
    s.kind == TYPE_OPAQUE && Value(s.annotations, SOURCE_VERSION) == Itoa(r.sourceVersion) &&
    Value(s.annotations, PAYLOAD_SHA256) == r.payloadSha && Value(s.annotations, FORMAT) == r.format &&
    if r.IsDataMap() then ManagedDataKeys(s, e) == Some(Sorted(r.dataKeys)) else Value(s.annotations, DATA_KEYS) == ""
  }

  predicate HasUnmanagedConflict(s: Secret, managed: seq<string>, desired: seq<string>) {
    exists i :: 0 <= i < |desired| && desired[i] in s.data && desired[i] !in managed
  }

  /** mergedDataMap */
  function Merged(existing: map<string, Bytes>, managed: seq<string>, desired: map<string, Bytes>): map<string, Bytes> {
    (map k | k in existing && k !in managed :: existing[k]) + desired
  }

  method MergeDataMap(existing: map<string, Bytes>, managed: seq<string>, desired: map<string, Bytes>)
    returns (merged: map<string, Bytes>)
    ensures merged == Merged(existing, managed, desired)
  {
    merged := existing;
    for i := 0 to |managed|
      invariant merged == map k | k in existing && k !in managed[..i] :: existing[k]
    {
      assert managed[..i + 1] == managed[..i] + [managed[i]];
      merged := merged - {managed[i]};
    }
    assert managed[..|managed|] == managed;
    var pending := desired.Keys;
    ghost var kept := merged;
    while pending != {}
      invariant pending <= desired.Keys
      invariant merged == kept + map k | k in desired && k !in pending :: desired[k]
      decreases pending
    {
      var key :| key in pending;
      merged, pending := merged[key := desired[key]], pending - {key};
    }
    assert desired == map k | k in desired :: desired[k];
  }

  method FindUnmanagedConflict(s: Secret, managed: seq<string>, desired: seq<string>) returns (found: bool)
    ensures found <==> HasUnmanagedConflict(s, managed, desired)
  {
    for i := 0 to |desired|
      invariant !HasUnmanagedConflict(s, managed, desired[..i])
    {
      if desired[i] in s.data && desired[i] !in managed {
        return true;
      }
    }
    assert desired[..|desired|] == desired;
    found := false;
  }

  // ------------------------------------------------------------------- decisions

  function PlanFor(r: Request, current: Current, e: Encoding): Plan {
    if !r.nameValid || !r.keysValid then PlanBlocked(Validation)
    else
      match current
      case Missing => PlanCreate
      case Failed(c) => PlanBlocked(c)
      case Found(s) =>
        if !OwnedByRequest(s, r.identity) then PlanConflict(Collision)
        else if RemoteIsNewer(s, r.sourceVersion) then PlanBlocked(Drift)
        else if r.IsDataMap() && ManagedKeysForMutation(s, e).None? then PlanBlocked(Drift)
        else if r.IsDataMap() && HasUnmanagedConflict(s, ManagedKeysForMutation(s, e).value, r.dataKeys)
          then PlanConflict(Ownership)
        else if PayloadMatches(s, r, e) && ManagedMetadataMatches(s, r, e) then PlanNoop
        else if !PayloadMatches(s, r, e) && s.immutable then PlanBlocked(Validation)
        else PlanUpdate
  }

  function NewSecret(r: Request): Secret { Secret(TYPE_OPAQUE, map[DATA_KEY_PAYLOAD := r.payload], map[], map[], false) }

  function UpdatedPayload(s: Secret, r: Request, e: Encoding): Secret {
    var changed := if PayloadMatches(s, r, e) then s else s.(kind := TYPE_OPAQUE, data := map[DATA_KEY_PAYLOAD := r.payload]);
    var owned := WithOwnership(changed, r);
    owned.(annotations := owned.annotations - {DATA_KEYS})
  }

  function UpdatedDataMap(s: Secret, r: Request, managed: seq<string>, e: Encoding): Secret {
    WithDataKeys(WithOwnership(s.(kind := TYPE_OPAQUE, data := Merged(s.data, managed, r.dataMap)), r), r.dataKeys, e)
  }

  function UpsertPayload(r: Request, current: Current, e: Encoding): Result<Call> {
    match current
    case Missing => Ok(CreateSecret(WithOwnership(NewSecret(r), r)))
    case Failed(_) => Err("read failed")
    case Found(s) =>
      if !OwnedByRequest(s, r.identity) || RemoteIsNewer(s, r.sourceVersion) then Err("not owned or newer")
      else if PayloadMatches(s, r, e) && ManagedMetadataMatches(s, r, e) then Ok(NoCall)
      else if !PayloadMatches(s, r, e) && s.immutable then Err("immutable")
      else Ok(UpdateSecret(UpdatedPayload(s, r, e)))
  }

  function UpsertDataMap(r: Request, current: Current, e: Encoding): Result<Call> {
    if !r.keysValid then Err("invalid data key")
    else
      match current
      case Missing => Ok(CreateSecret(WithDataKeys(WithOwnership(NewSecret(r).(data := r.dataMap), r), r.dataKeys, e)))
      case Failed(_) => Err("read failed")
      case Found(s) =>
        if !OwnedByRequest(s, r.identity) || RemoteIsNewer(s, r.sourceVersion) then Err("not owned or newer")
        else if PayloadMatches(s, r, e) && ManagedMetadataMatches(s, r, e) then Ok(NoCall)
        else if !PayloadMatches(s, r, e) && s.immutable then Err("immutable")
        else
          match ManagedKeysForMutation(s, e)
          case None => Err("invalid data key metadata")
          case Some(managed) =>
            if HasUnmanagedConflict(s, managed, r.dataKeys) then Err("data key not owned")
            else Ok(UpdateSecret(UpdatedDataMap(s, r, managed, e)))
  }

  /** Upsert, in its own order of checks. */
  function Upsert(r: Request, current: Current, e: Encoding): Result<Call> {
    if !r.nameValid then Err("invalid name")
    else if |r.payload| > SECRET_MAX_BYTES then Err("too large")
    else if r.IsDataMap() then UpsertDataMap(r, current, e)
    else UpsertPayload(r, current, e)
  }

  /** Delete; `dataMap` deletes only the managed keys, and the Secret once none is left. */
  function DeleteCall(r: Request, dataMap: bool, current: Current, e: Encoding): Result<Call> {
    if !r.nameValid then Err("invalid name")
    else
      match current
      case Missing => Ok(NoCall)
      case Failed(_) => Err("read failed")
      case Found(s) =>
        if !OwnedByRequest(s, r.identity) || RemoteIsNewer(s, r.sourceVersion) then Err("not owned or newer")
        else if !dataMap then Ok(DeleteSecret)
        else
          match ManagedKeysForMutation(s, e)
          case None => Err("invalid data key metadata")
          case Some(managed) =>
            var rest := Merged(s.data, managed, map[]);
            Ok(if rest == map[] then DeleteSecret else UpdateSecret(WithoutOwnership(s.(data := rest))))
  }

  // ------------------------------------------------------- a plan predicts the write

  predicate Predicts(plan: Plan, outcome: Result<Call>) {
    match plan
    case PlanCreate => outcome.Ok? && outcome.value.CreateSecret?
    case PlanUpdate => outcome.Ok? && outcome.value.UpdateSecret?
    case PlanNoop => outcome == Ok(NoCall)
    case PlanConflict(_) => outcome.Err?
    case PlanBlocked(_) => outcome.Err?
  }

  /** A data map that is already in place has sound key metadata and no conflict. */
  lemma NoopHasNoConflict(s: Secret, r: Request, e: Encoding)
    requires Consistent(r, e) && r.IsDataMap() && ManagedMetadataMatches(s, r, e)
    ensures ManagedKeysForMutation(s, e).Some? &&
      !HasUnmanagedConflict(s, ManagedKeysForMutation(s, e).value, r.dataKeys)
  {
    var key :| key in r.dataMap;
    assert key in r.dataKeys;
    assert ManagedKeysForMutation(s, e) == Some(Sorted(r.dataKeys));
  }

  /** Although the two check in different orders, a plan names exactly what an upsert
      does, except that it overlooks the size limit. */
  lemma PlanPredictsUpsert(r: Request, current: Current, e: Encoding)
    requires Consistent(r, e)
    ensures var plan := PlanFor(r, current, e);
      Predicts(plan, Upsert(r, current, e)) <==>
        |r.payload| <= SECRET_MAX_BYTES || plan.PlanConflict? || plan.PlanBlocked?
  {
    if current.Found? && r.IsDataMap() && ManagedMetadataMatches(current.secret, r, e) {
      NoopHasNoConflict(current.secret, r, e);
    }
  }

  // -------------------------------------------------------- an upsert settles the plan

  /** The Secret after the call, if the API server accepts it. */
  function After(current: Current, call: Call): Current {
    match call
    case CreateSecret(s) => Found(s)
    case UpdateSecret(s) => Found(s)
    case DeleteSecret => Missing
    case NoCall => current
  }

  lemma OwnershipWritten(s: Secret, r: Request)
    ensures var a := WithOwnership(s, r);
      Value(a.annotations, SOURCE_VERSION) == Itoa(r.sourceVersion) &&
      Value(a.annotations, PAYLOAD_SHA256) == r.payloadSha &&
      Value(a.annotations, FORMAT) == r.format && Value(a.labels, LABEL_MANAGED) == "true" &&
      Value(a.annotations, ASSOCIATION_ID) == r.identity.associationId &&
      Value(a.annotations, SOURCE_PATH) == r.identity.sourcePath &&
      Value(a.annotations, OBJECT_ID) == r.identity.objectId &&
      (r.identity.mountUuid != "" ==> Value(a.annotations, MOUNT_UUID) == r.identity.mountUuid) &&
      (r.identity.restoreEpoch != "" ==> Value(a.annotations, RESTORE_EPOCH) == r.identity.restoreEpoch)
    ensures WithOwnership(s, r).data == s.data && WithOwnership(s, r).kind == s.kind &&
      WithOwnership(s, r).immutable == s.immutable
  {
  }

  lemma OwnedExactly(s: Secret, r: Request, extra: map<string, string>)
    requires forall k :: k != DATA_KEYS ==> Value(extra, k) == Value(WithOwnership(s, r).annotations, k)
    ensures var a := WithOwnership(s, r).(annotations := extra);
      OwnedByRequest(a, r.identity) <==> r.identity.Complete()
    ensures !RemoteIsNewer(WithOwnership(s, r).(annotations := extra), r.sourceVersion)
  {
    OwnershipWritten(s, r);
    ItoaRead(r.sourceVersion);
  }

  lemma SinglePayload(payload: Bytes)
    ensures |map[DATA_KEY_PAYLOAD := payload]| == 1
  {
    var m := map[DATA_KEY_PAYLOAD := payload];
    assert m.Keys == {DATA_KEY_PAYLOAD};
    assert |m| == |m.Keys|;
  }

  lemma PayloadSettles(s: Secret, r: Request, e: Encoding)
    requires Consistent(r, e) && !r.IsDataMap() && OwnedByRequest(s, r.identity)
    ensures var a := UpdatedPayload(s, r, e);
      OwnedByRequest(a, r.identity) && !RemoteIsNewer(a, r.sourceVersion) && PayloadMatches(a, r, e) &&
      (ManagedMetadataMatches(a, r, e) <==> s.kind == TYPE_OPAQUE || !PayloadMatches(s, r, e))
  {
    var changed := if PayloadMatches(s, r, e) then s else s.(kind := TYPE_OPAQUE, data := map[DATA_KEY_PAYLOAD := r.payload]);
    SinglePayload(r.payload);
    OwnershipWritten(changed, r);
    OwnedExactly(changed, r, WithOwnership(changed, r).annotations - {DATA_KEYS});
  }

  lemma CreatedPayloadSettles(r: Request, e: Encoding)
    requires Consistent(r, e) && !r.IsDataMap()
    ensures var a := WithOwnership(NewSecret(r), r);
      (OwnedByRequest(a, r.identity) <==> r.identity.Complete()) && !RemoteIsNewer(a, r.sourceVersion) &&
      PayloadMatches(a, r, e) && ManagedMetadataMatches(a, r, e)
  {
    var a := WithOwnership(NewSecret(r), r);
    SinglePayload(r.payload);
    OwnershipWritten(NewSecret(r), r);
    OwnedExactly(NewSecret(r), r, a.annotations);
  }

  /** Data map writes leave exactly the desired keys managed and nothing in conflict. */
  lemma DataMapSettles(s: Secret, r: Request, e: Encoding)
    requires Consistent(r, e) && e.Valid() && r.IsDataMap() && s.kind == TYPE_OPAQUE
    requires forall k :: k in r.dataMap ==> k in s.data && s.data[k] == r.dataMap[k]
    ensures var a := WithDataKeys(WithOwnership(s, r), r.dataKeys, e);
      (OwnedByRequest(a, r.identity) <==> r.identity.Complete()) && !RemoteIsNewer(a, r.sourceVersion) &&
      PayloadMatches(a, r, e) && ManagedMetadataMatches(a, r, e)
  {
    var a := WithDataKeys(WithOwnership(s, r), r.dataKeys, e);
    OwnershipWritten(s, r);
    OwnedExactly(s, r, a.annotations);
    assert e.decodeKeys(e.encodeKeys(r.dataKeys)) == Some(r.dataKeys);
    assert ManagedDataKeys(a, e) == Some(Sorted(r.dataKeys));
    assert Restricted(a.data, Sorted(r.dataKeys)) == r.dataMap;
    var key :| key in r.dataMap;
    assert key in Sorted(r.dataKeys);
  }

  /** The write an upsert makes is what the same plan then finds in place. */
  predicate Settles(r: Request, current: Current, e: Encoding) {
    match current
    case Missing => r.identity.Complete()
    case Found(s) => r.IsDataMap() || s.kind == TYPE_OPAQUE || !PayloadMatches(s, r, e)
    case Failed(_) => false
  }

  lemma SettledPayloadPlan(r: Request, s: Secret, e: Encoding)
    requires Consistent(r, e) && r.nameValid && r.keysValid
    requires !RemoteIsNewer(s, r.sourceVersion) && PayloadMatches(s, r, e)
    ensures PlanFor(r, Found(s), e) == PlanNoop <==> OwnedByRequest(s, r.identity) && ManagedMetadataMatches(s, r, e)
  {
    if r.IsDataMap() && ManagedMetadataMatches(s, r, e) {
      NoopHasNoConflict(s, r, e);
    }
  }

  /** After an accepted upsert the same plan is a noop exactly when the request names its
      owner completely and the Secret is Opaque: a payload left as it was keeps its type. */
  lemma UpsertSettlesPlan(r: Request, current: Current, e: Encoding)
    requires Consistent(r, e) && e.Valid() && Upsert(r, current, e).Ok?
    ensures PlanFor(r, After(current, Upsert(r, current, e).value), e) == PlanNoop <==> Settles(r, current, e)
  {
    var call := Upsert(r, current, e).value;
    match current {
      case Missing =>
        if r.IsDataMap() {
          DataMapSettles(NewSecret(r).(data := r.dataMap), r, e);
        } else {
          CreatedPayloadSettles(r, e);
        }
        SettledPayloadPlan(r, call.secret, e);
      case Found(s) =>
        if call.NoCall? {
          SettledPayloadPlan(r, s, e);
        } else if r.IsDataMap() {
          UpdatedDataMapSettles(r, s, e);
        } else {
          PayloadSettles(s, r, e);
          SettledPayloadPlan(r, call.secret, e);
        }
    }
  }

  lemma UpdatedDataMapSettles(r: Request, s: Secret, e: Encoding)
    requires Consistent(r, e) && e.Valid() && r.IsDataMap() && Upsert(r, Found(s), e).Ok? &&
      Upsert(r, Found(s), e).value.UpdateSecret?
    ensures PlanFor(r, Found(Upsert(r, Found(s), e).value.secret), e) == PlanNoop
  {
    var merged := s.(kind := TYPE_OPAQUE, data := Merged(s.data, ManagedKeysForMutation(s, e).value, r.dataMap));
    DataMapSettles(merged, r, e);
    SettledPayloadPlan(r, Upsert(r, Found(s), e).value.secret, e);
  }

  // ---------------------------------------------------------- foreign keys are left

  /** A data map write or delete changes managed keys only; a delete of the whole Secret
      happens exactly when nothing else is in it. Foreign labels and annotations stay. */
  lemma ForeignKeysStay(r: Request, s: Secret, e: Encoding)
    requires Consistent(r, e) && ManagedKeysForMutation(s, e).Some?
    ensures var managed := ManagedKeysForMutation(s, e).value;
      (r.IsDataMap() && Upsert(r, Found(s), e).Ok? && Upsert(r, Found(s), e).value.UpdateSecret? ==>
        var after := Upsert(r, Found(s), e).value.secret;
        (forall k :: k in s.data && k !in managed ==> k in after.data && after.data[k] == s.data[k]) &&
        (forall k :: k in r.dataMap ==> k in after.data && after.data[k] == r.dataMap[k]) &&
        (forall k :: k in after.data ==> k in r.dataMap || (k in s.data && k !in managed)) &&
        ForeignMetadataStays(s, after)) &&
      (DeleteCall(r, true, Found(s), e).Ok? ==>
        var call := DeleteCall(r, true, Found(s), e).value;
        (call.DeleteSecret? <==> forall k :: k in s.data ==> k in managed) &&
        (call.UpdateSecret? ==>
          (forall k :: k in call.secret.data <==> k in s.data && k !in managed) &&
          (forall k :: k in call.secret.data ==> call.secret.data[k] == s.data[k]) &&
          ForeignMetadataStays(s, call.secret) && !OwnedByRequest(call.secret, r.identity)))
  {
    var managed := ManagedKeysForMutation(s, e).value;
    if r.IsDataMap() && Upsert(r, Found(s), e).Ok? && Upsert(r, Found(s), e).value.UpdateSecret? {
      UpsertKeepsForeign(r, s, managed, e);
    }
    var rest := Merged(s.data, managed, map[]);
    assert forall k :: k in rest <==> k in s.data && k !in managed;
    assert rest == map[] <==> forall k :: k in s.data ==> k in managed;
  }

  ghost predicate ForeignMetadataStays(before: Secret, after: Secret) {
    (forall k :: k !in OWN_ANNOTATIONS ==> Value(after.annotations, k) == Value(before.annotations, k)) &&
    forall k :: k != LABEL_MANAGED ==> Value(after.labels, k) == Value(before.labels, k)
  }

  lemma UpsertKeepsForeign(r: Request, s: Secret, managed: seq<string>, e: Encoding)
    requires r.IsDataMap() && Consistent(r, e) && !HasUnmanagedConflict(s, managed, r.dataKeys)
    ensures var after := UpdatedDataMap(s, r, managed, e);
      (forall k :: k in s.data && k !in managed ==> k in after.data && after.data[k] == s.data[k]) &&
      (forall k :: k in r.dataMap ==> k in after.data && after.data[k] == r.dataMap[k]) &&
      (forall k :: k in after.data ==> k in r.dataMap || (k in s.data && k !in managed)) &&
      ForeignMetadataStays(s, after)
  {
    assert forall i :: 0 <= i < |r.dataKeys| && r.dataKeys[i] in s.data ==> r.dataKeys[i] in managed;
    assert forall k :: k in r.dataKeys && k in s.data ==> k in managed;
  }

  // -------------------------------------------------------------- concrete cases

  const OWNER := Identity("assoc", "app", "object", "mount", "epoch")

  function PayloadRequest(identity: Identity, version: int, payload: Bytes, e: Encoding): Request {
    Request(true, true, identity, version, e.payloadSha(payload), "json", payload, map[], [])
  }

  /** A payload over the limit: a create is planned, and the upsert refuses. */
  lemma OversizedPayloadIsPlanned(e: Encoding)
    ensures var r := PayloadRequest(OWNER, 1, seq(SECRET_MAX_BYTES + 1, _ => 0), e);
      PlanFor(r, Missing, e) == PlanCreate && Upsert(r, Missing, e).Err?
  {
  }

  /** A payload already in place in a Secret of another type: the upsert updates the
      metadata only, keeps the type, and the same plan is an update again. */
  lemma OtherTypeIsKept(e: Encoding)
    requires e.Valid()
    ensures var r := PayloadRequest(OWNER, 1, [0], e);
      var s := WithOwnership(NewSecret(r), r).(kind := "example.com/other");
      Upsert(r, Found(s), e).Ok? && Upsert(r, Found(s), e).value.UpdateSecret? &&
      PlanFor(r, After(Found(s), Upsert(r, Found(s), e).value), e) != PlanNoop
  {
    var r := PayloadRequest(OWNER, 1, [0], e);
    var s := WithOwnership(NewSecret(r), r).(kind := "example.com/other");
    OwnershipWritten(NewSecret(r), r);
    SinglePayload(r.payload);
    assert PayloadMatches(s, r, e);
    OtherTypeIsUpdated(r, s, e);
    UpsertSettlesPlan(r, Found(s), e);
  }

  lemma OtherTypeIsUpdated(r: Request, s: Secret, e: Encoding)
    requires r == PayloadRequest(OWNER, 1, [0], e)
    requires s == WithOwnership(NewSecret(r), r).(kind := "example.com/other") && PayloadMatches(s, r, e)
    ensures Upsert(r, Found(s), e) == Ok(UpdateSecret(UpdatedPayload(s, r, e)))
  {
    OwnershipWritten(NewSecret(r), r);
    OwnedExactly(NewSecret(r), r, s.annotations);
    ItoaRead(r.sourceVersion);
  }

  /** A request without a mount identity, which the engine never sends: the Secret it
      creates is not its own. */
  lemma IncompleteIdentityIsDisowned(e: Encoding)
    requires e.Valid()
    ensures var r := PayloadRequest(OWNER.(mountUuid := ""), 1, [0], e);
      Upsert(r, Missing, e).Ok? && PlanFor(r, After(Missing, Upsert(r, Missing, e).value), e) != PlanNoop
  {
    UpsertSettlesPlan(PayloadRequest(OWNER.(mountUuid := ""), 1, [0], e), Missing, e);
  }
}
