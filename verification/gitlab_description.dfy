/** The ownership description of a GitLab variable: printing with staged compaction,
    parsing, and recognising the owner (internal/providers/gitlab/project_variables.go).

    `hash` stands for the 22-character unpadded base64url of a truncated SHA-256
    (section 5 of RFC 4648); nothing else about it is assumed. */
module GitlabDescription {
  import opened Naming
  import opened Text
  import opened Numbers
  import opened GitlabEscaping

  const DESCRIPTION_MAX_BYTES: nat := 255
  const PREFIX := "OpenBao sync: "
  const COMPACTED_PATH := "path#"
  const COMPACTED_OBJECT := "object#"
  const VERSION_MARK := "v"

  datatype Metadata = Metadata(
    associationId: string, sourcePath: string, sourcePathHash: string, objectId: string, objectIdHash: string,
    mountUuid: string, mountUuidHash: string, restoreEpoch: string, restoreEpochHash: string,
    sourceVersion: int, payloadHash: string, payloadFormat: string)

  datatype Identity = Identity(
    associationId: string, sourcePath: string, objectId: string, mountUuid: string, restoreEpoch: string)

  datatype Field = Field(key: string, value: string)

  type Hash = string -> string

  predicate Base64Url(c: char) { 'a' <= c <= 'z' || 'A' <= c <= 'Z' || '0' <= c <= '9' || c == '-' || c == '_' }

  ghost predicate IsIdentityHash(hash: Hash) {
    forall value: string :: |hash(value)| == 22 && forall i :: 0 <= i < 22 ==> Base64Url(hash(value)[i])
  }

  // ------------------------------------------------------------------ printing

  function FieldsOf(wire: Metadata, compact: bool): seq<Field> {
    if compact then
      [Field("a", wire.associationId), Field("h", wire.payloadHash), Field("f", wire.payloadFormat),
       Field("m", wire.mountUuid), Field("mh", wire.mountUuidHash),
       Field("r", wire.restoreEpoch), Field("rh", wire.restoreEpochHash)]
    else
      [Field("assoc", wire.associationId), Field("sha", wire.payloadHash), Field("fmt", wire.payloadFormat),
       Field("mount", wire.mountUuid), Field("mount_hash", wire.mountUuidHash),
       Field("epoch", wire.restoreEpoch), Field("epoch_hash", wire.restoreEpochHash)]
  }

  function Part(field: Field): string { field.key + "=" + Escape(field.value, false) }

  function Parts(fields: seq<Field>): seq<string> {
    if fields == [] then []
    else (if fields[0].value == "" then [] else [Part(fields[0])]) + Parts(fields[1..])
  }

  /** strings.Join(parts, "; ") */
  function Join(parts: seq<string>): string {
    if parts == [] then "" else if |parts| == 1 then parts[0] else parts[0] + "; " + Join(parts[1..])
  }

  function SourceText(wire: Metadata): string {
    if wire.sourcePath == "" && wire.sourcePathHash != "" then COMPACTED_PATH + wire.sourcePathHash else wire.sourcePath
  }

  function ObjectText(wire: Metadata): string {
    if wire.objectId == "" && wire.objectIdHash != "" then COMPACTED_OBJECT + wire.objectIdHash else wire.objectId
  }

  function Summary(wire: Metadata): string {
    Escape(SourceText(wire), true) + " " + Escape(ObjectText(wire), true) + " " +
    VERSION_MARK + Itoa(wire.sourceVersion)
  }

  /** humanMetadataDescription */
  function Human(wire: Metadata, compact: bool): string {
    PREFIX + Summary(wire) + "; " + Join(Parts(FieldsOf(wire, compact)))
  }

  /** compactWireIdentity changes the identity. */
  predicate Compacts(value: string, hash: Hash) { value != "" && Utf8Length(hash(value)) < Utf8Length(value) }

  function CompactRuntime(m: Metadata, hash: Hash): Metadata {
    var mount := if Compacts(m.mountUuid, hash) then m.(mountUuid := "", mountUuidHash := hash(m.mountUuid)) else m;
    if Compacts(m.restoreEpoch, hash) then mount.(restoreEpoch := "", restoreEpochHash := hash(m.restoreEpoch)) else mount
  }

  function CompactObject(m: Metadata, hash: Hash): Metadata {
    if Compacts(m.objectId, hash) then m.(objectId := "", objectIdHash := hash(m.objectId)) else m
  }

  function CompactPath(m: Metadata, hash: Hash): Metadata {
    if Compacts(m.sourcePath, hash) then m.(sourcePath := "", sourcePathHash := hash(m.sourcePath)) else m
  }

  predicate Fits(description: string) { Utf8Length(description) <= DESCRIPTION_MAX_BYTES }

  /** The metadata printed at each compaction stage. */
  function WireAt(m: Metadata, hash: Hash, stage: nat): Metadata {
    var runtime := CompactRuntime(m, hash);
    if stage == 0 then runtime
    else if stage == 1 then CompactObject(runtime, hash)
    else CompactPath(CompactObject(runtime, hash), hash)
  }

  /** A stage that would change nothing is not tried. */
  predicate Tried(m: Metadata, hash: Hash, stage: nat) {
    stage == 0 || (stage == 1 && Compacts(m.objectId, hash)) || (stage == 2 && Compacts(m.sourcePath, hash))
  }

  /** The first stage whose description fits; the last one uses short field names. */
  function StageFrom(m: Metadata, hash: Hash, stage: nat): (chosen: nat)
    requires stage <= 3
    ensures stage <= chosen <= 3
    ensures chosen < 3 ==> Tried(m, hash, chosen) && Fits(Human(WireAt(m, hash, chosen), false))
    ensures forall i :: stage <= i < chosen && Tried(m, hash, i) ==> !Fits(Human(WireAt(m, hash, i), false))
    decreases 3 - stage
  {
    if stage == 3 || (Tried(m, hash, stage) && Fits(Human(WireAt(m, hash, stage), false))) then stage
    else StageFrom(m, hash, stage + 1)
  }

  /** What metadataDescription prints: the identities it hashes, and the field names. */
  function Printed(m: Metadata, hash: Hash): (Metadata, bool) {
    (WireAt(m, hash, StageFrom(m, hash, 0)), StageFrom(m, hash, 0) == 3)
  }

  /** metadataDescription */
  function Describe(m: Metadata, hash: Hash): string {
    Human(Printed(m, hash).0, Printed(m, hash).1)
  }

  // ------------------------------------------------------------------- parsing

  datatype Parsed = NotOurs | Unreadable | Ours(metadata: Metadata)

  function TrimSpaces(s: string): string { TrimRightSpaces(TrimLeftSpaces(s)) }

  function TrimLeftSpaces(s: string): string { if s != "" && IsSpace(s[0]) then TrimLeftSpaces(s[1..]) else s }

  function TrimRightSpaces(s: string): string { if s != "" && IsSpace(s[|s| - 1]) then TrimRightSpaces(s[..|s| - 1]) else s }

  /** strings.Cut(field, "=") */
  function CutKey(field: string): Result<(string, string)> {
    if field == "" then Err("field is missing value")
    else if field[0] == '=' then Ok(("", field[1..]))
    else
      match CutKey(field[1..])
      case Ok((key, value)) => Ok(([field[0]] + key, value))
      case Err(message) => Err(message)
  }

  function ParseField(field: string): Result<Field> {
    match CutKey(TrimLeft(field, ' '))
    case Err(message) => Err(message)
    case Ok((key, value)) =>
      if TrimSpaces(key) == "" then Err("field is missing key")
      else
        match Unescape(value)
        case Ok(decoded) => Ok(Field(TrimSpaces(key), decoded))
        case Err(message) => Err(message)
  }

  function ParseFields(fields: seq<string>, parsed: map<string, string>): Result<map<string, string>> {
    if fields == [] then Ok(parsed)
    else
      match ParseField(fields[0])
      case Ok(field) => ParseFields(fields[1..], parsed[field.key := field.value])
      case Err(message) => Err(message)
  }

  method ParseDescriptionFields(payload: string) returns (result: Result<map<string, string>>)
    ensures result.Ok? == ParseFields(Split(payload, ';'), map[]).Ok?
    ensures result.Ok? ==> result == ParseFields(Split(payload, ';'), map[])
  {
    var fields := SplitEscaped(payload, ';');
    var parsed: map<string, string> := map[];
    assert fields[0..] == fields;
    for i := 0 to |fields|
      invariant ParseFields(fields, map[]) == ParseFields(fields[i..], parsed)
    {
      assert fields[i..][0] == fields[i] && fields[i..][1..] == fields[i + 1..];
      var field := ParseField(fields[i]);
      if field.Err? {
        return Err(field.message);
      }
      parsed := parsed[field.value.key := field.value.value];
    }
    result := Ok(parsed);
  }

  /** metadataDescriptionFieldValue */
  function FieldValue(fields: map<string, string>, long: string, short: string): string {
    if long in fields && fields[long] != "" then fields[long] else if short in fields then fields[short] else ""
  }

  /** An identity and its hash, from the text printed for it. */
  function Identified(text: string, mark: string): (string, string) {
    if mark <= text then ("", text[|mark|..]) else (text, "")
  }

  function ParseSummary(summary: string): Result<(string, string, int)> {
    var parts := Split(summary, ' ');
    if |parts| != 3 then Err("summary must contain source, object, and version")
    else
      match (Unescape(parts[0]), Unescape(parts[1]))
      case (Err(message), _) => Err(message)
      case (Ok(_), Err(message)) => Err(message)
      case (Ok(source), Ok(name)) =>
        if !(VERSION_MARK <= parts[2]) then Err("summary version must start with v")
        else
          match Atoi(parts[2][|VERSION_MARK|..])
          case Ok(version) => Ok((source, name, version))
          case Err(message) => Err(message)
  }

  /** humanOwnershipMetadata */
  function Parse(description: string): Parsed {
    if !(PREFIX <= description) then NotOurs
    else
      match Cut(description[|PREFIX|..], false)
      case Err(_) => Unreadable
      case Ok((text, rest)) =>
        match (ParseSummary(text), ParseFields(Split(TrimLeft(rest, ' '), ';'), map[]))
        case (Ok((source, name, version)), Ok(fields)) =>
          var path, id := Identified(source, COMPACTED_PATH), Identified(name, COMPACTED_OBJECT);
          Ours(Metadata(FieldValue(fields, "assoc", "a"), path.0, path.1, id.0, id.1,
            FieldValue(fields, "mount", "m"), FieldValue(fields, "mount_hash", "mh"),
            FieldValue(fields, "epoch", "r"), FieldValue(fields, "epoch_hash", "rh"),
            version, FieldValue(fields, "sha", "h"), FieldValue(fields, "fmt", "f")))
        case (Err(_), _) => Unreadable
        case (Ok(_), Err(_)) => Unreadable
  }

  // ----------------------------------------------------------------- ownership

  function IdentityOf(m: Metadata): Identity {
    Identity(m.associationId, m.sourcePath, m.objectId, m.mountUuid, m.restoreEpoch)
  }

  predicate HashMatches(actualHash: string, value: string, hash: Hash) { actualHash != "" && actualHash == hash(value) }

  predicate RuntimeMatches(actual: string, actualHash: string, expected: string, hash: Hash) {
    expected != "" && (actual == expected || HashMatches(actualHash, expected, hash))
  }

  /** ownedByRequest */
  predicate OwnedBy(parsed: Parsed, identity: Identity, hash: Hash) {
    parsed.Ours? &&
    var m := parsed.metadata;
    (m.sourcePath == identity.sourcePath || HashMatches(m.sourcePathHash, identity.sourcePath, hash)) &&
    (m.objectId == identity.objectId || HashMatches(m.objectIdHash, identity.objectId, hash)) &&
    m.associationId == identity.associationId &&
    RuntimeMatches(m.mountUuid, m.mountUuidHash, identity.mountUuid, hash) &&
    RuntimeMatches(m.restoreEpoch, m.restoreEpochHash, identity.restoreEpoch, hash) &&
    identity.associationId != "" && identity.sourcePath != "" && identity.objectId != ""
  }
}
