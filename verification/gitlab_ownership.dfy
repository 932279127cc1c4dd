/** What is printed into a GitLab variable is read back, its owner is recognised, and it
    fits (internal/providers/gitlab/project_variables.go). */
module GitlabOwnership {
  import opened Naming
  import opened Text
  import opened Numbers
  import opened GitlabEscaping
  import opened GitlabDescription

  // --------------------------------------------------------------------- fields

  predicate PlainKey(key: string) {
    key != "" && forall i :: 0 <= i < |key| ==> key[i] != '\\' && key[i] != ';' && key[i] != '=' && !IsSpace(key[i])
  }

  predicate PlainKeys(fields: seq<Field>) { forall i :: 0 <= i < |fields| ==> PlainKey(fields[i].key) }

  function NonEmpty(fields: seq<Field>): (r: seq<Field>)
    ensures PlainKeys(fields) ==> PlainKeys(r)
  {
    if fields == [] then [] else (if fields[0].value == "" then [] else [fields[0]]) + NonEmpty(fields[1..])
  }

  lemma {:induction false} PartsOfNonEmpty(fields: seq<Field>)
    ensures |Parts(fields)| == |NonEmpty(fields)|
    ensures forall i :: 0 <= i < |Parts(fields)| ==> Parts(fields)[i] == Part(NonEmpty(fields)[i])
  {
    if fields != [] {
      PartsOfNonEmpty(fields[1..]);
    }
  }

  /** The fields a split finds in joined parts: all but the first begin with a space. */
  function Spaced(lead: string, fields: seq<Field>): seq<string>
    decreases |fields|
  {
    if fields == [] then [] else [lead + Part(fields[0])] + Spaced(" ", fields[1..])
  }

  lemma ScanOfPart(scan: Scan, field: Field)
    requires !scan.escaped && PlainKey(field.key)
    ensures ScanText(scan, Part(field), ';') == scan.(current := scan.current + Part(field))
  {
    var key := field.key + "=";
    ScanOfPlain(scan, key, ';');
    ScanOfConcat(scan, key, Escape(field.value, false), ';');
    ScanOfEscape(scan.(current := scan.current + key), field.value, false, ';');
    assert scan.current + key + Escape(field.value, false) == scan.current + Part(field);
  }

  lemma {:induction false} SplitOfJoin(done: seq<string>, lead: string, fields: seq<Field>, parts: seq<string>)
    requires fields != [] && PlainKeys(fields) && |parts| == |fields|
    requires forall i :: 0 <= i < |parts| ==> parts[i] == Part(fields[i])
    ensures Fields(ScanText(Scan(done, lead, false), Join(parts), ';')) == done + Spaced(lead, fields)
    decreases |fields|
  {
    var scan := Scan(done, lead, false);
    ScanOfPart(scan, fields[0]);
    var after := Scan(done, lead + parts[0], false);
    if |fields| == 1 {
      assert Spaced(" ", fields[1..]) == [];
      assert after.current + "" == after.current;
    } else {
      var rest := "; " + Join(parts[1..]);
      assert Join(parts) == parts[0] + rest;
      ScanOfConcat(scan, parts[0], rest, ';');
      ScanOfConcat(after, "; ", Join(parts[1..]), ';');
      var next := Scan(done + [lead + parts[0]], " ", false);
      SeparatorSplits(after);
      SplitOfJoin(next.fields, " ", fields[1..], parts[1..]);
      assert done + [lead + parts[0]] + Spaced(" ", fields[1..]) == done + Spaced(lead, fields);
    }
  }

  lemma SeparatorSplits(scan: Scan)
    requires !scan.escaped
    ensures ScanText(scan, "; ", ';') == Scan(scan.fields + [scan.current], " ", false)
  {
    assert "; "[1..] == " " && " "[1..] == "";
    assert "" + " " == " ";
  }

  lemma {:induction false} CutKeyOf(key: string, value: string)
    requires forall i :: 0 <= i < |key| ==> key[i] != '='
    ensures CutKey(key + "=" + value) == Ok((key, value))
  {
    if key == "" {
      assert (key + "=" + value)[1..] == value;
    } else {
      CutKeyOf(key[1..], value);
      assert (key + "=" + value)[1..] == key[1..] + "=" + value;
      assert [key[0]] + key[1..] == key;
    }
  }

  /** The field read back from one printed part. */
  lemma FieldOfPart(lead: string, field: Field)
    requires (lead == "" || lead == " ") && PlainKey(field.key)
    ensures ParseField(lead + Part(field)) == Ok(field)
  {
    var text := field.key + "=" + Escape(field.value, false);
    assert lead == " " ==> (lead + text)[1..] == text;
    assert lead == "" ==> lead + text == text;
    assert text[0] == field.key[0] != ' ';
    assert TrimLeft(text, ' ') == text;
    CutKeyOf(field.key, Escape(field.value, false));
    UnescapeOfEscape(field.value, false);
    assert TrimSpaces(field.key) == field.key;
  }

  function Collected(fields: seq<Field>, parsed: map<string, string>): map<string, string> {
    if fields == [] then parsed else Collected(fields[1..], parsed[fields[0].key := fields[0].value])
  }

  lemma {:induction false} FieldsOfSpaced(lead: string, fields: seq<Field>, parsed: map<string, string>)
    requires (lead == "" || lead == " ") && PlainKeys(fields)
    ensures ParseFields(Spaced(lead, fields), parsed) == Ok(Collected(fields, parsed))
    decreases |fields|
  {
    if fields != [] {
      FieldOfPart(lead, fields[0]);
      FieldsOfSpaced(" ", fields[1..], parsed[fields[0].key := fields[0].value]);
      assert Spaced(lead, fields)[1..] == Spaced(" ", fields[1..]);
    }
  }

  /** Joined parts read back as the map of their fields. */
  lemma FieldsReadBack(fields: seq<Field>)
    requires NonEmpty(fields) != [] && PlainKeys(fields)
    ensures ParseFields(Split(Join(Parts(fields)), ';'), map[]) == Ok(Collected(NonEmpty(fields), map[]))
    ensures TrimLeft(" " + Join(Parts(fields)), ' ') == Join(Parts(fields))
  {
    var kept := NonEmpty(fields);
    PartsOfNonEmpty(fields);
    SplitOfJoin([], "", kept, Parts(fields));
    FieldsOfSpaced("", kept, map[]);
    assert [] + Spaced("", kept) == Spaced("", kept);
    var joined := Join(Parts(fields));
    assert joined[0] == Part(kept[0])[0] == kept[0].key[0] != ' ';
    assert (" " + joined)[1..] == joined;
  }

  lemma {:induction false} CollectedOthers(fields: seq<Field>, parsed: map<string, string>, key: string)
    requires forall i :: 0 <= i < |fields| ==> fields[i].key != key
    ensures key in Collected(NonEmpty(fields), parsed) <==> key in parsed
    ensures key in parsed ==> Collected(NonEmpty(fields), parsed)[key] == parsed[key]
  {
    if fields != [] {
      if fields[0].value == "" {
        assert NonEmpty(fields) == NonEmpty(fields[1..]);
        CollectedOthers(fields[1..], parsed, key);
      } else {
        assert NonEmpty(fields)[1..] == NonEmpty(fields[1..]);
        CollectedOthers(fields[1..], parsed[fields[0].key := fields[0].value], key);
      }
    }
  }

  /** A field is in the map exactly when it has a value. */
  lemma {:induction false} CollectedField(fields: seq<Field>, parsed: map<string, string>, i: nat)
    requires i < |fields| && fields[i].key !in parsed
    requires forall j, k :: 0 <= j < k < |fields| ==> fields[j].key != fields[k].key
    ensures var all := Collected(NonEmpty(fields), parsed);
      (fields[i].key in all <==> fields[i].value != "") &&
      (fields[i].value != "" ==> all[fields[i].key] == fields[i].value)
  {
    var rest := if fields[0].value == "" then parsed else parsed[fields[0].key := fields[0].value];
    if fields[0].value == "" {
      assert NonEmpty(fields) == NonEmpty(fields[1..]);
    } else {
      assert NonEmpty(fields)[1..] == NonEmpty(fields[1..]);
    }
    if i == 0 {
      CollectedOthers(fields[1..], rest, fields[0].key);
    } else {
      CollectedField(fields[1..], rest, i - 1);
    }
  }

  predicate DistinctKeys(fields: seq<Field>) { forall j, k :: 0 <= j < k < |fields| ==> fields[j].key != fields[k].key }

  /** Either spelling of a field reads back as its value. */
  lemma FieldValueOf(fields: seq<Field>, i: nat, long: string, short: string)
    requires i < |fields| && DistinctKeys(fields)
    requires fields[i].key == long || fields[i].key == short
    requires Absent(fields, if fields[i].key == long then short else long)
    ensures FieldValue(Collected(NonEmpty(fields), map[]), long, short) == fields[i].value
  {
    CollectedField(fields, map[], i);
    CollectedOthers(fields, map[], if fields[i].key == long then short else long);
  }

  // -------------------------------------------------------------------- summary

  /** An escaped value and the space after it make one part. */
  lemma ScanOfValue(fields: seq<string>, value: string, rest: string)
    ensures ScanText(Scan(fields, "", false), Escape(value, true) + (" " + rest), ' ') ==
      ScanText(Scan(fields + [Escape(value, true)], "", false), rest, ' ')
  {
    var scan := Scan(fields, "", false);
    ScanOfConcat(scan, Escape(value, true), " " + rest, ' ');
    ScanOfEscape(scan, value, true, ' ');
    assert "" + Escape(value, true) == Escape(value, true);
    SpaceSplits(Scan(fields, Escape(value, true), false), rest);
  }

  lemma SpaceSplits(scan: Scan, rest: string)
    requires !scan.escaped
    ensures ScanText(scan, " " + rest, ' ') == ScanText(Scan(scan.fields + [scan.current], "", false), rest, ' ')
  {
    assert (" " + rest)[1..] == rest;
  }

  function Number(wire: Metadata): string { VERSION_MARK + Itoa(wire.sourceVersion) }

  lemma SummaryOf(wire: Metadata, rest: string)
    ensures Summary(wire) + rest ==
      Escape(SourceText(wire), true) + (" " + (Escape(ObjectText(wire), true) + (" " + (Number(wire) + rest))))
  {
  }

  lemma SummaryIsSplit(wire: Metadata)
    ensures Split(Summary(wire), ' ') == [Escape(SourceText(wire), true), Escape(ObjectText(wire), true), Number(wire)]
  {
    var source, name := Escape(SourceText(wire), true), Escape(ObjectText(wire), true);
    ItoaRead(wire.sourceVersion);
    SummaryOf(wire, "");
    assert Summary(wire) + "" == Summary(wire) && Number(wire) + "" == Number(wire);
    ScanOfValue([], SourceText(wire), name + (" " + Number(wire)));
    assert [] + [source] == [source];
    ScanOfValue([source], ObjectText(wire), Number(wire));
    assert [source] + [name] == [source, name];
    ScanOfPlain(Scan([source, name], "", false), Number(wire), ' ');
    assert "" + Number(wire) == Number(wire);
  }

  lemma SummaryReadBack(wire: Metadata)
    ensures ParseSummary(Summary(wire)) == Ok((SourceText(wire), ObjectText(wire), wire.sourceVersion))
  {
    SummaryIsSplit(wire);
    UnescapeOfEscape(SourceText(wire), true);
    UnescapeOfEscape(ObjectText(wire), true);
    ItoaRead(wire.sourceVersion);
    assert Number(wire)[1..] == Itoa(wire.sourceVersion);
  }

  /** An escaped value and the space after it belong to the summary. */
  lemma CutOfValue(value: string, rest: string)
    ensures Cut(Escape(value, true) + (" " + rest), false) == Behind(Escape(value, true) + " ", Cut(rest, false))
  {
    CutOfEscape(value, true, " " + rest);
    CutOfPlain(" ", rest);
    BehindBoth(Escape(value, true), " ", Cut(rest, false));
  }

  lemma BehindThree(a: string, b: string, c: string, cut: CutText)
    ensures Behind(a, Behind(b, Behind(c, cut))) == Behind(a + (b + c), cut)
  {
    BehindBoth(b, c, cut);
    BehindBoth(a, b + c, cut);
  }

  lemma SummaryIsCut(wire: Metadata, rest: string)
    ensures Cut(Summary(wire) + (";" + rest), false) == Ok((Summary(wire), rest))
  {
    var tail := ";" + rest;
    assert tail[1..] == rest;
    SummaryOf(wire, tail);
    SummaryIsWhole(wire);
    SummaryPiecesCut(wire, tail);
    assert Behind(Summary(wire), Ok(("", rest))) == Ok((Summary(wire), rest)) by {
      assert Summary(wire) + "" == Summary(wire);
    }
  }

  lemma SummaryPiecesCut(wire: Metadata, tail: string)
    ensures Cut(Escape(SourceText(wire), true) + (" " + (Escape(ObjectText(wire), true) + (" " + (Number(wire) + tail)))), false) ==
      Behind((Escape(SourceText(wire), true) + " ") + ((Escape(ObjectText(wire), true) + " ") + Number(wire)),
        Cut(tail, false))
  {
    ItoaRead(wire.sourceVersion);
    CutOfValue(SourceText(wire), Escape(ObjectText(wire), true) + (" " + (Number(wire) + tail)));
    CutOfValue(ObjectText(wire), Number(wire) + tail);
    CutOfPlain(Number(wire), tail);
    BehindThree(Escape(SourceText(wire), true) + " ", Escape(ObjectText(wire), true) + " ", Number(wire),
      Cut(tail, false));
  }

  lemma SummaryIsWhole(wire: Metadata)
    ensures (Escape(SourceText(wire), true) + " ") + ((Escape(ObjectText(wire), true) + " ") + Number(wire)) == Summary(wire)
  {
    SummaryShape(wire);
  }

  // ------------------------------------------------------------------ round trip

  /** What a reader learns from a printed description. */
  function ReadBack(wire: Metadata): Metadata {
    var path, id := Identified(SourceText(wire), COMPACTED_PATH), Identified(ObjectText(wire), COMPACTED_OBJECT);
    wire.(sourcePath := path.0, sourcePathHash := path.1, objectId := id.0, objectIdHash := id.1)
  }

  lemma LongNamesArePlain(wire: Metadata)
    ensures PlainKeys(FieldsOf(wire, false))
  {
    var fields := FieldsOf(wire, false);
    LongNameIsPlain("mount_hash");
    LongNameIsPlain("epoch_hash");
    assert PlainKey("assoc") && PlainKey("sha") && PlainKey("fmt") && PlainKey("mount") && PlainKey("epoch");
    assert forall i :: 0 <= i < 7 ==>
      fields[i].key in ["assoc", "sha", "fmt", "mount", "mount_hash", "epoch", "epoch_hash"];
  }

  lemma LongNameIsPlain(name: string)
    requires name in ["mount_hash", "epoch_hash"]
    ensures PlainKey(name)
  {
  }

  lemma LongNamesAreDistinct(wire: Metadata)
    ensures DistinctKeys(FieldsOf(wire, false))
  {
  }

  lemma ShortNamesArePlain(wire: Metadata)
    ensures PlainKeys(FieldsOf(wire, true)) && DistinctKeys(FieldsOf(wire, true))
  {
    var fields := FieldsOf(wire, true);
    assert |fields| == 7 && forall i :: 0 <= i < 7 ==> PlainKey(fields[i].key);
  }

  predicate Absent(fields: seq<Field>, key: string) { forall j :: 0 <= j < |fields| ==> fields[j].key != key }

  lemma LongNamesOnly(wire: Metadata, key: string)
    requires key in ["a", "h", "f", "m", "mh", "r", "rh"]
    ensures Absent(FieldsOf(wire, false), key)
  {
  }

  lemma ShortNamesOnly(wire: Metadata, key: string)
    requires key in ["assoc", "sha", "fmt", "mount", "mount_hash", "epoch", "epoch_hash"]
    ensures Absent(FieldsOf(wire, true), key)
  {
  }

  /** One field, in either spelling. */
  lemma FieldReadsBack(wire: Metadata, compact: bool, i: nat, long: string, short: string)
    requires i < |FieldsOf(wire, compact)| && FieldsOf(wire, compact)[i].key == if compact then short else long
    requires long in ["assoc", "sha", "fmt", "mount", "mount_hash", "epoch", "epoch_hash"]
    requires short in ["a", "h", "f", "m", "mh", "r", "rh"]
    ensures FieldValue(Collected(NonEmpty(FieldsOf(wire, compact)), map[]), long, short) == FieldsOf(wire, compact)[i].value
  {
    if compact {
      ShortNamesArePlain(wire);
      ShortNamesOnly(wire, long);
    } else {
      LongNamesAreDistinct(wire);
      LongNamesOnly(wire, short);
    }
    FieldValueOf(FieldsOf(wire, compact), i, long, short);
  }

  lemma FieldValuesReadBack(wire: Metadata, compact: bool)
    ensures var fields := Collected(NonEmpty(FieldsOf(wire, compact)), map[]);
      FieldValue(fields, "assoc", "a") == wire.associationId && FieldValue(fields, "sha", "h") == wire.payloadHash &&
      FieldValue(fields, "fmt", "f") == wire.payloadFormat && FieldValue(fields, "mount", "m") == wire.mountUuid &&
      FieldValue(fields, "mount_hash", "mh") == wire.mountUuidHash &&
      FieldValue(fields, "epoch", "r") == wire.restoreEpoch &&
      FieldValue(fields, "epoch_hash", "rh") == wire.restoreEpochHash
  {
    FieldReadsBack(wire, compact, 0, "assoc", "a");
    FieldReadsBack(wire, compact, 1, "sha", "h");
    FieldReadsBack(wire, compact, 2, "fmt", "f");
    FieldReadsBack(wire, compact, 3, "mount", "m");
    FieldReadsBack(wire, compact, 4, "mount_hash", "mh");
    FieldReadsBack(wire, compact, 5, "epoch", "r");
    FieldReadsBack(wire, compact, 6, "epoch_hash", "rh");
  }

  /** Whatever identities are hashed and whatever needs escaping, a printed description
      parses, and reads back field by field. */
  lemma HumanReadsBack(wire: Metadata, compact: bool)
    requires NonEmpty(FieldsOf(wire, compact)) != []
    ensures Parse(Human(wire, compact)) == Ours(ReadBack(wire))
  {
    var fields := FieldsOf(wire, compact);
    var rest := " " + Join(Parts(fields));
    if compact {
      ShortNamesArePlain(wire);
    } else {
      LongNamesArePlain(wire);
    }
    FieldsReadBack(fields);
    SummaryReadBack(wire);
    SummaryIsCut(wire, rest);
    PrefixIsCut(Summary(wire), Join(Parts(fields)));
    FieldValuesReadBack(wire, compact);
  }

  lemma PrefixIsCut(summary: string, joined: string)
    ensures PREFIX <= PREFIX + summary + "; " + joined
    ensures (PREFIX + summary + "; " + joined)[|PREFIX|..] == summary + (";" + (" " + joined))
  {
    assert PREFIX + summary + "; " + joined == PREFIX + (summary + (";" + (" " + joined)));
  }

  // ------------------------------------------------------------------- ownership

  /** Metadata as a request has it: no identity hashed yet. */
  predicate Unhashed(m: Metadata) {
    m.sourcePathHash == "" && m.objectIdHash == "" && m.mountUuidHash == "" && m.restoreEpochHash == ""
  }

  /** An identity on the wire: as it is, or replaced by its hash. */
  predicate Carries(value: string, valueHash: string, identity: string, hash: Hash) {
    (value == identity && valueHash == "") || (identity != "" && value == "" && valueHash == hash(identity))
  }

  ghost predicate CarriesAll(wire: Metadata, m: Metadata, hash: Hash) {
    Carries(wire.sourcePath, wire.sourcePathHash, m.sourcePath, hash) &&
    Carries(wire.objectId, wire.objectIdHash, m.objectId, hash) &&
    Carries(wire.mountUuid, wire.mountUuidHash, m.mountUuid, hash) &&
    Carries(wire.restoreEpoch, wire.restoreEpochHash, m.restoreEpoch, hash) &&
    wire.associationId == m.associationId && wire.sourceVersion == m.sourceVersion &&
    wire.payloadHash == m.payloadHash && wire.payloadFormat == m.payloadFormat
  }

  lemma WireCarries(m: Metadata, hash: Hash, stage: nat)
    requires Unhashed(m)
    ensures CarriesAll(WireAt(m, hash, stage), m, hash)
    ensures !Compacts(m.sourcePath, hash) ==> WireAt(m, hash, stage).sourcePath == m.sourcePath
  {
    var runtime := CompactRuntime(m, hash);
    RuntimeCarries(m, hash);
    ObjectCarries(runtime, m, hash);
    if stage >= 2 {
      PathCarries(CompactObject(runtime, hash), m, hash);
    }
  }

  lemma ObjectCarries(wire: Metadata, m: Metadata, hash: Hash)
    requires CarriesAll(wire, m, hash) && wire.objectId == m.objectId
    ensures CarriesAll(CompactObject(wire, hash), m, hash)
    ensures CompactObject(wire, hash).sourcePath == wire.sourcePath &&
      CompactObject(wire, hash).sourcePathHash == wire.sourcePathHash
  {
  }

  lemma PathCarries(wire: Metadata, m: Metadata, hash: Hash)
    requires CarriesAll(wire, m, hash) && wire.sourcePath == m.sourcePath
    ensures CarriesAll(CompactPath(wire, hash), m, hash)
    ensures !Compacts(m.sourcePath, hash) ==> CompactPath(wire, hash) == wire
  {
  }

  lemma RuntimeCarries(m: Metadata, hash: Hash)
    requires Unhashed(m)
    ensures var wire := CompactRuntime(m, hash);
      CarriesAll(wire, m, hash) && wire.sourcePath == m.sourcePath && wire.objectId == m.objectId &&
      wire.sourcePathHash == "" && wire.objectIdHash == ""
  {
  }

  /** An identity that a reader would take for a hash is lost if it is printed as it is,
      unless it is that hash. */
  predicate Survives(printedRaw: bool, identity: string, mark: string, hash: Hash) {
    !printedRaw || !(mark <= identity) || identity[|mark|..] == hash(identity)
  }

  /** The object id is printed as a hash: that makes it shorter, and the description with
      hashed runtime identities alone is too long. */
  predicate ObjectIsHashed(m: Metadata, hash: Hash) {
    Compacts(m.objectId, hash) && !Fits(Human(CompactRuntime(m, hash), false))
  }

  /** So is the source path, if the description is still too long with a hashed object id. */
  predicate PathIsHashed(m: Metadata, hash: Hash) {
    Compacts(m.sourcePath, hash) && !Fits(Human(CompactRuntime(m, hash), false)) &&
    (Compacts(m.objectId, hash) ==> !Fits(Human(CompactObject(CompactRuntime(m, hash), hash), false)))
  }

  /** What is printed raw, told from the lengths of the earlier descriptions. */
  lemma PrintedRaw(m: Metadata, hash: Hash)
    requires Unhashed(m)
    ensures var wire := Printed(m, hash).0;
      (wire.objectId == (if ObjectIsHashed(m, hash) then "" else m.objectId)) &&
      (wire.sourcePath == (if PathIsHashed(m, hash) then "" else m.sourcePath))
  {
    var stage := StageFrom(m, hash, 0);
    assert WireAt(m, hash, 0) == CompactRuntime(m, hash);
    assert WireAt(m, hash, 1) == CompactObject(CompactRuntime(m, hash), hash);
    assert Tried(m, hash, 0);
    assert stage > 1 && Tried(m, hash, 1) ==> !Fits(Human(WireAt(m, hash, 1), false));
  }

  lemma IdentityMatches(value: string, valueHash: string, identity: string, mark: string, hash: Hash)
    requires IsIdentityHash(hash) && identity != "" && mark != "" && Carries(value, valueHash, identity, hash)
    ensures var read := Identified(if value == "" && valueHash != "" then mark + valueHash else value, mark);
      (read.0 == identity || HashMatches(read.1, identity, hash)) <==> Survives(value != "", identity, mark, hash)
  {
    assert |hash(identity)| == 22;
    if value == "" {
      assert (mark + valueHash)[|mark|..] == valueHash;
    }
  }

  lemma RuntimeIsRecognised(value: string, valueHash: string, identity: string, hash: Hash)
    requires IsIdentityHash(hash) && Carries(value, valueHash, identity, hash)
    ensures RuntimeMatches(value, valueHash, identity, hash) <==> identity != ""
  {
    assert |hash(identity)| == 22;
  }

  lemma FieldsAreNotEmpty(wire: Metadata, compact: bool)
    requires wire.associationId != ""
    ensures NonEmpty(FieldsOf(wire, compact)) != []
  {
    assert FieldsOf(wire, compact)[0].value == wire.associationId;
  }

  /** Whichever compaction stage is used, parsing what was printed succeeds and returns
      the association id, version, payload hash and format. */
  lemma DescriptionReadsBack(m: Metadata, hash: Hash)
    requires Unhashed(m) && m.associationId != ""
    ensures var parsed := Parse(Describe(m, hash));
      parsed == Ours(ReadBack(Printed(m, hash).0)) &&
      parsed.metadata.associationId == m.associationId && parsed.metadata.sourceVersion == m.sourceVersion &&
      parsed.metadata.payloadHash == m.payloadHash && parsed.metadata.payloadFormat == m.payloadFormat
  {
    var wire, compact := Printed(m, hash).0, Printed(m, hash).1;
    WireCarries(m, hash, StageFrom(m, hash, 0));
    FieldsAreNotEmpty(wire, compact);
    HumanReadsBack(wire, compact);
  }

  /** The identity that wrote a description is recognised as its owner exactly when all
      of it is set and neither the source path nor the object id looks like a hash, unless
      the description is so long that a hash is printed instead. */
  lemma OwnerIsRecognised(m: Metadata, hash: Hash)
    requires IsIdentityHash(hash) && Unhashed(m)
    ensures OwnedBy(Parse(Describe(m, hash)), IdentityOf(m), hash) <==>
      m.associationId != "" && m.sourcePath != "" && m.objectId != "" && m.mountUuid != "" && m.restoreEpoch != "" &&
      Survives(!PathIsHashed(m, hash), m.sourcePath, COMPACTED_PATH, hash) &&
      Survives(!ObjectIsHashed(m, hash), m.objectId, COMPACTED_OBJECT, hash)
  {
    PrintedRaw(m, hash);
    if m.associationId != "" && m.sourcePath != "" && m.objectId != "" {
      var wire := Printed(m, hash).0;
      WireCarries(m, hash, StageFrom(m, hash, 0));
      DescriptionReadsBack(m, hash);
      IdentityMatches(wire.sourcePath, wire.sourcePathHash, m.sourcePath, COMPACTED_PATH, hash);
      IdentityMatches(wire.objectId, wire.objectIdHash, m.objectId, COMPACTED_OBJECT, hash);
      RuntimeIsRecognised(wire.mountUuid, wire.mountUuidHash, m.mountUuid, hash);
      RuntimeIsRecognised(wire.restoreEpoch, wire.restoreEpochHash, m.restoreEpoch, hash);
    }
  }

  /** So every complete identity whose path and object carry no mark owns what it wrote. */
  lemma UnmarkedOwnerIsRecognised(m: Metadata, hash: Hash)
    requires IsIdentityHash(hash) && Unhashed(m)
    requires m.associationId != "" && m.sourcePath != "" && m.objectId != "" && m.mountUuid != "" && m.restoreEpoch != ""
    requires !(COMPACTED_PATH <= m.sourcePath) && !(COMPACTED_OBJECT <= m.objectId)
    ensures OwnedBy(Parse(Describe(m, hash)), IdentityOf(m), hash)
  {
    OwnerIsRecognised(m, hash);
  }

  /** A source path of at most 22 bytes that begins like a compacted one is never
      recognised: it is printed as it is. */
  lemma MarkedPathIsDisowned(m: Metadata, hash: Hash)
    requires IsIdentityHash(hash) && Unhashed(m) && COMPACTED_PATH <= m.sourcePath && Utf8Length(m.sourcePath) <= 22
    ensures !OwnedBy(Parse(Describe(m, hash)), IdentityOf(m), hash)
  {
    OwnerIsRecognised(m, hash);
    HashLength(m.sourcePath, hash);
    LengthAtMost(m.sourcePath);
    assert |m.sourcePath[|COMPACTED_PATH|..]| < |hash(m.sourcePath)|;
  }

  /** Nor is an object id of that kind. */
  lemma MarkedObjectIsDisowned(m: Metadata, hash: Hash)
    requires IsIdentityHash(hash) && Unhashed(m) && COMPACTED_OBJECT <= m.objectId && Utf8Length(m.objectId) <= 22
    ensures !OwnedBy(Parse(Describe(m, hash)), IdentityOf(m), hash)
  {
    OwnerIsRecognised(m, hash);
    HashLength(m.objectId, hash);
    LengthAtMost(m.objectId);
    assert |m.objectId[|COMPACTED_OBJECT|..]| < |hash(m.objectId)|;
  }

  lemma HashLength(value: string, hash: Hash)
    requires IsIdentityHash(hash)
    ensures Utf8Length(hash(value)) == 22
  {
    assert forall i :: 0 <= i < 22 ==> Base64Url(hash(value)[i]);
    AsciiLength(hash(value));
  }

  lemma {:induction false} LengthAtMost(s: string)
    ensures |s| <= Utf8Length(s)
  {
    if s != "" {
      LengthAtMost(s[1..]);
    }
  }

  const MARKED := Metadata("assoc", "path#app", "", "object", "", "mount", "", "epoch", "", 1, "sha256:0", "json")
  const MARKED_OBJECT := Metadata("assoc", "app", "", "object#key", "", "mount", "", "epoch", "", 1, "sha256:0", "json")

  lemma MarkedExample(hash: Hash)
    requires IsIdentityHash(hash)
    ensures !OwnedBy(Parse(Describe(MARKED, hash)), IdentityOf(MARKED), hash)
  {
    AsciiLength(MARKED.sourcePath);
    MarkedPathIsDisowned(MARKED, hash);
  }

  lemma MarkedObjectExample(hash: Hash)
    requires IsIdentityHash(hash)
    ensures !OwnedBy(Parse(Describe(MARKED_OBJECT, hash)), IdentityOf(MARKED_OBJECT), hash)
  {
    var m := MARKED_OBJECT;
    assert m.objectId == "object#key";
    AsciiLength("object#key");
    MarkedObjectIsDisowned(m, hash);
  }

  // ---------------------------------------------------------------------- length

  function Cost(field: Field): nat { if field.value == "" then 0 else Utf8Length(field.key) + Utf8Length(field.value) + 3 }

  function TotalCost(fields: seq<Field>): nat { if fields == [] then 0 else Cost(fields[0]) + TotalCost(fields[1..]) }

  predicate Plain(value: string) { forall i :: 0 <= i < |value| ==> !Escapable(value[i]) }

  lemma PartLength(field: Field)
    requires Plain(field.value)
    ensures Utf8Length(Part(field)) == Utf8Length(field.key) + 1 + Utf8Length(field.value)
  {
    PlainIsUnchanged(field.value, false);
    Utf8OfConcat(field.key, "=");
    Utf8OfConcat(field.key + "=", field.value);
    AsciiLength("=");
  }

  /** Each printed field costs its name, its value and the separators around it. */
  lemma {:induction false} JoinLength(fields: seq<Field>)
    requires forall i :: 0 <= i < |fields| ==> Plain(fields[i].value)
    ensures Parts(fields) == [] ==> TotalCost(fields) == 0
    ensures Parts(fields) != [] ==> Utf8Length(Join(Parts(fields))) + 2 == TotalCost(fields)
  {
    if fields != [] {
      var rest := Parts(fields[1..]);
      JoinLength(fields[1..]);
      if fields[0].value == "" {
        assert Parts(fields) == rest;
      } else {
        assert Parts(fields) == [Part(fields[0])] + rest;
        PartLength(fields[0]);
        if rest != [] {
          assert Parts(fields)[1..] == rest;
          Utf8OfConcat(Part(fields[0]), "; ");
          Utf8OfConcat(Part(fields[0]) + "; ", Join(rest));
          AsciiLength("; ");
        }
      }
    }
  }

  lemma CostOfCons(field: Field, rest: seq<Field>)
    ensures TotalCost([field] + rest) == Cost(field) + TotalCost(rest)
  {
    assert ([field] + rest)[1..] == rest;
  }

  lemma CostOfSeven(a: Field, b: Field, c: Field, d: Field, e: Field, f: Field, g: Field)
    ensures TotalCost([a, b, c, d, e, f, g]) == Cost(a) + Cost(b) + Cost(c) + Cost(d) + Cost(e) + Cost(f) + Cost(g)
  {
    CostOfCons(g, []);
    CostOfCons(f, [g]);
    CostOfCons(e, [f, g]);
    CostOfCons(d, [e, f, g]);
    CostOfCons(c, [d, e, f, g]);
    CostOfCons(b, [c, d, e, f, g]);
    CostOfCons(a, [b, c, d, e, f, g]);
    assert [g] + [] == [g];
    assert [f] + [g] == [f, g];
    assert [e] + [f, g] == [e, f, g];
    assert [d] + [e, f, g] == [d, e, f, g];
    assert [c] + [d, e, f, g] == [c, d, e, f, g];
    assert [b] + [c, d, e, f, g] == [b, c, d, e, f, g];
    assert [a] + [b, c, d, e, f, g] == [a, b, c, d, e, f, g];
  }

  /** A runtime identity takes at most the room of its hash and the longer field name. */
  lemma RuntimeCost(value: string, valueHash: string, identity: string, hash: Hash, short: string, shortHash: string)
    requires IsIdentityHash(hash) && Utf8Length(short) == 1 && Utf8Length(shortHash) == 2
    requires Shortened(value, valueHash, identity, hash)
    ensures Cost(Field(short, value)) + Cost(Field(shortHash, valueHash)) <= 27
  {
    HashLength(identity, hash);
  }

  lemma ShortNameLengths()
    ensures Utf8Length("a") == 1 && Utf8Length("h") == 1 && Utf8Length("f") == 1 && Utf8Length("m") == 1 &&
      Utf8Length("r") == 1
    ensures Utf8Length("mh") == 2 && Utf8Length("rh") == 2
  {
    AsciiLength("a");
    AsciiLength("h");
    AsciiLength("f");
    AsciiLength("m");
    AsciiLength("r");
    AsciiLength("mh");
    AsciiLength("rh");
  }

  /** Association ids of 38 bytes, payload hashes of 71 bytes, json or raw payloads, and
      identities with nothing to escape. */
  predicate Ordinary(m: Metadata) {
    Utf8Length(m.associationId) == 38 && Utf8Length(m.payloadHash) == 71 && m.payloadFormat in ["json", "raw"] &&
    Plain(m.associationId) && Plain(m.payloadHash) && Plain(m.sourcePath) && Plain(m.objectId) &&
    Plain(m.mountUuid) && Plain(m.restoreEpoch)
  }

  lemma HashIsPlain(value: string, hash: Hash)
    requires IsIdentityHash(hash)
    ensures Plain(hash(value))
  {
    assert forall i :: 0 <= i < 22 ==> Base64Url(hash(value)[i]);
  }

  /** An identity after its compaction was tried. */
  predicate Shortened(value: string, valueHash: string, identity: string, hash: Hash) {
    if Compacts(identity, hash) then value == "" && valueHash == hash(identity) else value == identity && valueHash == ""
  }

  ghost predicate AllShortened(wire: Metadata, m: Metadata, hash: Hash) {
    Shortened(wire.mountUuid, wire.mountUuidHash, m.mountUuid, hash) &&
    Shortened(wire.restoreEpoch, wire.restoreEpochHash, m.restoreEpoch, hash) &&
    Shortened(wire.sourcePath, wire.sourcePathHash, m.sourcePath, hash) &&
    Shortened(wire.objectId, wire.objectIdHash, m.objectId, hash) &&
    wire.associationId == m.associationId && wire.payloadHash == m.payloadHash &&
    wire.payloadFormat == m.payloadFormat &&
    wire.sourceVersion == m.sourceVersion
  }

  lemma LastStageIsShort(m: Metadata, hash: Hash)
    requires Unhashed(m)
    ensures AllShortened(WireAt(m, hash, 3), m, hash)
  {
    var runtime := CompactRuntime(m, hash);
    assert runtime.sourcePath == m.sourcePath && runtime.objectId == m.objectId;
    assert runtime.sourcePathHash == "" && runtime.objectIdHash == "";
    assert Shortened(runtime.mountUuid, runtime.mountUuidHash, m.mountUuid, hash);
    assert Shortened(runtime.restoreEpoch, runtime.restoreEpochHash, m.restoreEpoch, hash);
  }

  lemma CompactFieldsCost(m: Metadata, hash: Hash, wire: Metadata)
    requires IsIdentityHash(hash) && Ordinary(m) && AllShortened(wire, m, hash)
    ensures TotalCost(FieldsOf(wire, true)) <= 179
  {
    ShortNameLengths();
    AsciiLength("json");
    AsciiLength("raw");
    RuntimeCost(wire.mountUuid, wire.mountUuidHash, m.mountUuid, hash, "m", "mh");
    RuntimeCost(wire.restoreEpoch, wire.restoreEpochHash, m.restoreEpoch, hash, "r", "rh");
    CostOfSeven(Field("a", wire.associationId), Field("h", wire.payloadHash), Field("f", wire.payloadFormat),
      Field("m", wire.mountUuid), Field("mh", wire.mountUuidHash), Field("r", wire.restoreEpoch),
      Field("rh", wire.restoreEpochHash));
  }

  lemma CompactFieldsArePlain(m: Metadata, hash: Hash, wire: Metadata)
    requires IsIdentityHash(hash) && Ordinary(m) && AllShortened(wire, m, hash)
    ensures forall i :: 0 <= i < |FieldsOf(wire, true)| ==> Plain(FieldsOf(wire, true)[i].value)
    ensures Parts(FieldsOf(wire, true)) != []
  {
    HashIsPlain(m.mountUuid, hash);
    HashIsPlain(m.restoreEpoch, hash);
    assert Plain("json") && Plain("raw") && Plain("");
    assert FieldsOf(wire, true)[0].value == m.associationId != "";
  }

  lemma CompactFieldsLength(m: Metadata, hash: Hash, wire: Metadata)
    requires IsIdentityHash(hash) && Ordinary(m) && AllShortened(wire, m, hash)
    ensures Utf8Length(Join(Parts(FieldsOf(wire, true)))) <= 177
  {
    CompactFieldsCost(m, hash, wire);
    CompactFieldsArePlain(m, hash, wire);
    JoinLength(FieldsOf(wire, true));
  }

  /** A summary identity takes at most the room of its marked hash. */
  lemma SummaryTextLength(value: string, valueHash: string, identity: string, mark: string, hash: Hash)
    requires IsIdentityHash(hash) && Plain(identity) && Plain(mark) && Ascii(mark)
    requires Shortened(value, valueHash, identity, hash)
    ensures var text := if value == "" && valueHash != "" then mark + valueHash else value;
      Utf8Length(Escape(text, true)) <= |mark| + 22
  {
    HashLength(identity, hash);
    HashIsPlain(identity, hash);
    var text := if value == "" && valueHash != "" then mark + valueHash else value;
    PlainIsUnchanged(text, true);
    AsciiLength(mark);
    Utf8OfConcat(mark, valueHash);
  }

  lemma SummaryLength(m: Metadata, hash: Hash, wire: Metadata)
    requires IsIdentityHash(hash) && Ordinary(m) && AllShortened(wire, m, hash)
    ensures Utf8Length(Summary(wire)) <= 59 + |Itoa(m.sourceVersion)|
  {
    SummaryTextLength(wire.sourcePath, wire.sourcePathHash, m.sourcePath, COMPACTED_PATH, hash);
    SummaryTextLength(wire.objectId, wire.objectIdHash, m.objectId, COMPACTED_OBJECT, hash);
    ItoaRead(m.sourceVersion);
    ThreePartsLength(Escape(SourceText(wire), true), Escape(ObjectText(wire), true), Number(wire));
    SummaryShape(wire);
  }

  lemma SummaryShape(wire: Metadata)
    ensures Summary(wire) == Escape(SourceText(wire), true) + " " + Escape(ObjectText(wire), true) + " " + Number(wire)
  {
    var front := Escape(SourceText(wire), true) + " " + Escape(ObjectText(wire), true) + " ";
    assert front + VERSION_MARK + Itoa(wire.sourceVersion) == front + (VERSION_MARK + Itoa(wire.sourceVersion));
  }

  lemma ThreePartsLength(a: string, b: string, c: string)
    requires Ascii(c)
    ensures Utf8Length(a + " " + b + " " + c) == Utf8Length(a) + Utf8Length(b) + |c| + 2
  {
    AsciiLength(" " + c);
    AsciiLength(" ");
    Utf8OfConcat(a, " ");
    Utf8OfConcat(a + " ", b);
    Utf8OfConcat(a + " " + b, " " + c);
    assert a + " " + b + " " + c == a + " " + b + (" " + c);
  }

  lemma FourPartsLength(a: string, b: string, c: string, d: string)
    ensures Utf8Length(a + b + c + d) == Utf8Length(a) + Utf8Length(b) + Utf8Length(c) + Utf8Length(d)
  {
    Utf8OfConcat(a, b);
    Utf8OfConcat(a + b, c);
    Utf8OfConcat(a + b + c, d);
  }

  lemma PrefixedLength(prefix: string, summary: string, joined: string)
    requires Ascii(prefix)
    ensures Utf8Length(prefix + summary + "; " + joined) == |prefix| + Utf8Length(summary) + 2 + Utf8Length(joined)
  {
    AsciiLength(prefix);
    AsciiLength("; ");
    FourPartsLength(prefix, summary, "; ", joined);
  }

  /** In the last stage the description has at most 252 bytes and the version digits. */
  lemma CompactLength(m: Metadata, hash: Hash, wire: Metadata)
    requires IsIdentityHash(hash) && Ordinary(m) && AllShortened(wire, m, hash)
    ensures Utf8Length(Human(wire, true)) <= 252 + |Itoa(m.sourceVersion)|
  {
    CompactFieldsLength(m, hash, wire);
    SummaryLength(m, hash, wire);
    PrefixedLength(PREFIX, Summary(wire), Join(Parts(FieldsOf(wire, true))));
  }

  lemma ThreeDigits(n: nat)
    requires n < 1000
    ensures |Itoa(n)| <= 3
  {
    assert |Digits(n / 10 / 10)| == 1;
    assert |Digits(n / 10)| <= 2;
  }

  /** For ordinary metadata the description always fits. */
  lemma DescriptionFits(m: Metadata, hash: Hash)
    requires IsIdentityHash(hash) && Unhashed(m) && Ordinary(m) && 0 <= m.sourceVersion < 1000
    ensures Fits(Describe(m, hash))
  {
    LastStageIsShort(m, hash);
    CompactLength(m, hash, WireAt(m, hash, 3));
    ThreeDigits(m.sourceVersion);
  }
}
