/** Object-name and data-key rendering (internal/backend/granularity.go) and the
    data-map payload built from it (internal/backend/dispatcher.go). */
module Naming {
  import opened Text

  datatype Result<+T> = Ok(value: T) | Err(message: string)

  datatype Granularity = SecretPath | SecretKey

  const PATH_TOKEN := "{{ path }}"
  const KEY_TOKEN := "{{ key }}"
  const TYPE_TOKEN := "{{ destination.type }}"
  const NAME_TOKEN := "{{ destination.name }}"
  const RESERVATION_KEY := "${key}"

  /** A template after everything but the source key has been substituted. */
  datatype Piece = Lit(text: string) | Hole

  datatype Target = Target(path: string, destinationType: string, destinationName: string)

  /** One left-to-right scan of strings.NewReplacer: a token is replaced where it
      starts, and replaced text is not scanned again. */
  function NamePieces(template: string, target: Target): seq<Piece> {
    if template == "" then []
    else if PATH_TOKEN <= template then [Lit(target.path)] + NamePieces(template[|PATH_TOKEN|..], target)
    else if KEY_TOKEN <= template then [Hole] + NamePieces(template[|KEY_TOKEN|..], target)
    else if TYPE_TOKEN <= template then [Lit(target.destinationType)] + NamePieces(template[|TYPE_TOKEN|..], target)
    else if NAME_TOKEN <= template then [Lit(target.destinationName)] + NamePieces(template[|NAME_TOKEN|..], target)
    else [Lit([template[0]])] + NamePieces(template[1..], target)
  }

  /** strings.ReplaceAll(template, "{{ key }}", ...). */
  function DataKeyPieces(template: string): seq<Piece> {
    if template == "" then []
    else if KEY_TOKEN <= template then [Hole] + DataKeyPieces(template[|KEY_TOKEN|..])
    else [Lit([template[0]])] + DataKeyPieces(template[1..])
  }

  function Fill(pieces: seq<Piece>, key: string): string {
    if pieces == [] then ""
    else (if pieces[0].Hole? then key else pieces[0].text) + Fill(pieces[1..], key)
  }

  predicate HasBraces(s: string) {
    Contains(s, "{{") || Contains(s, "}}")
  }

  function RenderObjectName(template: string, target: Target, key: string): Result<string> {
    var rendered := Fill(NamePieces(template, target), key);
    if HasBraces(rendered) then Err("unsupported name_template")
    else
      var trimmed := Trim(rendered, '/');
      if trimmed == "" then Err("resolved_name must not be empty") else Ok(trimmed)
  }

  function RenderDataKey(template: string, key: string): Result<string> {
    var rendered := Fill(DataKeyPieces(template), key);
    if HasBraces(rendered) then Err("unsupported data_key_template")
    else if rendered == "" then Err("data key must not be empty")
    else Ok(rendered)
  }

  predicate ValidObjectKey(key: string) {
    IsTrimmedAndNonEmpty(key) && '/' !in key && key != "." && key != ".."
  }

  function ResolvedNameForObject(
    granularity: Granularity, resolvedName: string, template: string, target: Target, objectId: string
  ): Result<string> {
    match granularity
    case SecretPath => Ok(resolvedName)
    case SecretKey =>
      if !ValidObjectKey(objectId) then Err("secret-key object key is not supported")
      else RenderObjectName(template, target, objectId)
  }

  // -------------------------------------------------- a token in the template

  lemma TokensDoNotOverlap(t: string, token: string, i: int)
    requires token in {PATH_TOKEN, TYPE_TOKEN, NAME_TOKEN} && token <= t
    requires 0 <= i <= |t| - |KEY_TOKEN| && t[i..][..|KEY_TOKEN|] == KEY_TOKEN
    ensures |token| <= i
  {
    assert t[i..][0] == t[i] == '{' && t[i..][1] == t[i + 1] == '{' && t[i..][3] == t[i + 3] == 'k';
  }

  lemma ContainsInRest(t: string, n: nat, i: int)
    requires n <= i <= |t| - |KEY_TOKEN| && t[i..][..|KEY_TOKEN|] == KEY_TOKEN
    ensures Contains(t[n..], KEY_TOKEN)
  {
    assert t[n..][i - n..] == t[i..];
  }

  lemma {:induction false} NameTemplateHasHole(t: string, target: Target)
    requires Contains(t, KEY_TOKEN)
    ensures Hole in NamePieces(t, target)
    decreases |t|
  {
    var i :| 0 <= i <= |t| - |KEY_TOKEN| && t[i..][..|KEY_TOKEN|] == KEY_TOKEN;
    if PATH_TOKEN <= t {
      TokensDoNotOverlap(t, PATH_TOKEN, i);
      ContainsInRest(t, |PATH_TOKEN|, i);
      NameTemplateHasHole(t[|PATH_TOKEN|..], target);
    } else if KEY_TOKEN <= t {
    } else if TYPE_TOKEN <= t {
      TokensDoNotOverlap(t, TYPE_TOKEN, i);
      ContainsInRest(t, |TYPE_TOKEN|, i);
      NameTemplateHasHole(t[|TYPE_TOKEN|..], target);
    } else if NAME_TOKEN <= t {
      TokensDoNotOverlap(t, NAME_TOKEN, i);
      ContainsInRest(t, |NAME_TOKEN|, i);
      NameTemplateHasHole(t[|NAME_TOKEN|..], target);
    } else {
      assert i != 0 by { assert t[0..] == t; }
      ContainsInRest(t, 1, i);
      NameTemplateHasHole(t[1..], target);
    }
  }

  lemma {:induction false} DataKeyTemplateHasHole(t: string)
    requires Contains(t, KEY_TOKEN)
    ensures Hole in DataKeyPieces(t)
    decreases |t|
  {
    var i :| 0 <= i <= |t| - |KEY_TOKEN| && t[i..][..|KEY_TOKEN|] == KEY_TOKEN;
    if !(KEY_TOKEN <= t) {
      assert i != 0 by { assert t[0..] == t; }
      ContainsInRest(t, 1, i);
      DataKeyTemplateHasHole(t[1..]);
    }
  }

  // ------------------------------------------------------------- injectivity

  lemma {:induction false} LongerKeyFillsLonger(pieces: seq<Piece>, k1: string, k2: string)
    requires |k1| < |k2|
    ensures |Fill(pieces, k1)| <= |Fill(pieces, k2)|
    ensures Hole in pieces ==> |Fill(pieces, k1)| < |Fill(pieces, k2)|
  {
    if pieces != [] {
      LongerKeyFillsLonger(pieces[1..], k1, k2);
      assert Hole in pieces ==> pieces[0].Hole? || Hole in pieces[1..];
    }
  }

  lemma {:induction false} FillInjective(pieces: seq<Piece>, k1: string, k2: string)
    requires Hole in pieces && Fill(pieces, k1) == Fill(pieces, k2)
    ensures k1 == k2
  {
    if |k1| < |k2| {
      LongerKeyFillsLonger(pieces, k1, k2);
    } else if |k2| < |k1| {
      LongerKeyFillsLonger(pieces, k2, k1);
    } else {
      SameLengthFill(pieces, k1, k2);
    }
  }

  lemma {:induction false} SameLengthFill(pieces: seq<Piece>, k1: string, k2: string)
    requires |k1| == |k2| && Hole in pieces && Fill(pieces, k1) == Fill(pieces, k2)
    ensures k1 == k2
  {
    var head1 := if pieces[0].Hole? then k1 else pieces[0].text;
    var head2 := if pieces[0].Hole? then k2 else pieces[0].text;
    assert Fill(pieces, k1)[..|head1|] == head1 && Fill(pieces, k1)[|head1|..] == Fill(pieces[1..], k1);
    assert Fill(pieces, k2)[..|head2|] == head2 && Fill(pieces, k2)[|head2|..] == Fill(pieces[1..], k2);
    if !pieces[0].Hole? {
      SameLengthFill(pieces[1..], k1, k2);
    }
  }

  /** Trimming a filled template trims only literal text: a key holds no slash. */
  function TrimLeftPieces(pieces: seq<Piece>): seq<Piece> {
    if pieces == [] || pieces[0].Hole? then pieces
    else
      var text := TrimLeft(pieces[0].text, '/');
      if text == "" then TrimLeftPieces(pieces[1..]) else [Lit(text)] + pieces[1..]
  }

  function TrimRightPieces(pieces: seq<Piece>): seq<Piece> {
    if pieces == [] || pieces[|pieces| - 1].Hole? then pieces
    else
      var text := TrimRight(pieces[|pieces| - 1].text, '/');
      var front := pieces[..|pieces| - 1];
      if text == "" then TrimRightPieces(front) else front + [Lit(text)]
  }

  lemma {:induction false} TrimLeftOfConcat(a: string, b: string)
    ensures TrimLeft(a + b, '/') == (if TrimLeft(a, '/') == "" then TrimLeft(b, '/') else TrimLeft(a, '/') + b)
  {
    if a == "" {
      assert a + b == b;
    } else if a[0] == '/' {
      TrimLeftOfConcat(a[1..], b);
      assert (a + b)[1..] == a[1..] + b;
    }
  }

  lemma {:induction false} TrimRightOfConcat(a: string, b: string)
    ensures TrimRight(a + b, '/') == (if TrimRight(b, '/') == "" then TrimRight(a, '/') else a + TrimRight(b, '/'))
  {
    if b == "" {
      assert a + b == a;
    } else if b[|b| - 1] == '/' {
      TrimRightOfConcat(a, b[..|b| - 1]);
      assert (a + b)[..|a + b| - 1] == a + b[..|b| - 1];
    }
  }

  lemma {:induction false} TrimLeftFill(pieces: seq<Piece>, key: string)
    requires key != "" && '/' !in key
    ensures TrimLeft(Fill(pieces, key), '/') == Fill(TrimLeftPieces(pieces), key)
    ensures Hole in TrimLeftPieces(pieces) <==> Hole in pieces
  {
    if pieces != [] {
      var rest := Fill(pieces[1..], key);
      if pieces[0].Hole? {
        assert key[0] in key;
        TrimLeftOfConcat(key, rest);
      } else {
        TrimLeftOfConcat(pieces[0].text, rest);
        TrimLeftFill(pieces[1..], key);
        var text := TrimLeft(pieces[0].text, '/');
        assert Hole in pieces <==> Hole in pieces[1..] by {
          assert pieces == [pieces[0]] + pieces[1..];
        }
        if text != "" {
          assert ([Lit(text)] + pieces[1..])[1..] == pieces[1..];
        }
      }
    }
  }

  lemma {:induction false} FillOfConcat(a: seq<Piece>, b: seq<Piece>, key: string)
    ensures Fill(a + b, key) == Fill(a, key) + Fill(b, key)
  {
    if a == [] {
      assert a + b == b;
    } else {
      FillOfConcat(a[1..], b, key);
      assert (a + b)[0] == a[0] && (a + b)[1..] == a[1..] + b;
      var head := if a[0].Hole? then key else a[0].text;
      assert Fill(a + b, key) == head + Fill(a[1..] + b, key);
      assert head + (Fill(a[1..], key) + Fill(b, key)) == (head + Fill(a[1..], key)) + Fill(b, key);
    }
  }

  lemma FillOfOne(piece: Piece, key: string)
    ensures Fill([piece], key) == (if piece.Hole? then key else piece.text)
  {
    assert Fill([piece][1..], key) == "";
  }

  lemma {:induction false} TrimRightFill(pieces: seq<Piece>, key: string)
    requires key != "" && '/' !in key
    ensures TrimRight(Fill(pieces, key), '/') == Fill(TrimRightPieces(pieces), key)
    ensures Hole in TrimRightPieces(pieces) <==> Hole in pieces
  {
    if pieces != [] {
      var front, last := pieces[..|pieces| - 1], pieces[|pieces| - 1];
      assert pieces == front + [last];
      FillOfConcat(front, [last], key);
      FillOfOne(last, key);
      if last.Hole? {
        assert key[|key| - 1] in key;
        TrimRightOfConcat(Fill(front, key), key);
      } else {
        TrimRightOfConcat(Fill(front, key), last.text);
        TrimRightFill(front, key);
        var text := TrimRight(last.text, '/');
        FillOfConcat(front, [Lit(text)], key);
        FillOfOne(Lit(text), key);
      }
    }
  }

  /** The name rendered for one object of a secret-key association determines the
      object, whatever else the template holds and after slash trimming. */
  lemma ObjectNamesAreInjective(template: string, target: Target, k1: string, k2: string)
    requires Contains(template, KEY_TOKEN) && ValidObjectKey(k1) && ValidObjectKey(k2)
    requires RenderObjectName(template, target, k1).Ok?
    requires RenderObjectName(template, target, k1) == RenderObjectName(template, target, k2)
    ensures k1 == k2
  {
    var pieces := NamePieces(template, target);
    NameTemplateHasHole(template, target);
    TrimLeftFill(pieces, k1);
    TrimLeftFill(pieces, k2);
    var left := TrimLeftPieces(pieces);
    TrimRightFill(left, k1);
    TrimRightFill(left, k2);
    FillInjective(TrimRightPieces(left), k1, k2);
  }

  /** One association never sends two of its objects to one remote name. */
  lemma DistinctObjectsHaveDistinctNames(resolvedName: string, template: string, target: Target, k1: string, k2: string)
    requires Contains(template, KEY_TOKEN) && k1 != k2
    requires ResolvedNameForObject(SecretKey, resolvedName, template, target, k1).Ok?
    requires ResolvedNameForObject(SecretKey, resolvedName, template, target, k2).Ok?
    ensures ResolvedNameForObject(SecretKey, resolvedName, template, target, k1) !=
            ResolvedNameForObject(SecretKey, resolvedName, template, target, k2)
  {
    if RenderObjectName(template, target, k1) == RenderObjectName(template, target, k2) {
      ObjectNamesAreInjective(template, target, k1, k2);
    }
  }

  lemma DataKeysAreInjective(template: string, k1: string, k2: string)
    requires Contains(template, KEY_TOKEN)
    requires RenderDataKey(template, k1).Ok? && RenderDataKey(template, k1) == RenderDataKey(template, k2)
    ensures k1 == k2
  {
    DataKeyTemplateHasHole(template);
    FillInjective(DataKeyPieces(template), k1, k2);
  }

  // --------------------------------------------------------------- data maps

  /** A source value: raw and data-map payloads accept only strings and bytes. */
  datatype SourceValue = Bytes(raw: string) | Structured

  predicate DataMapCharacter(c: char) {
    'a' <= c <= 'z' || 'A' <= c <= 'Z' || '0' <= c <= '9' || c == '-' || c == '_' || c == '.'
  }

  predicate ValidDataMapKey(key: string) {
    IsTrimmedAndNonEmpty(key) && |key| <= 253 && key != "." && !(".." <= key) &&
    forall c | c in key :: DataMapCharacter(c)
  }

  predicate DataMapAccepts(template: string, sourceKey: string, value: SourceValue) {
    IsTrimmedAndNonEmpty(sourceKey) && value.Bytes? &&
    RenderDataKey(template, sourceKey).Ok? && ValidDataMapKey(RenderDataKey(template, sourceKey).value)
  }

  /** The loop of buildDataMapPayloadForAssociation. Its duplicate test is kept; the
      contract says it never fires: the map is built exactly when every source key is
      acceptable, and then it holds one entry per source key. */
  method BuildDataMap(template: string, data: map<string, SourceValue>) returns (r: Result<map<string, string>>)
    requires Contains(template, KEY_TOKEN)
    ensures r.Ok? <==> forall k | k in data :: DataMapAccepts(template, k, data[k])
    ensures r.Ok? ==> |r.value| == |data|
    ensures r.Ok? ==> forall k | k in data ::
      RenderDataKey(template, k).value in r.value && r.value[RenderDataKey(template, k).value] == data[k].raw
    ensures r.Ok? ==> forall d | d in r.value :: exists k :: k in data && RenderDataKey(template, k) == Ok(d)
  {
    var dataMap: map<string, string> := map[];
    var pending := data.Keys;
    while pending != {}
      invariant pending <= data.Keys
      invariant |dataMap| + |pending| == |data.Keys|
      invariant forall k | k in data && k !in pending :: DataMapAccepts(template, k, data[k])
      invariant forall k | k in data && k !in pending ::
        RenderDataKey(template, k).value in dataMap && dataMap[RenderDataKey(template, k).value] == data[k].raw
      invariant forall d | d in dataMap :: exists k :: k in data && k !in pending && RenderDataKey(template, k) == Ok(d)
      decreases pending
    {
      var sourceKey :| sourceKey in pending;
      if !IsTrimmedAndNonEmpty(sourceKey) {
        return Err("source key must not be empty or have surrounding whitespace");
      }
      var dataKey := RenderDataKey(template, sourceKey);
      if dataKey.Err? {
        return Err(dataKey.message);
      }
      if !ValidDataMapKey(dataKey.value) {
        return Err("data key is not supported");
      }
      if dataKey.value in dataMap {
        var other :| other in data && other !in pending && RenderDataKey(template, other) == Ok(dataKey.value);
        DataKeysAreInjective(template, sourceKey, other);
        assert false;
        return Err("data_key_template maps multiple source keys to one data key");
      }
      if data[sourceKey].Structured? {
        return Err("source key is not string or bytes");
      }
      dataMap := dataMap[dataKey.value := data[sourceKey].raw];
      pending := pending - {sourceKey};
    }
    assert |data.Keys| == |data|;
    r := Ok(dataMap);
  }
}
