/** Escaping, splitting and unescaping of variable descriptions
    (internal/providers/gitlab/project_variables.go). Strings are sequences of Unicode
    scalar values; Utf8Length is what Go's len counts. */
module GitlabEscaping {
  import opened Naming

  // --------------------------------------------------------------------- bytes

  function Utf8Size(c: char): nat {
    if c as int < 0x80 then 1 else if c as int < 0x800 then 2 else if c as int < 0x10000 then 3 else 4
  }

  function Utf8Length(s: string): nat { if s == "" then 0 else Utf8Size(s[0]) + Utf8Length(s[1..]) }

  lemma {:induction false} Utf8OfConcat(a: string, b: string)
    ensures Utf8Length(a + b) == Utf8Length(a) + Utf8Length(b)
  {
    if a == "" {
      assert a + b == b;
    } else {
      assert (a + b)[1..] == a[1..] + b;
      Utf8OfConcat(a[1..], b);
    }
  }

  predicate Ascii(s: string) { forall i :: 0 <= i < |s| ==> s[i] as int < 0x80 }

  lemma {:induction false} AsciiLength(s: string)
    requires Ascii(s)
    ensures Utf8Length(s) == |s|
  {
    if s != "" {
      AsciiLength(s[1..]);
    }
  }

  // ------------------------------------------------------------------ escaping

  /** `summary` also escapes spaces, which separate the parts of the summary. */
  function EscapeChar(c: char, summary: bool): string {
    match c
    case '\\' => "\\\\"
    case ';' => "\\;"
    case ' ' => if summary then "\\s" else " "
    case '\n' => "\\n"
    case '\r' => "\\r"
    case _ => [c]
  }

  function Escape(value: string, summary: bool): string {
    if value == "" then "" else EscapeChar(value[0], summary) + Escape(value[1..], summary)
  }

  method EscapeValue(value: string, summary: bool) returns (escaped: string)
    ensures escaped == Escape(value, summary)
  {
    escaped := "";
    for i := 0 to |value|
      invariant escaped + Escape(value[i..], summary) == Escape(value, summary)
    {
      assert value[i..][0] == value[i] && value[i..][1..] == value[i + 1..];
      assert escaped + Escape(value[i..], summary) == escaped + EscapeChar(value[i], summary) + Escape(value[i + 1..], summary);
      escaped := escaped + EscapeChar(value[i], summary);
    }
    assert value[|value|..] == "";
    assert escaped + "" == escaped;
  }

  predicate Escapable(c: char) { c in {'\\', ';', ' ', '\n', '\r'} }

  lemma {:induction false} PlainIsUnchanged(value: string, summary: bool)
    requires forall i :: 0 <= i < |value| ==> !Escapable(value[i])
    ensures Escape(value, summary) == value
  {
    if value != "" {
      PlainIsUnchanged(value[1..], summary);
      assert value == [value[0]] + value[1..];
    }
  }

  // ----------------------------------------------------------------- splitting

  /** The state of the split loops. */
  datatype Scan = Scan(fields: seq<string>, current: string, escaped: bool)

  function ScanChar(scan: Scan, c: char, separator: char): Scan {
    if scan.escaped then scan.(current := scan.current + ['\\', c], escaped := false)
    else if c == '\\' then scan.(escaped := true)
    else if c == separator then Scan(scan.fields + [scan.current], "", false)
    else scan.(current := scan.current + [c])
  }

  function ScanText(scan: Scan, text: string, separator: char): Scan
    decreases |text|
  {
    if text == "" then scan else ScanText(ScanChar(scan, text[0], separator), text[1..], separator)
  }

  function Fields(scan: Scan): seq<string> {
    scan.fields + [scan.current + if scan.escaped then "\\" else ""]
  }

  /** splitEscapedSummaryFields at ' ' and splitEscapedDescriptionFields at ';'. */
  function Split(text: string, separator: char): seq<string> { Fields(ScanText(Scan([], "", false), text, separator)) }

  method SplitEscaped(text: string, separator: char) returns (fields: seq<string>)
    ensures fields == Split(text, separator)
  {
    fields := [];
    var current, escaped := "", false;
    for i := 0 to |text|
      invariant ScanText(Scan(fields, current, escaped), text[i..], separator) == ScanText(Scan([], "", false), text, separator)
    {
      assert text[i..][0] == text[i] && text[i..][1..] == text[i + 1..];
      if escaped {
        current, escaped := current + ['\\', text[i]], false;
      } else if text[i] == '\\' {
        escaped := true;
      } else if text[i] == separator {
        fields, current := fields + [current], "";
      } else {
        current := current + [text[i]];
      }
    }
    assert text[|text|..] == "";
    if escaped {
      current := current + "\\";
    } else {
      assert current + "" == current;
    }
    fields := fields + [current];
  }

  type CutText = Result<(string, string)>

  /** A cut of some text, seen from a text with `prefix` before it. */
  function Behind(prefix: string, cut: CutText): CutText {
    match cut
    case Ok((before, after)) => Ok((prefix + before, after))
    case Err(message) => Err(message)
  }

  lemma BehindBoth(a: string, b: string, cut: CutText)
    ensures Behind(a, Behind(b, cut)) == Behind(a + b, cut)
    ensures Behind("", cut) == cut
  {
    if cut.Ok? {
      assert a + (b + cut.value.0) == a + b + cut.value.0;
      assert "" + cut.value.0 == cut.value.0;
    }
  }

  /** cutEscapedDescriptionSummary: the text before and after the first bare ';'. */
  function Cut(text: string, escaped: bool): CutText {
    if text == "" then Err("no summary")
    else if !escaped && text[0] == ';' then Ok(("", text[1..]))
    else Behind([text[0]], Cut(text[1..], !escaped && text[0] == '\\'))
  }

  method CutSummary(text: string) returns (cut: CutText)
    ensures cut == Cut(text, false)
  {
    var escaped := false;
    BehindBoth("", "", Cut(text, false));
    assert text[0..] == text;
    for i := 0 to |text|
      invariant Cut(text, false) == Behind(text[..i], Cut(text[i..], escaped))
    {
      assert text[i..][0] == text[i] && text[i..][1..] == text[i + 1..];
      assert text[..i + 1] == text[..i] + [text[i]];
      if !escaped && text[i] == ';' {
        assert text[..i] + "" == text[..i];
        return Ok((text[..i], text[i + 1..]));
      }
      escaped := !escaped && text[i] == '\\';
      BehindBoth(text[..i], [text[i]], Cut(text[i + 1..], escaped));
    }
    assert text[|text|..] == "";
    cut := Err("no summary");
  }

  // ---------------------------------------------------------------- unescaping

  function UnescapeChar(c: char): Result<char> {
    match c
    case '\\' => Ok('\\')
    case ';' => Ok(';')
    case 's' => Ok(' ')
    case 'n' => Ok('\n')
    case 'r' => Ok('\r')
    case _ => Err("invalid escape sequence")
  }

  function Unescape(value: string): Result<string> {
    if value == "" then Ok("")
    else if value[0] != '\\' then
      match Unescape(value[1..])
      case Ok(rest) => Ok([value[0]] + rest)
      case Err(message) => Err(message)
    else if |value| == 1 then Err("trailing escape character")
    else
      match (UnescapeChar(value[1]), Unescape(value[2..]))
      case (Ok(c), Ok(rest)) => Ok([c] + rest)
      case (Err(message), _) => Err(message)
      case (Ok(_), Err(message)) => Err(message)
  }

  /** What is left to do, given what the loop has written. */
  function Prepended(written: string, rest: Result<string>): Result<string> {
    match rest
    case Ok(text) => Ok(written + text)
    case Err(message) => Err(message)
  }

  method UnescapeValue(value: string) returns (decoded: Result<string>)
    ensures decoded.Ok? == Unescape(value).Ok? && (decoded.Ok? ==> decoded == Unescape(value))
  {
    var written, escaped := "", false;
    assert value[0..] == value && forall text: string :: "" + text == text;
    for i := 0 to |value|
      invariant escaped ==> i > 0 && value[i - 1] == '\\'
      invariant Unescape(value) == Prepended(written, Unescape(value[if escaped then i - 1 else i..]))
    {
      assert value[i..][0] == value[i] && value[i..][1..] == value[i + 1..];
      assert forall c: char, rest: string :: written + ([c] + rest) == (written + [c]) + rest;
      if escaped {
        assert value[i - 1..][1] == value[i] && value[i - 1..][2..] == value[i + 1..];
        match UnescapeChar(value[i]) {
          case Ok(c) => written := written + [c];
          case Err(message) => return Err(message);
        }
        escaped := false;
      } else if value[i] == '\\' {
        escaped := true;
      } else {
        written := written + [value[i]];
      }
    }
    if escaped {
      assert |value[|value| - 1..]| == 1;
      return Err("trailing escape character");
    }
    assert value[|value|..] == "" && written + "" == written;
    decoded := Ok(written);
  }

  // --------------------------------------------------------------- round trips

  /** Unescaping an escaped value gives the value back, whatever it contains. */
  lemma {:induction false} UnescapeOfEscape(value: string, summary: bool)
    ensures Unescape(Escape(value, summary)) == Ok(value)
  {
    if value != "" {
      UnescapeOfEscape(value[1..], summary);
      UnescapeOfHead(value[0], summary, Escape(value[1..], summary));
      assert value == [value[0]] + value[1..];
    }
  }

  lemma UnescapeOfHead(c: char, summary: bool, rest: string)
    ensures Unescape(EscapeChar(c, summary) + rest) == Prepended([c], Unescape(rest))
  {
    var head := EscapeChar(c, summary);
    if |head| == 2 {
      assert (head + rest)[1] == head[1] && (head + rest)[2..] == rest;
    } else {
      assert (head + rest)[1..] == rest;
    }
  }

  lemma {:induction false} ScanOfConcat(scan: Scan, a: string, b: string, separator: char)
    ensures ScanText(scan, a + b, separator) == ScanText(ScanText(scan, a, separator), b, separator)
    decreases |a|
  {
    if a == "" {
      assert a + b == b;
    } else {
      assert (a + b)[0] == a[0] && (a + b)[1..] == a[1..] + b;
      ScanOfConcat(ScanChar(scan, a[0], separator), a[1..], b, separator);
    }
  }

  /** Characters an escaping in this mode never leaves bare. */
  predicate Guarded(separator: char, summary: bool) { separator == ';' || (separator == ' ' && summary) }

  /** An escaped value is never split. */
  lemma {:induction false} ScanOfEscape(scan: Scan, value: string, summary: bool, separator: char)
    requires !scan.escaped && Guarded(separator, summary)
    ensures ScanText(scan, Escape(value, summary), separator) == scan.(current := scan.current + Escape(value, summary))
    decreases |value|
  {
    if value == "" {
      assert scan.current + "" == scan.current;
    } else {
      var head, tail := EscapeChar(value[0], summary), Escape(value[1..], summary);
      ScanOfHead(scan, value[0], summary, separator);
      ScanOfEscape(scan.(current := scan.current + head), value[1..], summary, separator);
      ScanOfBoth(scan, head, tail, separator);
    }
  }

  /** Two pieces that are not split apart from each other are not split together. */
  lemma ScanOfBoth(scan: Scan, head: string, tail: string, separator: char)
    requires var after := scan.(current := scan.current + head);
      ScanText(scan, head, separator) == after &&
      ScanText(after, tail, separator) == after.(current := after.current + tail)
    ensures ScanText(scan, head + tail, separator) == scan.(current := scan.current + (head + tail))
  {
    ScanOfConcat(scan, head, tail, separator);
    assert scan.current + head + tail == scan.current + (head + tail);
  }

  lemma ScanOfHead(scan: Scan, c: char, summary: bool, separator: char)
    requires !scan.escaped && Guarded(separator, summary)
    ensures ScanText(scan, EscapeChar(c, summary), separator) == scan.(current := scan.current + EscapeChar(c, summary))
  {
    var head := EscapeChar(c, summary);
    if |head| == 2 {
      assert head[1..] == [head[1]] && [head[1]][1..] == "";
      assert head == ['\\', head[1]];
      assert ScanText(scan.(escaped := true), [head[1]], separator) ==
        ScanText(scan.(current := scan.current + head), "", separator);
    } else {
      assert head == [c] && head[1..] == "";
    }
  }

  /** Plain text without the separator is never split either. */
  lemma {:induction false} ScanOfPlain(scan: Scan, text: string, separator: char)
    requires !scan.escaped && forall i :: 0 <= i < |text| ==> text[i] != '\\' && text[i] != separator
    ensures ScanText(scan, text, separator) == scan.(current := scan.current + text)
    decreases |text|
  {
    if text == "" {
      assert scan.current + "" == scan.current;
    } else {
      ScanOfPlain(scan.(current := scan.current + [text[0]]), text[1..], separator);
      assert text == [text[0]] + text[1..];
      assert scan.current + [text[0]] + text[1..] == scan.current + text;
    }
  }

  /** The summary is cut where it ends: escaped text holds no bare ';'. */
  lemma {:induction false} CutOfEscape(value: string, summary: bool, rest: string)
    ensures Cut(Escape(value, summary) + rest, false) == Behind(Escape(value, summary), Cut(rest, false))
  {
    if value == "" {
      assert "" + rest == rest;
      BehindBoth("", "", Cut(rest, false));
    } else {
      var head, tail := EscapeChar(value[0], summary), Escape(value[1..], summary);
      CutOfEscape(value[1..], summary, rest);
      CutOfHead(value[0], summary, tail + rest);
      BehindBoth(head, tail, Cut(rest, false));
      assert Escape(value, summary) + rest == head + (tail + rest);
    }
  }

  lemma CutOfHead(c: char, summary: bool, rest: string)
    ensures Cut(EscapeChar(c, summary) + rest, false) == Behind(EscapeChar(c, summary), Cut(rest, false))
  {
    var head := EscapeChar(c, summary);
    if |head| == 2 {
      var text := [head[1]] + rest;
      assert head + rest == ['\\'] + text && (head + rest)[1..] == text && text[1..] == rest;
      BehindBoth(['\\'], [head[1]], Cut(rest, false));
      assert head == ['\\'] + [head[1]];
    } else {
      assert (head + rest)[1..] == rest;
    }
  }

  lemma {:induction false} CutOfPlain(text: string, rest: string)
    requires forall i :: 0 <= i < |text| ==> text[i] != '\\' && text[i] != ';'
    ensures Cut(text + rest, false) == Behind(text, Cut(rest, false))
  {
    if text == "" {
      assert text + rest == rest;
      BehindBoth("", "", Cut(rest, false));
    } else {
      CutOfPlain(text[1..], rest);
      assert (text + rest)[0] == text[0] && (text + rest)[1..] == text[1..] + rest;
      BehindBoth([text[0]], text[1..], Cut(rest, false));
      assert [text[0]] + text[1..] == text;
    }
  }
}
