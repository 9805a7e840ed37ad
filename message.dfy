/** The HTTP/1.1 message framing of RFC 7230 section 3: a start line, header
    fields each ended by CRLF, an empty line, then the message body. Beside the
    serializer sits a reader, so that the builder's output can be shown to frame
    exactly what was put into it. */
module Message {
  import opened Wrappers
  import opened Text

  const CRLF: string := "\r\n"

  /** A line holds neither CR nor LF. */
  predicate IsLine(s: string) {
    '\r' !in s && '\n' !in s
  }

  datatype HttpMessage = HttpMessage(startLine: string, fields: seq<string>, body: string)

  /** Each field line followed by CRLF. */
  function FieldBlock(fields: seq<string>): string {
    if fields == [] then "" else fields[0] + CRLF + FieldBlock(fields[1..])
  }

  /** The wire form: start-line CRLF *( header-field CRLF ) CRLF message-body. */
  function Serialize(m: HttpMessage): string {
    m.startLine + CRLF + FieldBlock(m.fields) + CRLF + m.body
  }

  /** The messages `Parse` reads back: the start line and every field are lines,
      and no field is empty (an empty line ends the header section). */
  predicate WellFormed(m: HttpMessage) {
    && IsLine(m.startLine)
    && forall i :: 0 <= i < |m.fields| ==> IsLine(m.fields[i]) && m.fields[i] != ""
  }

  /** The caller-supplied header block: lines joined by CRLF, with no CRLF after the last. */
  function JoinLines(lines: seq<string>): string {
    if |lines| == 0 then ""
    else if |lines| == 1 then lines[0]
    else lines[0] + CRLF + JoinLines(lines[1..])
  }

  lemma {:induction false} FieldBlockAppend(a: seq<string>, b: seq<string>)
    ensures FieldBlock(a + b) == FieldBlock(a) + FieldBlock(b)
  {
    if a == [] {
      assert a + b == b;
    } else {
      assert (a + b)[1..] == a[1..] + b;
      FieldBlockAppend(a[1..], b);
    }
  }

  lemma FieldBlockSingle(f: string)
    ensures FieldBlock([f]) == f + CRLF
  {
    assert FieldBlock([f]) == f + CRLF + "";
  }

  lemma FieldBlockPair(f: string, g: string)
    ensures FieldBlock([f, g]) == f + CRLF + g + CRLF
  {
    assert [f, g][1..] == [g];
    FieldBlockSingle(g);
  }

  /** A joined block, emitted as one field, frames the same text as its lines would one by one. */
  lemma {:induction false} FieldBlockOfJoined(lines: seq<string>)
    requires lines != []
    ensures FieldBlock([JoinLines(lines)]) == FieldBlock(lines)
  {
    if |lines| > 1 {
      FieldBlockOfJoined(lines[1..]);
      assert lines == [lines[0]] + lines[1..];
      FieldBlockAppend([lines[0]], lines[1..]);
    }
  }

  lemma FieldBlockCons(line: string, fields: seq<string>, body: string)
    ensures FieldBlock([line] + fields) + CRLF + body == line + CRLF + (FieldBlock(fields) + CRLF + body)
  {
    assert ([line] + fields)[1..] == fields;
  }

  /** Joining lines with CRLF gives each line but the last followed by CRLF, then the last. */
  lemma {:induction false} JoinLinesAsFieldBlock(lines: seq<string>, last: string)
    ensures JoinLines(lines + [last]) == FieldBlock(lines) + last
  {
    if lines != [] {
      assert (lines + [last])[1..] == lines[1..] + [last];
      JoinLinesAsFieldBlock(lines[1..], last);
      if lines[1..] == [] {
        assert JoinLines(lines[1..] + [last]) == last;
      }
    } else {
      assert lines + [last] == [last];
    }
  }

  /** The message text is its start line, its fields, an empty line and its body,
      joined by CRLF. */
  lemma SerializeAsLines(m: HttpMessage)
    ensures Serialize(m) == JoinLines([m.startLine] + m.fields + ["", m.body])
  {
    var lines := [m.startLine] + m.fields + [""];
    assert [m.startLine] + m.fields + ["", m.body] == lines + [m.body];
    JoinLinesAsFieldBlock(lines, m.body);
    FieldBlockAppend([m.startLine] + m.fields, [""]);
    FieldBlockAppend([m.startLine], m.fields);
    FieldBlockSingle(m.startLine);
    FieldBlockSingle("");
    assert FieldBlock(lines) == m.startLine + CRLF + FieldBlock(m.fields) + CRLF;
  }

  /** Cuts `s` at its first CR, which must be followed by LF. */
  function SplitLine(s: string): (r: Option<(string, string)>)
    ensures r.Some? ==> '\r' !in r.value.0 && s == r.value.0 + CRLF + r.value.1
  {
    match SplitAt(s, '\r')
    case None => None
    case Some((line, rest)) =>
      if rest != [] && rest[0] == '\n' then
        assert rest == "\n" + rest[1..];
        Some((line, rest[1..]))
      else None
  }

  lemma SplitLineJoined(line: string, rest: string)
    requires '\r' !in line
    ensures SplitLine(line + CRLF + rest) == Some((line, rest))
  {
    assert line + CRLF + rest == line + ['\r'] + ("\n" + rest);
    SplitAtJoined(line, '\r', "\n" + rest);
    assert ("\n" + rest)[1..] == rest;
  }

  /** Reads field lines up to the empty line; what follows it is returned as is. */
  function ParseFields(s: string): (r: Option<(seq<string>, string)>)
    ensures r.Some? ==> s == FieldBlock(r.value.0) + CRLF + r.value.1
    decreases |s|
  {
    match SplitLine(s)
    case None => None
    case Some((line, rest)) =>
      if line == "" then Some(([], rest))
      else
        match ParseFields(rest)
        case None => None
        case Some((fields, body)) =>
          FieldBlockCons(line, fields, body);
          Some(([line] + fields, body))
  }

  /** Reads a message: the start line, the header fields, and everything after the
      empty line as the body. */
  function Parse(s: string): (r: Option<HttpMessage>)
    ensures r.Some? ==> Serialize(r.value) == s
  {
    match SplitLine(s)
    case None => None
    case Some((start, rest)) =>
      match ParseFields(rest)
      case None => None
      case Some((fields, body)) =>
        SerializeAfterStart(start, fields, body);
        Some(HttpMessage(start, fields, body))
  }

  lemma SerializeAfterStart(start: string, fields: seq<string>, body: string)
    ensures Serialize(HttpMessage(start, fields, body)) == start + CRLF + (FieldBlock(fields) + CRLF + body)
  {
  }

  lemma {:induction false} ParseFieldsOf(fields: seq<string>, body: string)
    requires forall i :: 0 <= i < |fields| ==> IsLine(fields[i]) && fields[i] != ""
    ensures ParseFields(FieldBlock(fields) + CRLF + body) == Some((fields, body))
  {
    if fields == [] {
      assert FieldBlock(fields) + CRLF + body == "" + CRLF + body;
      SplitLineJoined("", body);
    } else {
      var rest := FieldBlock(fields[1..]) + CRLF + body;
      assert fields == [fields[0]] + fields[1..];
      FieldBlockCons(fields[0], fields[1..], body);
      SplitLineJoined(fields[0], rest);
      ParseFieldsOf(fields[1..], body);
    }
  }

  /** A well-formed message reads back as itself, whatever its body holds. */
  lemma ParseSerialize(m: HttpMessage)
    requires WellFormed(m)
    ensures Parse(Serialize(m)) == Some(m)
  {
    var rest := FieldBlock(m.fields) + CRLF + m.body;
    assert Serialize(m) == m.startLine + CRLF + rest;
    SplitLineJoined(m.startLine, rest);
    ParseFieldsOf(m.fields, m.body);
  }

  // Request line, section 3.1.1 of RFC 7230: method SP request-target SP HTTP-version.

  const Version: string := "HTTP/1.1"

  datatype RequestLine = RequestLine(httpMethod: string, target: string, version: string)

  function FormatRequestLine(httpMethod: string, target: string): string {
    httpMethod + " " + target + " " + Version
  }

  /** Splits a request line at its first two spaces. */
  function ParseRequestLine(line: string): (r: Option<RequestLine>)
    ensures r.Some? ==> line == r.value.httpMethod + " " + r.value.target + " " + r.value.version
  {
    match SplitAt(line, ' ')
    case None => None
    case Some((httpMethod, rest)) =>
      match SplitAt(rest, ' ')
      case None => None
      case Some((target, version)) => Some(RequestLine(httpMethod, target, version))
  }

  /** A httpMethod and a target without spaces read back from the request line. */
  lemma ParseFormatRequestLine(httpMethod: string, target: string)
    requires ' ' !in httpMethod && ' ' !in target
    ensures ParseRequestLine(FormatRequestLine(httpMethod, target)) == Some(RequestLine(httpMethod, target, Version))
  {
    var rest := target + " " + Version;
    assert FormatRequestLine(httpMethod, target) == httpMethod + [' '] + rest;
    SplitAtJoined(httpMethod, ' ', rest);
    assert rest == target + [' '] + Version;
    SplitAtJoined(target, ' ', Version);
  }

  // Header fields, section 3.2 of RFC 7230: field-name ":" OWS field-value OWS.
  // The reader removes the leading OWS only; trailing spaces and tabs stay part
  // of the value.

  predicate IsOws(ch: char) {
    ch == ' ' || ch == '\t'
  }

  function Field(name: string, value: string): string {
    name + ": " + value
  }

  /** `s` with its leading spaces and tabs removed. */
  function TrimLeadingOws(s: string): (r: string)
    ensures |r| <= |s| && r == s[|s| - |r|..]
    ensures r == [] || !IsOws(r[0])
    ensures forall i :: 0 <= i < |s| - |r| ==> IsOws(s[i])
  {
    if s != [] && IsOws(s[0]) then
      var r := TrimLeadingOws(s[1..]);
      assert s[1..][|s[1..]| - |r|..] == s[|s| - |r|..];
      r
    else s
  }

  /** Splits a field line into its name and its value: the name runs to the first
      ':' and must not be empty; the value is the rest without leading whitespace. */
  function ParseField(line: string): (r: Option<(string, string)>)
    ensures r.Some? ==> r.value.0 != "" && ':' !in r.value.0
  {
    match SplitAt(line, ':')
    case None => None
    case Some((name, rest)) =>
      if name == "" then None else Some((name, TrimLeadingOws(rest)))
  }

  /** A field written by `Field` reads back with its name and value. */
  lemma ParseFieldOf(name: string, value: string)
    requires name != "" && ':' !in name
    requires value == [] || !IsOws(value[0])
    ensures ParseField(Field(name, value)) == Some((name, value))
  {
    assert Field(name, value) == name + [':'] + (" " + value);
    SplitAtJoined(name, ':', " " + value);
    assert (" " + value)[1..] == value;
  }
}
