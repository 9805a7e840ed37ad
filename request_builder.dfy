/** The raw HTTP/1.1 request builder behind `HttpSession.get_raw_request`: a
    request line, the `Host` and `Accept` fields, a `Content-Length` field when
    there is a body, the caller's extra header block, an empty line, the body. */
module RequestBuilder {
  import opened Wrappers
  import opened Text
  import opened Url
  import opened Message

  // The fields the builder always writes, in order: `Host` (section 5.4 of
  // RFC 7230), `Accept: */*`, and `Content-Length` (section 3.3.2) when the body
  // is not empty.
  function DefaultFields(host: string, body: string): seq<string> {
    [Field("Host", host), Field("Accept", "*/*")]
    + (if body == "" then [] else [Field("Content-Length", Decimal(|body|))])
  }

  /** The caller's header block as one more field, unless it is empty. */
  function ExtraFields(extra: string): seq<string> {
    if extra == "" then [] else [extra]
  }

  /** The message for a request whose URL has been split: the request line; the
      default fields; the extra block, when it is not empty, as one more field
      (so followed by CRLF); the empty line; the body. */
  function Assemble(httpMethod: string, target: string, host: string, body: string, extra: string): string {
    Serialize(HttpMessage(FormatRequestLine(httpMethod, target), DefaultFields(host, body) + ExtraFields(extra), body))
  }

  /** The outline of every request: it starts with the method and a space, and
      ends with the empty line (CRLF CRLF) followed by the body, with nothing after. */
  predicate Framed(raw: string, httpMethod: string, body: string) {
    && |raw| > |httpMethod| && raw[..|httpMethod| + 1] == httpMethod + " "
    && |raw| >= |body| + 4 && raw[|raw| - |body|..] == body
    && raw[|raw| - |body| - 4..|raw| - |body|] == "\r\n\r\n"
  }

  /** The request for `httpMethod` on `url`. An absent body or header block
      behaves like an empty one. A URL that cannot be split is reported with the
      reason, and no message is produced. */
  function BuildRawRequest(httpMethod: string, url: string, body: Option<string>, extraHeaders: Option<string>)
    : (r: Result<string, UrlError>)
    ensures r.Failure? <==> Decompose(url).Failure?
    ensures r.Failure? ==> r.error == Decompose(url).error
    ensures r.Success? ==> Framed(r.value, httpMethod, body.GetOr(""))
  {
    match Decompose(url)
    case Failure(e) => Failure(e)
    case Success(p) =>
      var target, b, extra := RequestPath(p), body.GetOr(""), extraHeaders.GetOr("");
      StartsWithMethod(httpMethod, target, p.host, b, extra);
      BodyFollowsEmptyLine(httpMethod, target, p.host, b, extra);
      Success(Assemble(httpMethod, target, p.host, b, extra))
  }

  /** The default and extra fields, as text: `Host`, `Accept`, then
      `Content-Length` when there is a body, then the extra block and its CRLF when
      there is one. */
  lemma FieldText(host: string, body: string, extra: string)
    ensures FieldBlock(DefaultFields(host, body) + ExtraFields(extra))
      == Field("Host", host) + CRLF + Field("Accept", "*/*") + CRLF
         + (if body == "" then "" else Field("Content-Length", Decimal(|body|)) + CRLF)
         + (if extra == "" then "" else extra + CRLF)
  {
    var h, a := Field("Host", host), Field("Accept", "*/*");
    var length := if body == "" then [] else [Field("Content-Length", Decimal(|body|))];
    FieldBlockAppend([h, a] + length, ExtraFields(extra));
    FieldBlockAppend([h, a], length);
    FieldBlockPair(h, a);
    if body != "" { FieldBlockSingle(length[0]); }
    if extra != "" { FieldBlockSingle(extra); }
  }

  /** Regroups the ten pieces of the wire text. It stands apart from
      `AssembledText` so that its proof does not see the builder's definitions. */
  lemma Reassociate(p0: string, p1: string, p2: string, p3: string, p4: string,
                    p5: string, p6: string, p7: string, p8: string, p9: string)
    ensures p0 + p1 + (p2 + p3 + p4 + p5 + p6 + p7) + p8 + p9 == p0 + p1 + p2 + p3 + p4 + p5 + p6 + p7 + p8 + p9
  {
  }

  /** The wire text, piece by piece: request line, the fields as `FieldText` lists
      them, the empty line, the body. */
  lemma AssembledText(httpMethod: string, target: string, host: string, body: string, extra: string)
    ensures Assemble(httpMethod, target, host, body, extra)
      == FormatRequestLine(httpMethod, target) + CRLF
         + Field("Host", host) + CRLF
         + Field("Accept", "*/*") + CRLF
         + (if body == "" then "" else Field("Content-Length", Decimal(|body|)) + CRLF)
         + (if extra == "" then "" else extra + CRLF)
         + CRLF
         + body
  {
    FieldText(host, body, extra);
    Reassociate(FormatRequestLine(httpMethod, target), CRLF, Field("Host", host), CRLF, Field("Accept", "*/*"), CRLF,
                if body == "" then "" else Field("Content-Length", Decimal(|body|)) + CRLF,
                if extra == "" then "" else extra + CRLF,
                CRLF, body);
  }

  /** The message is its lines joined by CRLF: the request line, the default fields,
      the extra lines, an empty line, and the body as the last line. */
  lemma AssembledLines(httpMethod: string, target: string, host: string, body: string, lines: seq<string>)
    requires forall i :: 0 <= i < |lines| ==> lines[i] != ""
    ensures Assemble(httpMethod, target, host, body, JoinLines(lines))
      == JoinLines([FormatRequestLine(httpMethod, target)] + DefaultFields(host, body) + lines + ["", body])
  {
    var start := FormatRequestLine(httpMethod, target);
    var defaults := DefaultFields(host, body);
    ExtraBlockAsLines(defaults, lines);
    var m := HttpMessage(start, defaults + lines, body);
    assert Assemble(httpMethod, target, host, body, JoinLines(lines)) == Serialize(m);
    SerializeAsLines(m);
    ConcatAssoc([start], defaults, lines, ["", body]);
  }

  /** Regroups four sequences, apart from `AssembledLines` for the same reason. */
  lemma ConcatAssoc<T>(a: seq<T>, b: seq<T>, c: seq<T>, d: seq<T>)
    ensures a + b + c + d == a + (b + c) + d
  {
  }

  lemma DigitsAreLine(s: string)
    requires AllDigits(s)
    ensures IsLine(s) && ' ' !in s && ':' !in s && (s == [] || !IsOws(s[0]))
  {
    assert forall i :: 0 <= i < |s| ==> s[i] != '\r' && s[i] != '\n' && s[i] != ' ' && s[i] != ':';
  }

  lemma DefaultFieldsAreLines(host: string, body: string)
    requires IsLine(host)
    ensures forall i :: 0 <= i < |DefaultFields(host, body)| ==>
      IsLine(DefaultFields(host, body)[i]) && DefaultFields(host, body)[i] != ""
  {
    DigitsAreLine(Decimal(|body|));
  }

  /** An extra block of joined lines frames the same text as those lines given as fields. */
  lemma ExtraBlockAsLines(defaults: seq<string>, lines: seq<string>)
    requires forall i :: 0 <= i < |lines| ==> lines[i] != ""
    ensures FieldBlock(defaults + ExtraFields(JoinLines(lines))) == FieldBlock(defaults + lines)
  {
    FieldBlockAppend(defaults, ExtraFields(JoinLines(lines)));
    FieldBlockAppend(defaults, lines);
    if lines == [] {
      assert ExtraFields(JoinLines(lines)) == lines;
    } else {
      assert JoinLines(lines) != "" by {
        if |lines| == 1 { assert JoinLines(lines) == lines[0]; }
      }
      FieldBlockOfJoined(lines);
    }
  }

  lemma RequestLineIsLine(httpMethod: string, target: string)
    requires IsLine(httpMethod) && IsLine(target)
    ensures IsLine(FormatRequestLine(httpMethod, target))
  {
    assert IsLine(" ") && IsLine(Version);
  }

  lemma FieldsAreLines(a: seq<string>, b: seq<string>)
    requires forall i :: 0 <= i < |a| ==> IsLine(a[i]) && a[i] != ""
    requires forall i :: 0 <= i < |b| ==> IsLine(b[i]) && b[i] != ""
    ensures forall i :: 0 <= i < |a + b| ==> IsLine((a + b)[i]) && (a + b)[i] != ""
  {
  }

  /** When the method, the target and the host hold no line break and the extra
      block is `lines` joined by CRLF, a reader of RFC 7230 messages gets back the
      request line, the default fields followed by each extra line in order, and
      exactly the body, even a body that holds empty lines. */
  lemma AssembledParses(httpMethod: string, target: string, host: string, body: string, lines: seq<string>)
    requires IsLine(httpMethod) && IsLine(target) && IsLine(host)
    requires forall i :: 0 <= i < |lines| ==> IsLine(lines[i]) && lines[i] != ""
    ensures Parse(Assemble(httpMethod, target, host, body, JoinLines(lines)))
      == Some(HttpMessage(FormatRequestLine(httpMethod, target), DefaultFields(host, body) + lines, body))
  {
    var defaults := DefaultFields(host, body);
    var start := FormatRequestLine(httpMethod, target);
    ExtraBlockAsLines(defaults, lines);
    var m := HttpMessage(start, defaults + lines, body);
    assert Serialize(m) == Assemble(httpMethod, target, host, body, JoinLines(lines));
    DefaultFieldsAreLines(host, body);
    RequestLineIsLine(httpMethod, target);
    FieldsAreLines(defaults, lines);
    ParseSerialize(m);
  }

  /** The same, for a request built from a URL: what the reader gets back names the
      URL's host and request path. */
  lemma BuiltRequestParses(httpMethod: string, url: string, body: Option<string>, extraHeaders: Option<string>,
                           lines: seq<string>)
    requires Decompose(url).Success?
    requires IsLine(httpMethod) && IsLine(url)
    requires extraHeaders.GetOr("") == JoinLines(lines)
    requires forall i :: 0 <= i < |lines| ==> IsLine(lines[i]) && lines[i] != ""
    ensures var p := Decompose(url).value;
      var b := body.GetOr("");
      BuildRawRequest(httpMethod, url, body, extraHeaders).Success?
      && Parse(BuildRawRequest(httpMethod, url, body, extraHeaders).value)
        == Some(HttpMessage(FormatRequestLine(httpMethod, RequestPath(p)), DefaultFields(p.host, b) + lines, b))
  {
    var p := Decompose(url).value;
    assert url == p.scheme + "://" + Authority(p) + p.path;
    assert IsLine(RequestPath(p)) by {
      if p.path == "" { assert RequestPath(p) == "/"; }
    }
    AssembledParses(httpMethod, RequestPath(p), p.host, body.GetOr(""), lines);
  }

  lemma HostFieldRead(host: string)
    requires host != "" && ':' !in host && !IsOws(host[0])
    ensures ParseField(Field("Host", host)) == Some(("Host", host))
  {
    assert ':' !in "Host";
    ParseFieldOf("Host", host);
  }

  lemma AcceptFieldRead()
    ensures ParseField(Field("Accept", "*/*")) == Some(("Accept", "*/*"))
  {
    assert ':' !in "Accept" && !IsOws('*');
    ParseFieldOf("Accept", "*/*");
  }

  lemma LengthFieldRead(n: nat)
    ensures ParseField(Field("Content-Length", Decimal(n))) == Some(("Content-Length", Decimal(n)))
    ensures DecimalValue(Decimal(n)) == n
  {
    assert ':' !in "Content-Length";
    DigitsAreLine(Decimal(n));
    ParseFieldOf("Content-Length", Decimal(n));
    DecimalRoundTrip(n);
  }

  /** Each default field reads back as its name and value; `Content-Length`,
      present exactly when the body is not empty, is the numeral of the body's
      length. */
  lemma DefaultFieldsRead(host: string, body: string)
    requires host != "" && ':' !in host && !IsOws(host[0])
    ensures var f := DefaultFields(host, body);
      && |f| == (if body == "" then 2 else 3)
      && ParseField(f[0]) == Some(("Host", host))
      && ParseField(f[1]) == Some(("Accept", "*/*"))
      && (body != "" ==>
            && ParseField(f[2]) == Some(("Content-Length", Decimal(|body|)))
            && DecimalValue(Decimal(|body|)) == |body|)
  {
    HostFieldRead(host);
    AcceptFieldRead();
    if body != "" {
      LengthFieldRead(|body|);
    }
  }

  /** The message starts with the method and the space after it. */
  lemma StartsWithMethod(httpMethod: string, target: string, host: string, body: string, extra: string)
    ensures var raw := Assemble(httpMethod, target, host, body, extra);
      |raw| > |httpMethod| && raw[..|httpMethod| + 1] == httpMethod + " "
  {
    var fields := DefaultFields(host, body) + ExtraFields(extra);
    var rest := target + " " + Version + CRLF + FieldBlock(fields) + CRLF + body;
    assert Assemble(httpMethod, target, host, body, extra) == (httpMethod + " ") + rest;
  }

  /** The message ends with the empty line and then the body itself, with nothing
      added after it. */
  lemma BodyFollowsEmptyLine(httpMethod: string, target: string, host: string, body: string, extra: string)
    ensures var raw := Assemble(httpMethod, target, host, body, extra);
      && |raw| >= |body| + 4
      && raw[|raw| - |body|..] == body
      && raw[|raw| - |body| - 4..|raw| - |body|] == "\r\n\r\n"
  {
    var fields := DefaultFields(host, body) + ExtraFields(extra);
    var n := |fields| - 1;
    assert fields == fields[..n] + [fields[n]];
    FieldBlockAppend(fields[..n], [fields[n]]);
    var head := FormatRequestLine(httpMethod, target) + CRLF + FieldBlock(fields[..n]) + fields[n];
    assert FieldBlock([fields[n]]) == fields[n] + CRLF;
    var raw := Assemble(httpMethod, target, host, body, extra);
    assert raw == head + CRLF + CRLF + body;
    assert raw == (head + "\r\n\r\n") + body;
  }

  // With no body and no extra headers the request is exactly the request line,
  // `Host`, `Accept: */*` and one empty line.
  lemma PlainRequest(httpMethod: string, target: string, host: string)
    ensures Assemble(httpMethod, target, host, "", "")
      == httpMethod + " " + target + " HTTP/1.1\r\nHost: " + host + "\r\nAccept: */*\r\n\r\n"
  {
    var fields := DefaultFields(host, "") + ExtraFields("");
    assert fields == [Field("Host", host), Field("Accept", "*/*")];
    assert FieldBlock(fields[1..]) == Field("Accept", "*/*") + CRLF;
    assert FieldBlock(fields) == "Host: " + host + "\r\nAccept: */*\r\n";
  }

  /** A URL given by well-formed parts is requested with their host and path. */
  lemma BuiltFromParts(httpMethod: string, p: UrlParts, url: string, body: Option<string>, extraHeaders: Option<string>,
                       raw: string)
    requires Url.WellFormed(p) && url == Compose(p)
    requires raw == Assemble(httpMethod, RequestPath(p), p.host, body.GetOr(""), extraHeaders.GetOr(""))
    ensures BuildRawRequest(httpMethod, url, body, extraHeaders) == Success(raw)
  {
    DecomposeCompose(p);
  }

  /** An absent path is requested as "/", the host is the URL's host, and a body or
      header block that is absent or empty adds nothing. */
  lemma BuiltPlainRequest(httpMethod: string, url: string, body: Option<string>, extraHeaders: Option<string>)
    requires Decompose(url).Success?
    requires body.GetOr("") == "" && extraHeaders.GetOr("") == ""
    ensures var p := Decompose(url).value;
      BuildRawRequest(httpMethod, url, body, extraHeaders)
        == Success(httpMethod + " " + (if p.path == "" then "/" else p.path)
                   + " HTTP/1.1\r\nHost: " + p.host + "\r\nAccept: */*\r\n\r\n")
  {
    var p := Decompose(url).value;
    assert BuildRawRequest(httpMethod, url, body, extraHeaders) == Success(Assemble(httpMethod, RequestPath(p), p.host, "", ""));
    PlainRequest(httpMethod, RequestPath(p), p.host);
  }

  /** The URL matters only through its host and request path: scheme and port
      leave the request unchanged. */
  lemma OnlyHostAndPathMatter(httpMethod: string, u1: string, u2: string, body: Option<string>,
                              extraHeaders: Option<string>)
    requires Decompose(u1).Success? && Decompose(u2).Success?
    requires Decompose(u1).value.host == Decompose(u2).value.host
    requires RequestPath(Decompose(u1).value) == RequestPath(Decompose(u2).value)
    ensures BuildRawRequest(httpMethod, u1, body, extraHeaders) == BuildRawRequest(httpMethod, u2, body, extraHeaders)
  {
  }
}
