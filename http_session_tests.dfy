/** The recorded cases of the session's behaviour, each proved from the general
    lemmas. Every URL is first shown to be the composition of its parts, which
    settles how it splits; each expected request is written as the CRLF-join of
    its lines, the request line and fields first, then the empty line and the
    body. */
module HttpSessionTests {
  import opened Wrappers
  import opened Text
  import opened Url
  import opened Message
  import opened RequestBuilder
  import opened HttpSession

  lemma SimpleDisplay()
    ensures Display(NewSession(0, "GET", "http://api.gowalla.com/", None, None)) == "GET http://api.gowalla.com/"
  {
    var s := NewSession(0, "GET", "http://api.gowalla.com/", None, None);
    assert s.httpMethod + " " + s.httpUrl == "GET http://api.gowalla.com/";
  }

  lemma AbsoluteUrlOfSession543()
    ensures AbsoluteUrl(NewSession(543, "", "", None, None)) == "/sessions/543"
  {
    assert Decimal(543) == Decimal(54) + ['3'];
    assert Decimal(54) == Decimal(5) + ['4'];
  }

  lemma NeedsToSendRequestUntilSent(t: Timestamp)
    ensures NeedsToSendRequest(NewSession(0, "GET", "http://api.gowalla.com/", None, None))
    ensures !NeedsToSendRequest(MarkCompleted(NewSession(0, "GET", "http://api.gowalla.com/", None, None), t))
  {
  }

  // The URLs of the cases, as parts, and how each URL splits.

  const Spots := UrlParts("http", "api.gowalla.com", None, "/spots")
  const Carfax := UrlParts("http", "www.carfax.com", None, "")
  // The Flickr URL, written as its site followed by its path and query string.
  const FlickrPath := "/services/rest/?method=flickr.photos.getExif"
  const FlickrUrl := "http://api.flickr.com" + FlickrPath
  const Flickr := UrlParts("http", "api.flickr.com", None, FlickrPath)
  const Google := UrlParts("http", "www.google.com", None, "/")
  const Endpoint := UrlParts("http", "localhost", Some("9000"), "/endpoint")

  lemma SpotsIsWellFormed() ensures Url.WellFormed(Spots) { }
  lemma SpotsText() ensures Compose(Spots) == "http://api.gowalla.com/spots" { }

  lemma SpotsSplits()
    ensures Decompose("http://api.gowalla.com/spots") == Success(Spots)
  {
    SpotsIsWellFormed();
    SpotsText();
    DecomposeCompose(Spots);
  }

  lemma CarfaxIsWellFormed() ensures Url.WellFormed(Carfax) { }
  lemma CarfaxText() ensures Compose(Carfax) == "http://www.carfax.com" { }

  lemma CarfaxSplits()
    ensures Decompose("http://www.carfax.com") == Success(Carfax)
  {
    CarfaxIsWellFormed();
    CarfaxText();
    DecomposeCompose(Carfax);
  }

  lemma FlickrIsWellFormed() ensures Url.WellFormed(Flickr) { }
  lemma FlickrText() ensures Compose(Flickr) == FlickrUrl {
    var site := Flickr.scheme + "://" + Authority(Flickr);
    assert site == "http://api.flickr.com" by {
      assert Authority(Flickr) == "api.flickr.com";
    }
    assert Compose(Flickr) == site + FlickrPath;
  }

  lemma FlickrSplits()
    ensures Decompose(FlickrUrl) == Success(Flickr)
  {
    FlickrIsWellFormed();
    FlickrText();
    DecomposeCompose(Flickr);
  }

  lemma GoogleIsWellFormed() ensures Url.WellFormed(Google) { }
  lemma GoogleText() ensures Compose(Google) == "http://www.google.com/" { }

  lemma GoogleSplits()
    ensures Decompose("http://www.google.com/") == Success(Google)
  {
    GoogleIsWellFormed();
    GoogleText();
    DecomposeCompose(Google);
  }

  lemma EndpointIsWellFormed() ensures Url.WellFormed(Endpoint) { }
  lemma EndpointText() ensures Compose(Endpoint) == "http://localhost:9000/endpoint" { }

  lemma EndpointSplits()
    ensures Decompose("http://localhost:9000/endpoint") == Success(Endpoint)
  {
    EndpointIsWellFormed();
    EndpointText();
    DecomposeCompose(Endpoint);
  }

  // The expected text of each case.

  /** The request line and default fields of a request without a body, as the
      lines of text a case writes out. */
  lemma RequestHead(httpMethod: string, target: string, host: string)
    ensures [FormatRequestLine(httpMethod, target)] + DefaultFields(host, "")
      == [httpMethod + " " + target + " HTTP/1.1", "Host: " + host, "Accept: */*"]
  {
    assert FormatRequestLine(httpMethod, target) == httpMethod + " " + target + " HTTP/1.1";
    assert Field("Host", host) == "Host: " + host;
    assert Field("Accept", "*/*") == "Accept: */*";
  }

  /** A case's expected text, from the head lines it writes for the request line
      and the default fields. */
  lemma CaseText(httpMethod: string, target: string, host: string, body: string, lines: seq<string>,
                 head: seq<string>)
    requires forall i :: 0 <= i < |lines| ==> lines[i] != ""
    requires [FormatRequestLine(httpMethod, target)] + DefaultFields(host, body) == head
    ensures Assemble(httpMethod, target, host, body, JoinLines(lines)) == JoinLines(head + lines + ["", body])
  {
    AssembledLines(httpMethod, target, host, body, lines);
  }

  const FakeXmlBody: string :=
    "\n            <fake-xml>\n                <key>com.bleedingwolf.PrincipalClass</key>\n"
    + "                <value>SomeClassName</value>\n            </fake-xml>\n        "

  const ExtraHeaderLines := ["User-Agent: Spyglass/0.1", "Referer: http://localhost:9000/login.jsp"]

  lemma FakeXmlLength()
    ensures |FakeXmlBody| == 160 && Decimal(|FakeXmlBody|) == "160"
  {
    assert Decimal(160) == Decimal(16) + ['0'];
    assert Decimal(16) == Decimal(1) + ['6'];
  }

  lemma PostHead()
    ensures [FormatRequestLine("POST", "/endpoint")] + DefaultFields("localhost", FakeXmlBody)
      == ["POST /endpoint HTTP/1.1", "Host: localhost", "Accept: */*", "Content-Length: 160"]
  {
    FakeXmlLength();
    assert FormatRequestLine("POST", "/endpoint") == "POST /endpoint HTTP/1.1";
    assert Field("Host", "localhost") == "Host: localhost";
    assert Field("Accept", "*/*") == "Accept: */*";
    assert Field("Content-Length", "160") == "Content-Length: 160";
    assert FakeXmlBody != "";
  }

  /** The expected text of a case without a body or extra headers, from the
      request line and the `Host` line as the case writes them. */
  lemma PlainRequestText(httpMethod: string, target: string, host: string, requestLine: string, hostLine: string)
    requires httpMethod + " " + target + " HTTP/1.1" == requestLine
    requires "Host: " + host == hostLine
    ensures Assemble(httpMethod, target, host, "", "") == JoinLines([requestLine, hostLine, "Accept: */*", "", ""])
  {
    var head := [requestLine, hostLine, "Accept: */*"];
    RequestHead(httpMethod, target, host);
    CaseText(httpMethod, target, host, "", [], head);
    assert JoinLines([]) == "";
    assert head + [] + ["", ""] == [requestLine, hostLine, "Accept: */*", "", ""];
  }

  /** The expected text of a case without a body whose header block is `lines`
      joined by CRLF. */
  lemma RequestTextWithLines(httpMethod: string, target: string, host: string, requestLine: string,
                             hostLine: string, lines: seq<string>)
    requires httpMethod + " " + target + " HTTP/1.1" == requestLine
    requires "Host: " + host == hostLine
    requires forall i :: 0 <= i < |lines| ==> lines[i] != ""
    ensures Assemble(httpMethod, target, host, "", JoinLines(lines))
      == JoinLines([requestLine, hostLine, "Accept: */*"] + lines + ["", ""])
  {
    RequestHead(httpMethod, target, host);
    CaseText(httpMethod, target, host, "", lines, [requestLine, hostLine, "Accept: */*"]);
  }

  lemma PostRequestText()
    ensures Assemble("POST", "/endpoint", "localhost", FakeXmlBody, "")
      == JoinLines(["POST /endpoint HTTP/1.1", "Host: localhost", "Accept: */*", "Content-Length: 160",
                    "", FakeXmlBody])
  {
    var head := ["POST /endpoint HTTP/1.1", "Host: localhost", "Accept: */*", "Content-Length: 160"];
    PostHead();
    CaseText("POST", "/endpoint", "localhost", FakeXmlBody, [], head);
    assert JoinLines([]) == "";
    assert head + [] + ["", FakeXmlBody]
      == ["POST /endpoint HTTP/1.1", "Host: localhost", "Accept: */*", "Content-Length: 160", "", FakeXmlBody];
  }

  lemma ExtraHeadersRequestText()
    ensures Assemble("GET", "/endpoint", "localhost", "", JoinLines(ExtraHeaderLines))
      == JoinLines(["GET /endpoint HTTP/1.1", "Host: localhost", "Accept: */*", "User-Agent: Spyglass/0.1",
                    "Referer: http://localhost:9000/login.jsp", "", ""])
  {
    RequestTextWithLines("GET", "/endpoint", "localhost", "GET /endpoint HTTP/1.1", "Host: localhost",
                         ExtraHeaderLines);
    assert ["GET /endpoint HTTP/1.1", "Host: localhost", "Accept: */*"] + ExtraHeaderLines + ["", ""]
      == ["GET /endpoint HTTP/1.1", "Host: localhost", "Accept: */*", "User-Agent: Spyglass/0.1",
          "Referer: http://localhost:9000/login.jsp", "", ""];
  }

  // The cases.

  lemma RawRequestWithPath()
    ensures RawRequest(NewSession(0, "GET", "http://api.gowalla.com/spots", None, None), None)
      == Success(JoinLines(["GET /spots HTTP/1.1", "Host: api.gowalla.com", "Accept: */*", "", ""]))
  {
    PlainRequestText("GET", "/spots", "api.gowalla.com", "GET /spots HTTP/1.1", "Host: api.gowalla.com");
    SpotsSplits();
  }

  lemma RawRequestForIndex()
    ensures RawRequest(NewSession(0, "GET", "http://www.carfax.com", None, None), None)
      == Success(JoinLines(["GET / HTTP/1.1", "Host: www.carfax.com", "Accept: */*", "", ""]))
  {
    PlainRequestText("GET", "/", "www.carfax.com", "GET / HTTP/1.1", "Host: www.carfax.com");
    CarfaxSplits();
  }

  lemma RawRequestWithQueryString()
    ensures RawRequest(NewSession(0, "GET", FlickrUrl, None, None), None)
      == Success(JoinLines(["GET " + FlickrPath + " HTTP/1.1", "Host: api.flickr.com", "Accept: */*", "", ""]))
  {
    assert "GET" + " " == "GET ";
    PlainRequestText("GET", FlickrPath, "api.flickr.com", "GET " + FlickrPath + " HTTP/1.1", "Host: api.flickr.com");
    FlickrSplits();
  }

  lemma RawRequestWithAlternateUrl()
    ensures RawRequest(NewSession(0, "GET", "http://google.com/", None, None), Some("http://www.google.com/"))
      == Success(JoinLines(["GET / HTTP/1.1", "Host: www.google.com", "Accept: */*", "", ""]))
  {
    PlainRequestText("GET", "/", "www.google.com", "GET / HTTP/1.1", "Host: www.google.com");
    GoogleSplits();
  }

  lemma RawRequestWithBody()
    ensures RawRequest(NewSession(0, "POST", "http://localhost:9000/endpoint", Some(FakeXmlBody), None), None)
      == Success(JoinLines(["POST /endpoint HTTP/1.1", "Host: localhost", "Accept: */*", "Content-Length: 160",
          "", FakeXmlBody]))
  {
    EndpointSplits();
    PostRequestText();
  }

  lemma RawRequestWithExtraHeaders()
    ensures RawRequest(NewSession(0, "GET", "http://localhost:9000/endpoint", None,
      Some(JoinLines(ExtraHeaderLines))), None)
      == Success(JoinLines(["GET /endpoint HTTP/1.1", "Host: localhost", "Accept: */*", "User-Agent: Spyglass/0.1",
          "Referer: http://localhost:9000/login.jsp", "", ""]))
  {
    EndpointSplits();
    ExtraHeadersRequestText();
  }
}
