# Spyglass raw request builder, in Dafny

Spyglass records an intended HTTP request as an `HttpSession` (method, URL,
optional body, optional block of extra header lines, completion time), builds
the exact HTTP/1.1 wire text of that request, sends it and records when it was
sent. This project models the part with logic in it: the raw request builder
behind `HttpSession.get_raw_request(url=None)`, together with the session's
display string, its reference path and the `needs_to_send_request` predicate.

The implementation module `spyglass/models.py` is not part of this model. The
behaviour is modelled from the assertions of `spyglass/tests/httpsession.py`,
each of which is proved as a lemma about the model, and generalised into
properties over all inputs.

Modules (one file each):

- `Wrappers` (`wrappers.dfy`): `Option` and `Result`.
- `Text` (`text.dfy`): finding and splitting at a character; decimal numerals
  (`%d` of the `Content-Length` value) and their reading back.
- `Url` (`url.dfy`): splitting `scheme "://" host [":" port] path` into parts.
  The host stops at the first `:` of the authority, so the port is dropped
  from `Host`; the path is everything after the authority, query string
  included. `Decompose` and `Compose` are proved inverse on well-formed parts.
- `Message` (`message.dfy`): the message framing of RFC 7230 section 3
  (start line, header fields each ended by CRLF, an empty line, the body), the
  request line of section 3.1.1 and the field syntax of section 3.2, each with
  a reader that is proved to invert the writer.
- `RequestBuilder` (`request_builder.dfy`): the builder. Request line
  `METHOD SP path SP HTTP/1.1`, then `Host` (section 5.4 of RFC 7230),
  `Accept: */*`, `Content-Length` (section 3.3.2) when there is a body, the
  caller's header block verbatim followed by CRLF, the empty line, and the body
  with nothing after it.
- `HttpSession` (`http_session.dfy`): the session record as a datatype; the
  assignment of `time_completed` is the datatype update `MarkCompleted`.
- `HttpSessionTests` (`http_session_tests.dfy`): every case of the test
  module, proved from the general lemmas.

Choices the model makes, grounded in the tests:

- The tests expect `Host: localhost` for `http://localhost:9000/endpoint`, so
  the host stops before the port.
- The tests say nothing about a URL that cannot be split. The model reports it
  as a `UrlError` (`MissingScheme`, `MissingAuthority`, `EmptyHost`) and
  produces no message, rather than a partly built request.
- An absent body or header block behaves like an empty one: no
  `Content-Length` for an empty body, nothing added for an empty block.

The builder is a function, so building twice from the same inputs gives the
same text, and an override URL cannot change the stored session: it is a
parameter of `RawRequest`, which returns text, not a session.

## Model

| member | source | states |
|---|---|---|
| `Url.Decompose` | spyglass/tests/httpsession.py:22-33 | a URL that splits yields well-formed parts (non-empty scheme, host without `:` or `/`, path empty or starting with `/`) that compose back to exactly that URL |
| `Url.DecomposeCompose` | spyglass/tests/httpsession.py:22-33 | every well-formed set of parts is exactly what the splitter finds in the URL they compose |
| `Url.MalformedHasNoParts` | spyglass/tests/httpsession.py:22-33 | a URL the splitter rejects is not the composition of any well-formed parts, so errors are reported only for URLs with no host and path |
| `Url.RequestPath` | spyglass/tests/httpsession.py:29-33 | the request target always starts with `/`; an absent path becomes `/`, a present one is kept |
| `Url.RequestPathIsUrlSuffix` | spyglass/tests/httpsession.py:46-51 | the URL is exactly scheme, `://`, authority and then the request target, so the target is the whole tail after the authority, query string included, unchanged; only a URL ending at its authority gets `/`; the authority holds no `/`, so the target starts at the first `/` after `://` |
| `Url.HostDropsPort` | spyglass/tests/httpsession.py:72-74 | for `scheme://host:port/path` the host is `host`, without the port |
| `Text.DecimalRoundTrip` | spyglass/tests/httpsession.py:70-75 | the `Content-Length` numeral reads back as the number written |
| `Text.DecimalInjective` | spyglass/tests/httpsession.py:70-75 | different body lengths give different `Content-Length` numerals |
| `Message.SerializeAsLines` | spyglass/tests/httpsession.py:86-94 | the message text is the CRLF-join of the start line, the fields, an empty line and the body |
| `Message.Parse` | spyglass/tests/httpsession.py:86-94 | whatever the reader returns serializes back to exactly the text read |
| `Message.ParseSerialize` | spyglass/tests/httpsession.py:86-94 | a message whose start line and fields are lines reads back as itself, whatever its body holds |
| `Message.ParseFormatRequestLine` | spyglass/tests/httpsession.py:25 | a request line `METHOD SP target SP HTTP/1.1` reads back as its method, target and version |
| `Message.ParseFieldOf` | spyglass/tests/httpsession.py:25 | a field `Name: value` reads back as its name and value |
| `RequestBuilder.BuildRawRequest` | spyglass/tests/httpsession.py:22-33 | the builder fails exactly when the URL cannot be split, and then with the splitter's reason; a built request starts with the method and a space and ends with CRLF CRLF and the body (or nothing when absent) |
| `RequestBuilder.AssembledText` | spyglass/tests/httpsession.py:74-75 | the text is request line, `Host`, `Accept: */*`, `Content-Length` only for a non-empty body, the extra block and CRLF only when present, an empty line and the body, in that order |
| `RequestBuilder.PlainRequest` | spyglass/tests/httpsession.py:22-26 | with no body and no extra block the text is exactly `METHOD target HTTP/1.1`, `Host`, `Accept: */*` and one empty line |
| `RequestBuilder.BuiltPlainRequest` | spyglass/tests/httpsession.py:29-33 | for any URL that splits, with no body and no extra block, the request line carries the URL's path or `/` and `Host` its host |
| `RequestBuilder.AssembledLines` | spyglass/tests/httpsession.py:79-96 | with the extra block given as CRLF-joined lines, the text is the CRLF-join of request line, default fields, those lines, an empty line and the body |
| `RequestBuilder.AssembledParses` | spyglass/tests/httpsession.py:79-96 | a reader of RFC 7230 messages gets back the request line, the default fields then each extra line in order, and exactly the body |
| `RequestBuilder.BuiltRequestParses` | spyglass/tests/httpsession.py:79-96 | the same for a request built from a URL, naming the URL's host and request path |
| `RequestBuilder.DefaultFieldsRead` | spyglass/tests/httpsession.py:62-77 | `Host` carries the host, `Accept` carries `*/*`, and `Content-Length` is present exactly for a non-empty body and reads back as the body's length |
| `RequestBuilder.BodyFollowsEmptyLine` | spyglass/tests/httpsession.py:74-75 | the message ends with CRLF CRLF followed by the body verbatim, with nothing after the body |
| `RequestBuilder.BuiltFromParts` | spyglass/tests/httpsession.py:22-26 | a URL composed of well-formed parts is requested with exactly those parts' host and path |
| `RequestBuilder.OnlyHostAndPathMatter` | spyglass/tests/httpsession.py:53-60 | two URLs with the same host and request path give the same request, whatever their scheme or port |
| `HttpSession.RawRequest` | spyglass/tests/httpsession.py:22-60 | `get_raw_request(url=None)`: the override URL when one is given, and the stored URL otherwise, is the one split; the request fails exactly when that URL cannot be split, with the splitter's reason, and a built request starts with the stored method and a space and ends with CRLF CRLF and the stored body |
| `HttpSession.Display` | spyglass/tests/httpsession.py:10-13 | the display string is the method, one space, then the URL, each unchanged, and nothing else |
| `HttpSession.AbsoluteUrl` | spyglass/tests/httpsession.py:16-19 | the reference path is `/sessions/` followed by a non-empty run of decimal digits |
| `HttpSession.NeedsToSendRequest` | spyglass/tests/httpsession.py:36-44 | true exactly when no completion time is recorded, which is its definition; `NewSession` and `MarkCompleted` prove that it holds for a new session and fails once a time is set |
| `HttpSession.NewSession` | spyglass/tests/httpsession.py:12 | a newly created session still needs to send its request and keeps the method and URL it was given |
| `HttpSession.MarkCompleted` | spyglass/tests/httpsession.py:42 | once a completion time is recorded the session no longer needs to send its request |
| `HttpSession.CompletionKeepsRequest` | spyglass/tests/httpsession.py:42-44 | recording completion changes neither the raw request, nor the display string, nor the reference path |
| `HttpSession.DisplayReadsBack` | spyglass/tests/httpsession.py:10-13 | the display string splits at its first space into the method and the URL |
| `HttpSession.AbsoluteUrlReadsBack` | spyglass/tests/httpsession.py:16-19 | the reference path is `/sessions/` followed by digits that read back as the session's id |
| `HttpSession.AbsoluteUrlInjective` | spyglass/tests/httpsession.py:16-19 | sessions with different ids have different reference paths |
| `HttpSession.OverrideReplacesStoredUrl` | spyglass/tests/httpsession.py:53-60 | with an override URL the request is that of the session with the override stored, and the stored URL plays no part |
| `HttpSessionTests.SimpleDisplay` | spyglass/tests/httpsession.py:10-13 | `GET http://api.gowalla.com/` is the display string of that session |
| `HttpSessionTests.AbsoluteUrlOfSession543` | spyglass/tests/httpsession.py:16-19 | session 543 has reference path `/sessions/543` |
| `HttpSessionTests.NeedsToSendRequestUntilSent` | spyglass/tests/httpsession.py:36-44 | the new session needs sending, and not after its completion time is set |
| `HttpSessionTests.RawRequestWithPath` | spyglass/tests/httpsession.py:22-26 | `http://api.gowalla.com/spots` gives `GET /spots HTTP/1.1`, `Host: api.gowalla.com`, `Accept: */*` and an empty line |
| `HttpSessionTests.RawRequestForIndex` | spyglass/tests/httpsession.py:29-33 | `http://www.carfax.com` gives `GET / HTTP/1.1` and `Host: www.carfax.com` |
| `HttpSessionTests.RawRequestWithQueryString` | spyglass/tests/httpsession.py:46-51 | `http://api.flickr.com` followed by the path `/services/rest/?method=flickr.photos.getExif` gives the request line `GET`, that path with its query string unchanged, `HTTP/1.1`, then `Host: api.flickr.com` |
| `HttpSessionTests.RawRequestWithAlternateUrl` | spyglass/tests/httpsession.py:53-60 | stored `http://google.com/` with override `http://www.google.com/` gives `Host: www.google.com` |
| `HttpSessionTests.RawRequestWithBody` | spyglass/tests/httpsession.py:62-77 | the POST of the 160-character XML body gives `Host: localhost`, `Content-Length: 160`, the empty line and the body verbatim |
| `HttpSessionTests.RawRequestWithExtraHeaders` | spyglass/tests/httpsession.py:79-96 | the `User-Agent` and `Referer` lines follow `Accept: */*` in order, then CRLF and the empty line |

## Left out

- Sending the request, the views that do it, resending, and persistence of
  sessions: input/output and framework code outside the builder.
- The clock: `datetime.datetime.now()` becomes an abstract `Timestamp`
  argument of `MarkCompleted`; only whether a time is recorded matters.
- A session that was never saved has no id; the model gives every session a
  natural-number id.
- The URL routing table of the demo site (`spyglass_demo/spyglass/urls.py`);
  its session route `sessions/(\d+)` has the shape of `AbsoluteUrl`, which is
  only noted in a comment.
- Byte length versus character length of a non-ASCII body: the body is a
  sequence of characters and `Content-Length` is its length, as for the ASCII
  body the tests use.
- URL validation and normalisation beyond the scheme, authority, port and path
  split: no case folding, no percent-decoding, and `?` or `#` do not end the
  authority.
- A fragment is not removed from the request target: `http://h/p#f` is
  requested as `GET /p#f HTTP/1.1`; the path is the whole tail after the
  authority.
- Userinfo (`user:password@`) and bracketed IPv6 hosts are not separated from
  the host: the host is cut at the authority's first `:`, so `http://u:p@h/`
  gives host `u` and `http://[::1]:8080/` gives host `[`.
