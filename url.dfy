/** Splitting an absolute URL `scheme "://" host [":" port] path` into the
    pieces the request builder needs: the host for the `Host` field and the
    path (query string included) for the request line. */
module Url {
  import opened Wrappers
  import opened Text

  /** Why a URL could not be split. */
  datatype UrlError =
    | MissingScheme     // no ':' at all, or nothing before the first ':'
    | MissingAuthority  // the first ':' is not followed by "//"
    | EmptyHost         // nothing between "//" and the next ':' or '/'

  /** The pieces of an absolute URL. `path` is everything after the authority,
      query string and fragment included, and may be empty. */
  datatype UrlParts = UrlParts(scheme: string, host: string, port: Option<string>, path: string)

  /** The parts that `Compose` joins into a URL which `Decompose` splits the same way. */
  predicate WellFormed(p: UrlParts) {
    && p.scheme != "" && ':' !in p.scheme
    && p.host != "" && ':' !in p.host && '/' !in p.host
    && (p.port.Some? ==> '/' !in p.port.value)
    && (p.path == "" || p.path[0] == '/')
  }

  function JoinAuthority(host: string, port: Option<string>): string {
    host + (if port.Some? then ":" + port.value else "")
  }

  function Authority(p: UrlParts): string {
    JoinAuthority(p.host, p.port)
  }

  /** The URL text with the given parts. */
  function Compose(p: UrlParts): string {
    p.scheme + "://" + Authority(p) + p.path
  }

  /** Cuts what follows "//" at its first '/': the authority before, the path from there on. */
  function SplitPath(tail: string): (r: (string, string))
    ensures r.0 + r.1 == tail
    ensures '/' !in r.0 && (r.1 == "" || r.1[0] == '/')
  {
    var a := IndexOf(tail, '/');
    assert tail == tail[..a] + tail[a..];
    (tail[..a], tail[a..])
  }

  /** Cuts an authority at its first ':': the host before, the port after (if any). */
  function SplitHostPort(authority: string): (r: (string, Option<string>))
    ensures JoinAuthority(r.0, r.1) == authority && ':' !in r.0
    ensures '/' !in authority ==> '/' !in r.0 && (r.1.Some? ==> '/' !in r.1.value)
  {
    match SplitAt(authority, ':')
    case None => (authority, None)
    case Some((host, port)) => (host, Some(port))
  }

  /** Splits a URL: the scheme runs to the first ':', which must be followed by
      "//"; the authority runs from there to the first '/' (or the end); the host
      is the authority up to its first ':', and what follows that ':' is the port. */
  function Decompose(u: string): (r: Result<UrlParts, UrlError>)
    ensures r.Success? ==> WellFormed(r.value) && Compose(r.value) == u
  {
    match SplitAt(u, ':')
    case None => Failure(MissingScheme)
    case Some((scheme, rest)) =>
      if scheme == "" then Failure(MissingScheme)
      else if |rest| < 2 || rest[..2] != "//" then Failure(MissingAuthority)
      else
        var (authority, path) := SplitPath(rest[2..]);
        var (host, port) := SplitHostPort(authority);
        if host == "" then Failure(EmptyHost)
        else
          ComposeOfSplit(u, scheme, rest, authority, host, port, path);
          Success(UrlParts(scheme, host, port, path))
  }

  lemma ComposeOfSplit(u: string, scheme: string, rest: string, authority: string,
                       host: string, port: Option<string>, path: string)
    requires u == scheme + [':'] + rest && |rest| >= 2 && rest[..2] == "//"
    requires authority + path == rest[2..] && JoinAuthority(host, port) == authority
    ensures Compose(UrlParts(scheme, host, port, path)) == u
  {
    assert rest == "//" + rest[2..];
    assert "://" == [':'] + "//";
  }

  lemma SplitPathOf(authority: string, path: string)
    requires '/' !in authority && (path == "" || path[0] == '/')
    ensures SplitPath(authority + path) == (authority, path)
  {
    var tail := authority + path;
    if path == "" {
      assert tail == authority + [];
      IndexOfAfter(authority, [], '/');
    } else {
      IndexOfAfter(authority, path, '/');
    }
    assert tail[..|authority|] == authority;
    assert tail[|authority|..] == path;
  }

  lemma SplitHostPortOf(host: string, port: Option<string>)
    requires ':' !in host
    ensures SplitHostPort(JoinAuthority(host, port)) == (host, port)
  {
    if port.Some? {
      assert JoinAuthority(host, port) == host + [':'] + port.value;
      SplitAtJoined(host, ':', port.value);
    } else {
      assert JoinAuthority(host, port) == host;
    }
  }

  /** Every well-formed set of parts is what `Decompose` finds in the URL they compose. */
  lemma DecomposeCompose(p: UrlParts)
    requires WellFormed(p)
    ensures Decompose(Compose(p)) == Success(p)
  {
    var auth := Authority(p);
    var rest := "//" + (auth + p.path);
    assert Compose(p) == p.scheme + [':'] + rest;
    SplitAtJoined(p.scheme, ':', rest);
    assert rest[..2] == "//" && rest[2..] == auth + p.path;
    SplitPathOf(auth, p.path);
    SplitHostPortOf(p.host, p.port);
  }

  /** A URL that `Decompose` rejects is not the composition of any well-formed parts. */
  lemma MalformedHasNoParts(u: string)
    requires Decompose(u).Failure?
    ensures forall p :: WellFormed(p) ==> Compose(p) != u
  {
    forall p | WellFormed(p) ensures Compose(p) != u {
      DecomposeCompose(p);
    }
  }

  /** The request target of the URL: its path, or "/" when it has none. */
  function RequestPath(p: UrlParts): (path: string)
    requires p.path == "" || p.path[0] == '/'
    ensures path != "" && path[0] == '/'
    ensures p.path != "" ==> path == p.path
  {
    if p.path == "" then "/" else p.path
  }

  /** The path sent on the request line is the whole tail of the URL after its
      authority, query string included, taken verbatim; only a URL that ends at
      its authority is requested as "/". The authority holds no '/', so the tail
      starts at the first '/' after "://". */
  lemma RequestPathIsUrlSuffix(u: string)
    requires Decompose(u).Success?
    ensures var p := Decompose(u).value;
      p.path != "" ==> u == p.scheme + "://" + Authority(p) + RequestPath(p)
    ensures var p := Decompose(u).value;
      p.path == "" ==> RequestPath(p) == "/" && u == p.scheme + "://" + Authority(p)
    ensures '/' !in Authority(Decompose(u).value) && ':' !in Decompose(u).value.scheme
  {
    var p := Decompose(u).value;
    if p.path == "" {
      assert u == p.scheme + "://" + Authority(p) + "";
    }
    if p.port.Some? {
      assert Authority(p) == p.host + [':'] + p.port.value;
    }
  }

  /** The host never carries the port: it stops at the authority's first ':'. */
  lemma HostDropsPort(host: string, port: string, scheme: string, path: string)
    requires WellFormed(UrlParts(scheme, host, Some(port), path))
    ensures Decompose(scheme + "://" + host + ":" + port + path).Success?
    ensures Decompose(scheme + "://" + host + ":" + port + path).value.host == host
  {
    var p := UrlParts(scheme, host, Some(port), path);
    assert Compose(p) == scheme + "://" + host + ":" + port + path;
    DecomposeCompose(p);
  }
}
