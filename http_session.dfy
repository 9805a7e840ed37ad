/** The `HttpSession` record: the request it describes, the display string and
    reference path used by the user interface, whether the request is still to be
    sent, and its raw request, optionally aimed at another URL. */
module HttpSession {
  import opened Wrappers
  import opened Text
  import opened Url
  import opened RequestBuilder

  /** The moment a request was sent; only whether one is recorded matters here. */
  datatype Timestamp = Timestamp(microseconds: int)

  datatype Session = Session(
    id: nat,
    httpMethod: string,
    httpUrl: string,
    httpBody: Option<string>,
    httpHeaders: Option<string>,
    timeCompleted: Option<Timestamp>)

  /** A session as created from the request's fields, not yet sent. */
  function NewSession(id: nat, httpMethod: string, httpUrl: string, httpBody: Option<string>,
                      httpHeaders: Option<string>): (s: Session)
    ensures NeedsToSendRequest(s)
    ensures s.httpMethod == httpMethod && s.httpUrl == httpUrl
  {
    Session(id, httpMethod, httpUrl, httpBody, httpHeaders, None)
  }

  /** The display string: the method, a space, the URL. */
  function Display(s: Session): (r: string)
    ensures |r| == |s.httpMethod| + 1 + |s.httpUrl|
    ensures r[..|s.httpMethod|] == s.httpMethod && r[|s.httpMethod|] == ' '
    ensures r[|s.httpMethod| + 1..] == s.httpUrl
  {
    s.httpMethod + " " + s.httpUrl
  }

  /** The reference path of a session record. It has the shape `sessions/(\d+)`
      that the detail route of the demo site routes to the session. */
  function AbsoluteUrl(s: Session): (r: string)
    ensures |r| > 10 && r[..10] == "/sessions/" && AllDigits(r[10..])
  {
    "/sessions/" + Decimal(s.id)
  }

  /** The request is still to be sent while no completion time is recorded. */
  predicate NeedsToSendRequest(s: Session) {
    s.timeCompleted.None?
  }

  /** Records that the request was sent at `t`. */
  function MarkCompleted(s: Session, t: Timestamp): (r: Session)
    ensures !NeedsToSendRequest(r)
  {
    s.(timeCompleted := Some(t))
  }

  /** The raw request of the session, for `overrideUrl` instead of the stored URL
      when one is given. */
  function RawRequest(s: Session, overrideUrl: Option<string>): (r: Result<string, UrlError>)
    ensures var url := overrideUrl.GetOr(s.httpUrl);
      && (r.Failure? <==> Decompose(url).Failure?)
      && (r.Failure? ==> r.error == Decompose(url).error)
    ensures r.Success? ==> Framed(r.value, s.httpMethod, s.httpBody.GetOr(""))
  {
    BuildRawRequest(s.httpMethod, overrideUrl.GetOr(s.httpUrl), s.httpBody, s.httpHeaders)
  }

  /** The display string splits back into the method and the URL at its first space. */
  lemma DisplayReadsBack(s: Session)
    requires ' ' !in s.httpMethod
    ensures SplitAt(Display(s), ' ') == Some((s.httpMethod, s.httpUrl))
  {
    SplitAtJoined(s.httpMethod, ' ', s.httpUrl);
  }

  /** The reference path is "/sessions/" followed by the digits of the id, and
      those digits read back as the id. */
  lemma AbsoluteUrlReadsBack(s: Session)
    ensures var r := AbsoluteUrl(s);
      && |r| > 10 && r[..10] == "/sessions/"
      && AllDigits(r[10..]) && DecimalValue(r[10..]) == s.id
  {
    var r := AbsoluteUrl(s);
    assert r[10..] == Decimal(s.id);
    DecimalRoundTrip(s.id);
  }

  /** Sessions with different ids have different reference paths. */
  lemma AbsoluteUrlInjective(s: Session, t: Session)
    requires AbsoluteUrl(s) == AbsoluteUrl(t)
    ensures s.id == t.id
  {
    AbsoluteUrlReadsBack(s);
    AbsoluteUrlReadsBack(t);
  }

  /** Recording completion changes nothing about the request itself. */
  lemma CompletionKeepsRequest(s: Session, t: Timestamp, overrideUrl: Option<string>)
    ensures RawRequest(MarkCompleted(s, t), overrideUrl) == RawRequest(s, overrideUrl)
    ensures Display(MarkCompleted(s, t)) == Display(s)
    ensures AbsoluteUrl(MarkCompleted(s, t)) == AbsoluteUrl(s)
  {
  }

  /** An override URL acts as if it were the stored URL, and with it given the
      stored URL plays no part. */
  lemma OverrideReplacesStoredUrl(s: Session, u: string, v: string)
    ensures RawRequest(s, Some(u)) == RawRequest(s.(httpUrl := u), None)
    ensures RawRequest(s.(httpUrl := v), Some(u)) == RawRequest(s, Some(u))
  {
  }
}
