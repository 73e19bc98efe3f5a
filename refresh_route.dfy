/**
 * The `POST /auth/refresh` route handler: it takes the refresh token out of
 * the Cookie header with the pattern /refreshToken=([^;]+)/ and answers 401,
 * 403 or a new access token. The JWT library's `verify` and `sign` are
 * parameters; `None` stands for a call that throws.
 */
module RefreshRoute {
  import opened Wrappers

  const CookieKey: string := "refreshToken="
  const AccessTokenExpiry: string := "15m"
  const NoRefreshToken: string := "No refresh token"
  const InvalidRefreshToken: string := "Invalid refresh token"

  /** What `verify` decodes from a refresh token. */
  datatype Payload = Payload(id: string, email: string, issuedAt: int, expiresAt: int)

  /** What the new access token is signed over. */
  datatype Claims = Claims(id: string, email: string)

  datatype Body = Message(text: string) | AccessToken(token: string)

  datatype Response = Response(status: int, body: Body)

  /** The answer, and the token `verify` was called with (None when it was not called). */
  datatype Handled = Handled(response: Response, verified: Option<string>)

  /** The pattern matches at position i: the key, then at least one character other than ';'. */
  predicate MatchAt(s: string, i: int) {
    0 <= i && i + |CookieKey| < |s| && s[i..i + |CookieKey|] == CookieKey && s[i + |CookieKey|] != ';'
  }

  /** The end of the run of non-';' characters starting at j. */
  function RunEnd(s: string, j: nat): (e: nat)
    requires j <= |s|
    ensures j <= e <= |s|
    ensures forall k :: j <= k < e ==> s[k] != ';'
    ensures e < |s| ==> s[e] == ';'
    decreases |s| - j
  {
    if j == |s| || s[j] == ';' then j else RunEnd(s, j + 1)
  }

  /** The captured group of a match at i. */
  function Capture(s: string, i: int): (t: string)
    requires MatchAt(s, i)
    ensures |t| >= 1 && ';' !in t
  {
    var start := i + |CookieKey|;
    var t := s[start..RunEnd(s, start)];
    assert forall k :: 0 <= k < |t| ==> t[k] == s[start + k];
    t
  }

  /** The leftmost match at or after position i, as the regular-expression search finds it. */
  function FindFrom(s: string, i: nat): (t: Option<string>)
    ensures t.None? <==> forall k :: i <= k < |s| ==> !MatchAt(s, k)
    ensures t.Some? ==> exists k :: (i <= k < |s| && MatchAt(s, k) && t.value == Capture(s, k)
      && forall j :: i <= j < k ==> !MatchAt(s, j))
    decreases |s| - i
  {
    if i + |CookieKey| >= |s| then None
    else if MatchAt(s, i) then Some(Capture(s, i))
    else FindFrom(s, i + 1)
  }

  /** `req.headers.get('cookie')?.match(/refreshToken=([^;]+)/)?.[1]`. */
  function ExtractRefreshToken(cookie: Option<string>): (t: Option<string>)
    ensures t.Some? <==> cookie.Some? && exists k :: 0 <= k < |cookie.value| && MatchAt(cookie.value, k)
    ensures t.Some? ==> |t.value| >= 1 && ';' !in t.value
  {
    if cookie.None? then None else FindFrom(cookie.value, 0)
  }

  /**
   * The handler. Without a token: 401 and `verify` is not called. If `verify`
   * or `sign` throws: 403. Otherwise the body holds only the new access
   * token, signed over the verified id and email with a 15-minute expiry.
   */
  function Post(cookie: Option<string>, verify: string -> Option<Payload>,
                sign: (Claims, string) -> Option<string>): (h: Handled)
    ensures ExtractRefreshToken(cookie).None? ==> h == Handled(Response(401, Message(NoRefreshToken)), None)
    ensures ExtractRefreshToken(cookie).Some? ==> h.verified == ExtractRefreshToken(cookie)
    ensures h.response.status in {200, 401, 403}
    ensures h.response.status == 200 <==> h.response.body.AccessToken?
    ensures h.response.body.AccessToken? ==>
      var p := verify(ExtractRefreshToken(cookie).value);
      p.Some? && sign(Claims(p.value.id, p.value.email), AccessTokenExpiry) == Some(h.response.body.token)
    ensures h.response.status == 403 <==> (ExtractRefreshToken(cookie).Some? &&
      var p := verify(ExtractRefreshToken(cookie).value);
      (p.None? || sign(Claims(p.value.id, p.value.email), AccessTokenExpiry).None?))
    ensures h.response.status == 403 ==> h.response.body == Message(InvalidRefreshToken)
    ensures (ExtractRefreshToken(cookie).Some? &&
      var p := verify(ExtractRefreshToken(cookie).value);
      p.Some? && sign(Claims(p.value.id, p.value.email), AccessTokenExpiry).Some?) ==> h.response.status == 200
  {
    match ExtractRefreshToken(cookie)
    case None => Handled(Response(401, Message(NoRefreshToken)), None)
    case Some(token) =>
      var forbidden := Handled(Response(403, Message(InvalidRefreshToken)), Some(token));
      match verify(token)
      case None => forbidden
      case Some(user) =>
        match sign(Claims(user.id, user.email), AccessTokenExpiry)
        case None => forbidden
        case Some(access) => Handled(Response(200, AccessToken(access)), Some(token))
  }

  /** A cookie whose first entry is `refreshToken=<t>` yields exactly t. */
  lemma LeadingCookie(t: string, rest: string)
    requires |t| >= 1 && ';' !in t
    ensures ExtractRefreshToken(Some(CookieKey + t + ";" + rest)) == Some(t)
  {
    var s := CookieKey + t + ";" + rest;
    assert MatchAt(s, 0);
    var e := RunEnd(s, |CookieKey|);
    assert forall k :: |CookieKey| <= k < |CookieKey| + |t| ==> s[k] == t[k - |CookieKey|];
    assert s[|CookieKey| + |t|] == ';';
    assert e == |CookieKey| + |t|;
    assert s[|CookieKey|..e] == t;
  }

  /** No match starts at or before a ';' that sits at position |CookieKey|. */
  lemma NoMatchUpToSemicolon(s: string)
    requires |s| > |CookieKey| && s[|CookieKey|] == ';'
    ensures forall k :: 0 <= k <= |CookieKey| ==> !MatchAt(s, k)
  {
    var n := |CookieKey|;
    assert ';' !in CookieKey;
  }

  /** An empty first `refreshToken=` entry is skipped: the search goes on to a later one. */
  lemma EmptyEntrySkipped(t: string)
    requires |t| >= 1 && ';' !in t
    ensures ExtractRefreshToken(Some(CookieKey + ";" + CookieKey + t)) == Some(t)
  {
    var n := |CookieKey|;
    var s := CookieKey + ";" + CookieKey + t;
    assert s[n] == ';';
    NoMatchUpToSemicolon(s);
    assert s[n + 1..2 * n + 1] == CookieKey;
    assert MatchAt(s, n + 1);
    var r := FindFrom(s, 0);
    var k :| 0 <= k < |s| && MatchAt(s, k) && r.value == Capture(s, k)
      && forall j :: 0 <= j < k ==> !MatchAt(s, j);
    assert k == n + 1;
    assert s[2 * n + 1..] == t;
    assert forall m :: 2 * n + 1 <= m < |s| ==> s[m] != ';';
    assert RunEnd(s, 2 * n + 1) == |s|;
    assert Capture(s, k) == t;
  }
}
