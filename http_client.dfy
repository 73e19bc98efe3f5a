/**
 * The HTTP client's response interceptor and `setAccessToken`.
 *
 * The transport is an oracle: a "wire" lists, in order, the reply each request
 * put on the wire receives (None when no response arrives at all). Every
 * request the client sends, the original, a refresh or a replay, consumes the
 * next element. When the wire runs out the pending call never settles.
 */
module HttpClient {
  import opened Wrappers
  import opened Text

  /** A reply that reaches the client; `token` is the `accessToken` of its body. */
  datatype Reply = Reply(status: int, token: string)

  type Wire = seq<Option<Reply>>

  /** How a call ends: resolved with a reply, rejected (with the reply's status if there was one), or never. */
  datatype Settled = Resolved(reply: Reply) | Rejected(status: Option<int>) | Unsettled

  /** A request as it went out: its URL and the Authorization header it carried. */
  datatype Sent = Sent(url: string, authorization: Option<string>)

  /**
   * What sending one request leads to: its settlement, the unused rest of the
   * wire, every request put on the wire meanwhile, the default Authorization
   * header afterwards, and the request's own `_retry` flag and header afterwards.
   */
  datatype Trace = Trace(outcome: Settled, rest: Wire, sent: seq<Sent>,
                         defaultAuth: Option<string>, retry: bool, auth: Option<string>)

  const RefreshUrl: string := "/auth/refresh"
  const BearerPrefix: string := "Bearer "

  function Bearer(token: string): (h: string)
    ensures StartsWith(h, BearerPrefix) && h[|BearerPrefix|..] == token
  {
    BearerPrefix + token
  }

  /** The client's default status check: 2xx resolves, anything else rejects. */
  predicate IsSuccess(r: Option<Reply>) { r.Some? && 200 <= r.value.status < 300 }

  predicate IsUnauthorized(r: Option<Reply>) { r.Some? && r.value.status == 401 }

  /** `err.response?.status`. */
  function StatusOf(r: Option<Reply>): Option<int> { if r.Some? then Some(r.value.status) else None }

  /** The header a request carries: its own if set, the client default otherwise. */
  function HeaderUsed(auth: Option<string>, defaultAuth: Option<string>): Option<string> {
    if auth.Some? then auth else defaultAuth
  }

  function CountUrl(sent: seq<Sent>, url: string): nat {
    if |sent| == 0 then 0 else (if sent[0].url == url then 1 else 0) + CountUrl(sent[1..], url)
  }

  lemma {:induction false} CountUrlAppend(a: seq<Sent>, b: seq<Sent>, url: string)
    ensures CountUrl(a + b, url) == CountUrl(a, url) + CountUrl(b, url)
    decreases |a|
  {
    if |a| == 0 {
      assert a + b == b;
    } else {
      CountUrlAppend(a[1..], b, url);
      assert (a + b)[1..] == a[1..] + b;
    }
  }

  /**
   * Sending a request with the response interceptor in place. A 2xx reply
   * passes through. A 401 on a request whose `_retry` flag is unset marks it,
   * posts to /auth/refresh (itself an intercepted request), and on success
   * writes "Bearer <token>" into the default and the request header and replays
   * the request. Everything else is rejected unchanged. `excludeRefresh` sends
   * the refresh request already marked, so that its own 401 is not
   * intercepted; the code as written does not do this (`excludeRefresh` false).
   */
  function Exchange(url: string, retry: bool, auth: Option<string>, defaultAuth: Option<string>,
                    wire: Wire, excludeRefresh: bool): (t: Trace)
    decreases |wire|
    ensures |t.rest| <= |wire|
    ensures |t.sent| == |wire| - |t.rest|
    ensures t.outcome.Unsettled? ==> t.rest == []
    ensures t.outcome.Resolved? ==> 200 <= t.outcome.reply.status < 300
    ensures t.retry == (retry || (wire != [] && IsUnauthorized(wire[0])))
    ensures t.defaultAuth != defaultAuth ==> t.defaultAuth.Some? && StartsWith(t.defaultAuth.value, BearerPrefix)
    ensures retry && wire != [] ==> |t.sent| == 1 && !t.outcome.Unsettled? && t.defaultAuth == defaultAuth && t.auth == auth
  {
    if wire == [] then Trace(Unsettled, [], [], defaultAuth, retry, auth)
    else
      var first := [Sent(url, HeaderUsed(auth, defaultAuth))];
      var reply := wire[0];
      if IsSuccess(reply) then
        Trace(Resolved(reply.value), wire[1..], first, defaultAuth, retry, auth)
      else if IsUnauthorized(reply) && !retry then
        var refresh := Exchange(RefreshUrl, excludeRefresh, None, defaultAuth, wire[1..], excludeRefresh);
        if !refresh.outcome.Resolved? then
          Trace(refresh.outcome, refresh.rest, first + refresh.sent, refresh.defaultAuth, true, auth)
        else
          var bearer := Some(Bearer(refresh.outcome.reply.token));
          var replay := Exchange(url, true, bearer, bearer, refresh.rest, excludeRefresh);
          Trace(replay.outcome, replay.rest, first + refresh.sent + replay.sent,
                replay.defaultAuth, replay.retry, replay.auth)
      else
        Trace(Rejected(StatusOf(reply)), wire[1..], first, defaultAuth, retry, auth)
  }

  /** A 2xx reply passes through unchanged: one request sent, headers and `_retry` untouched. */
  lemma SuccessPassesThrough(url: string, retry: bool, auth: Option<string>, defaultAuth: Option<string>,
                             wire: Wire, excludeRefresh: bool)
    requires wire != [] && IsSuccess(wire[0])
    ensures var t := Exchange(url, retry, auth, defaultAuth, wire, excludeRefresh);
      && t.outcome == Resolved(wire[0].value) && t.sent == [Sent(url, HeaderUsed(auth, defaultAuth))]
      && t.rest == wire[1..] && t.defaultAuth == defaultAuth && t.retry == retry && t.auth == auth
  {
  }

  /** A request already marked `_retry` that meets a 401 is rejected with no refresh. */
  lemma RetriedUnauthorizedRejected(url: string, auth: Option<string>, defaultAuth: Option<string>, wire: Wire)
    requires wire != [] && IsUnauthorized(wire[0])
    ensures var t := Exchange(url, true, auth, defaultAuth, wire, false);
      t.outcome == Rejected(Some(401)) && t.sent == [Sent(url, HeaderUsed(auth, defaultAuth))]
      && CountUrl(t.sent, RefreshUrl) == (if url == RefreshUrl then 1 else 0)
      && t.defaultAuth == defaultAuth && t.auth == auth
  {
  }

  /**
   * The refresh-and-replay path: a first 401, a successful refresh with token
   * `token`, then the replay. The replay carries "Bearer <token>", both headers
   * hold it afterwards, and the replay's answer is final: a second 401 is
   * rejected, so the request goes out at most twice.
   */
  lemma {:induction false} RefreshThenReplayOnce(url: string, auth: Option<string>, defaultAuth: Option<string>,
                                                 wire: Wire, token: string)
    requires |wire| >= 3 && IsUnauthorized(wire[0]) && wire[1] == Some(Reply(200, token))
    ensures var t := Exchange(url, false, auth, defaultAuth, wire, false);
      var b := Some(Bearer(token));
      && t.sent == [Sent(url, HeaderUsed(auth, defaultAuth)), Sent(RefreshUrl, defaultAuth), Sent(url, b)]
      && t.defaultAuth == b && t.auth == b && t.retry
      && t.outcome == (if IsSuccess(wire[2]) then Resolved(wire[2].value) else Rejected(StatusOf(wire[2])))
      && t.rest == wire[3..]
  {
    var refresh := Exchange(RefreshUrl, false, None, defaultAuth, wire[1..], false);
    assert refresh.outcome == Resolved(Reply(200, token)) && refresh.rest == wire[2..];
    var b := Some(Bearer(token));
    var replay := Exchange(url, true, b, b, wire[2..], false);
    assert replay.sent == [Sent(url, b)];
  }

  /** When the refresh call itself fails (other than with a 401), its failure is the answer and no header changes. */
  lemma RefreshFailureLeavesHeaders(url: string, auth: Option<string>, defaultAuth: Option<string>, wire: Wire)
    requires |wire| >= 2 && IsUnauthorized(wire[0]) && !IsSuccess(wire[1]) && !IsUnauthorized(wire[1])
    ensures var t := Exchange(url, false, auth, defaultAuth, wire, false);
      && t.outcome == Rejected(StatusOf(wire[1]))
      && t.defaultAuth == defaultAuth && t.auth == auth && t.retry
      && t.sent == [Sent(url, HeaderUsed(auth, defaultAuth)), Sent(RefreshUrl, defaultAuth)]
  {
    var refresh := Exchange(RefreshUrl, false, None, defaultAuth, wire[1..], false);
    assert refresh.outcome == Rejected(StatusOf(wire[1]));
  }

  /** An answer other than 2xx or 401 is rejected with its own status and triggers no refresh. */
  lemma OtherErrorsRejected(url: string, retry: bool, auth: Option<string>, defaultAuth: Option<string>, wire: Wire)
    requires wire != [] && !IsSuccess(wire[0]) && !IsUnauthorized(wire[0])
    ensures var t := Exchange(url, retry, auth, defaultAuth, wire, false);
      t.outcome == Rejected(StatusOf(wire[0])) && |t.sent| == 1 && t.defaultAuth == defaultAuth && t.rest == wire[1..]
  {
  }

  /**
   * Nothing is shared between requests: two requests that each meet a first
   * 401 issue two refresh calls, one each, even when sent back to back.
   */
  lemma {:induction false} EachRequestRefreshesAlone(u1: string, u2: string, d: Option<string>,
                                                     t1: string, t2: string, r1: Reply, r2: Reply)
    requires u1 != RefreshUrl && u2 != RefreshUrl
    ensures var w1: Wire := [Some(Reply(401, "")), Some(Reply(200, t1)), Some(r1)];
      var w2: Wire := [Some(Reply(401, "")), Some(Reply(200, t2)), Some(r2)];
      var a := Exchange(u1, false, None, d, w1, false);
      var b := Exchange(u2, false, None, a.defaultAuth, w2, false);
      CountUrl(a.sent + b.sent, RefreshUrl) == 2 && b.defaultAuth == Some(Bearer(t2))
  {
    var w1: Wire := [Some(Reply(401, "")), Some(Reply(200, t1)), Some(r1)];
    var w2: Wire := [Some(Reply(401, "")), Some(Reply(200, t2)), Some(r2)];
    RefreshThenReplayOnce(u1, None, d, w1, t1);
    var a := Exchange(u1, false, None, d, w1, false);
    RefreshThenReplayOnce(u2, None, a.defaultAuth, w2, t2);
    var b := Exchange(u2, false, None, a.defaultAuth, w2, false);
    CountUrlAppend(a.sent, b.sent, RefreshUrl);
    OneRefreshAmongThree(a.sent, u1);
    OneRefreshAmongThree(b.sent, u2);
  }

  lemma OneRefreshAmongThree(sent: seq<Sent>, url: string)
    requires |sent| == 3 && sent[0].url == url && sent[1].url == RefreshUrl && sent[2].url == url && url != RefreshUrl
    ensures CountUrl(sent, RefreshUrl) == 1
  {
    var s1 := sent[1..];
    var s2 := s1[1..];
    assert s2[1..] == [];
    assert CountUrl(s2, RefreshUrl) == 0;
    assert CountUrl(s1, RefreshUrl) == 1;
  }

  /** `n` copies of a 401 reply. */
  function Unauthorized(n: nat): (w: Wire)
    ensures |w| == n && forall k :: 0 <= k < n ==> w[k] == Some(Reply(401, ""))
  {
    if n == 0 then [] else [Some(Reply(401, ""))] + Unauthorized(n - 1)
  }

  /**
   * As written, a 401 from /auth/refresh is intercepted like any other first
   * 401 and triggers another refresh: against a server that answers 401 to
   * everything, a first-time request never settles, however many replies
   * arrive, and every request after the first is a refresh.
   */
  lemma {:induction false} UnauthorizedRefreshLoops(url: string, auth: Option<string>, d: Option<string>, n: nat)
    ensures var t := Exchange(url, false, auth, d, Unauthorized(n), false);
      && t.outcome == Unsettled && |t.sent| == n
      && (forall k :: 1 <= k < n ==> t.sent[k].url == RefreshUrl)
      && t.defaultAuth == d
    decreases n
  {
    if n > 0 {
      var w := Unauthorized(n);
      assert w[1..] == Unauthorized(n - 1);
      UnauthorizedRefreshLoops(RefreshUrl, None, d, n - 1);
      var t := Exchange(url, false, auth, d, w, false);
      var refresh := Exchange(RefreshUrl, false, None, d, w[1..], false);
      assert t.sent == [Sent(url, HeaderUsed(auth, d))] + refresh.sent;
      forall k | 1 <= k < n ensures t.sent[k].url == RefreshUrl {
        assert t.sent[k] == refresh.sent[k - 1];
      }
    }
  }

  /**
   * With the refresh request excluded from interception, a first-time request
   * puts at most three requests on the wire, at most one of them a refresh,
   * and settles whenever three replies are available.
   */
  lemma {:induction false} ExcludedRefreshSettles(url: string, auth: Option<string>, d: Option<string>, wire: Wire)
    requires url != RefreshUrl
    ensures var t := Exchange(url, false, auth, d, wire, true);
      && |t.sent| <= 3 && CountUrl(t.sent, RefreshUrl) <= 1
      && (|wire| >= 3 ==> !t.outcome.Unsettled?)
  {
    if wire != [] && IsUnauthorized(wire[0]) {
      ExcludedRefreshSettles401(url, auth, d, wire);
    }
  }

  lemma ExcludedRefreshSettles401(url: string, auth: Option<string>, d: Option<string>, wire: Wire)
    requires url != RefreshUrl && wire != [] && IsUnauthorized(wire[0])
    ensures var t := Exchange(url, false, auth, d, wire, true);
      && |t.sent| <= 3 && CountUrl(t.sent, RefreshUrl) <= 1
      && (|wire| >= 3 ==> !t.outcome.Unsettled?)
  {
    Unfold401(url, auth, d, wire, true);
    var t := Exchange(url, false, auth, d, wire, true);
    var refresh := Exchange(RefreshUrl, true, None, d, wire[1..], true);
    var first := [Sent(url, HeaderUsed(auth, d))];
    assert CountUrl(first, RefreshUrl) == 0;
    CountUrlAtMostOne(refresh.sent, RefreshUrl);
    CountUrlAppend(first, refresh.sent, RefreshUrl);
    if refresh.outcome.Resolved? {
      var bearer := Some(Bearer(refresh.outcome.reply.token));
      var replay := Exchange(url, true, bearer, bearer, refresh.rest, true);
      assert t.sent == first + refresh.sent + replay.sent;
      if replay.sent != [] {
        FirstSentIsRequest(url, true, bearer, bearer, refresh.rest, true);
        assert replay.sent == [replay.sent[0]];
        assert CountUrl(replay.sent, RefreshUrl) == 0;
      }
      CountUrlAppend(first + refresh.sent, replay.sent, RefreshUrl);
    }
  }

  /** The first request on the wire is the one being sent. */
  lemma FirstSentIsRequest(url: string, retry: bool, auth: Option<string>, defaultAuth: Option<string>,
                           wire: Wire, excludeRefresh: bool)
    requires wire != []
    ensures var t := Exchange(url, retry, auth, defaultAuth, wire, excludeRefresh);
      |t.sent| >= 1 && t.sent[0] == Sent(url, HeaderUsed(auth, defaultAuth))
  {
  }

  lemma CountUrlAtMostOne(sent: seq<Sent>, url: string)
    requires |sent| <= 1
    ensures CountUrl(sent, url) <= 1
  {
    if sent != [] {
      assert sent[1..] == [];
    }
  }

  /** Unfolding helper for proofs about `Exchange`: its 401 branch, one step at a time (refresh, then replay if the refresh resolved). */
  lemma Unfold401(url: string, auth: Option<string>, d: Option<string>, wire: Wire, excludeRefresh: bool)
    requires wire != [] && IsUnauthorized(wire[0])
    ensures var first := [Sent(url, HeaderUsed(auth, d))];
      var refresh := Exchange(RefreshUrl, excludeRefresh, None, d, wire[1..], excludeRefresh);
      var t := Exchange(url, false, auth, d, wire, excludeRefresh);
      if !refresh.outcome.Resolved? then
        t == Trace(refresh.outcome, refresh.rest, first + refresh.sent, refresh.defaultAuth, true, auth)
      else
        var bearer := Some(Bearer(refresh.outcome.reply.token));
        var replay := Exchange(url, true, bearer, bearer, refresh.rest, excludeRefresh);
        t == Trace(replay.outcome, replay.rest, first + refresh.sent + replay.sent, replay.defaultAuth, replay.retry, replay.auth)
  {
  }

  lemma SeqAssoc(a: seq<Sent>, b: seq<Sent>, c: seq<Sent>, d: seq<Sent>)
    ensures a + b + c + d == a + (b + c + d)
  {
  }

  /** A request config; `skipAuth` is declared by the client's typings but the interceptor never reads it. */
  class Request {
    const url: string
    const skipAuth: bool
    /** `_retry`: set once the interceptor has refreshed for this request. */
    var retry: bool
    /** `headers['Authorization']`, when set on the request itself. */
    var authorization: Option<string>

    constructor (url: string, skipAuth: bool)
      ensures this.url == url && this.skipAuth == skipAuth && !retry && authorization == None
    {
      this.url := url;
      this.skipAuth := skipAuth;
      retry := false;
      authorization := None;
    }
  }

  /** The client instance: its default Authorization header and the log of what it sent. */
  class Api {
    var defaultAuthorization: Option<string>
    var sent: seq<Sent>

    constructor ()
      ensures defaultAuthorization == None && sent == []
    {
      defaultAuthorization := None;
      sent := [];
    }

    /** `setAccessToken`: the default header becomes exactly "Bearer " + token, even for "". */
    method SetAccessToken(token: string)
      modifies this
      ensures defaultAuthorization == Some(Bearer(token)) && sent == old(sent)
    {
      defaultAuthorization := Some(Bearer(token));
    }

    /** Sends `req` through the interceptor, consuming replies from `wire`. */
    method Send(req: Request, wire: Wire) returns (outcome: Settled, rest: Wire)
      modifies this, req
      decreases |wire|, 1
      ensures var t := Exchange(req.url, old(req.retry), old(req.authorization), old(defaultAuthorization), wire, false);
        && outcome == t.outcome && rest == t.rest && sent == old(sent) + t.sent
        && defaultAuthorization == t.defaultAuth && req.retry == t.retry && req.authorization == t.auth
    {
      if wire == [] {
        return Unsettled, [];
      }
      if IsUnauthorized(wire[0]) && !req.retry {
        outcome, rest := RefreshAndReplay(req, wire);
        return;
      }
      sent := sent + [Sent(req.url, HeaderUsed(req.authorization, defaultAuthorization))];
      if IsSuccess(wire[0]) {
        return Resolved(wire[0].value), wire[1..];
      }
      return Rejected(StatusOf(wire[0])), wire[1..];
    }

    /** The interceptor's 401 branch: mark the request, refresh, and replay with the new token. */
    method RefreshAndReplay(req: Request, wire: Wire) returns (outcome: Settled, rest: Wire)
      requires wire != [] && IsUnauthorized(wire[0]) && !req.retry
      modifies this, req
      decreases |wire|, 0
      ensures var t := Exchange(req.url, false, old(req.authorization), old(defaultAuthorization), wire, false);
        && outcome == t.outcome && rest == t.rest && sent == old(sent) + t.sent
        && defaultAuthorization == t.defaultAuth && req.retry == t.retry && req.authorization == t.auth
    {
      ghost var sent0 := sent;
      ghost var t := Exchange(req.url, false, req.authorization, defaultAuthorization, wire, false);
      ghost var refresh := Exchange(RefreshUrl, false, None, defaultAuthorization, wire[1..], false);
      var first := [Sent(req.url, HeaderUsed(req.authorization, defaultAuthorization))];
      Unfold401(req.url, req.authorization, defaultAuthorization, wire, false);
      sent := sent + first;
      req.retry := true;
      var refreshed, afterRefresh := PostRefresh(wire[1..]);
      assert sent == sent0 + first + refresh.sent;
      if !refreshed.Resolved? {
        return refreshed, afterRefresh;
      }
      ghost var sent1 := sent;
      outcome, rest := Replay(req, refreshed.reply.token, afterRefresh);
      ghost var bearer := Some(Bearer(refreshed.reply.token));
      ghost var replay := Exchange(req.url, true, bearer, bearer, afterRefresh, false);
      assert sent == sent1 + replay.sent;
      SeqAssoc(sent0, first, refresh.sent, replay.sent);
    }

    /** The replay after a successful refresh: both headers carry the new token, then the request goes out again. */
    method Replay(req: Request, token: string, wire: Wire) returns (outcome: Settled, rest: Wire)
      requires req.retry
      modifies this, req
      decreases |wire|, 2
      ensures var bearer := Some(Bearer(token));
        var t := Exchange(req.url, true, bearer, bearer, wire, false);
        && outcome == t.outcome && rest == t.rest && sent == old(sent) + t.sent
        && defaultAuthorization == t.defaultAuth && req.retry == t.retry && req.authorization == t.auth
    {
      defaultAuthorization := Some(Bearer(token));
      req.authorization := Some(Bearer(token));
      outcome, rest := Send(req, wire);
    }

    /** `api.post('/auth/refresh')`: a new request, itself subject to the interceptor. */
    method PostRefresh(wire: Wire) returns (outcome: Settled, rest: Wire)
      modifies this
      decreases |wire|, 2
      ensures var t := Exchange(RefreshUrl, false, None, old(defaultAuthorization), wire, false);
        && outcome == t.outcome && rest == t.rest && sent == old(sent) + t.sent
        && defaultAuthorization == t.defaultAuth
    {
      var refreshReq := new Request(RefreshUrl, false);
      outcome, rest := Send(refreshReq, wire);
    }
  }
}
