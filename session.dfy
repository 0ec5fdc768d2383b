/**
 * The per-user session cache (`WebClient::get_cookie_for`), the handling of
 * one operation (`WebClient::handle`) and a sequence of operations on one
 * client, as functions of the cache and the server. The `WebClient` class
 * in module Client is proved to follow them.
 */
module Session {
  import opened Base
  import opened Http
  import opened Lobsters
  import Decimal

  /** Why a client gives up: each is fatal for the run. */
  datatype Failure =
    | TransportFailed
    | LoginRejected(uid: Uid, status: Status)
    | MissingSetCookie(uid: Uid)
    | UnexpectedStatus(status: Status, expected: Status)

  datatype Outcome = Completed | Aborted(failure: Failure)

  /** A result, the session cache afterwards and the requests sent, in order. */
  datatype Step<T> = Step(result: T, cookies: map<Uid, Cookie>, exchanges: seq<HttpRequest>)

  /** Every entry of `a` is in `b` with the same cookie. */
  predicate Submap(a: map<Uid, Cookie>, b: map<Uid, Cookie>) {
    forall k :: k in a ==> k in b && b[k] == a[k]
  }

  /** The login form of synthetic user `uid`; `prefix` is the client's base URL. */
  function LoginForm(prefix: string, uid: Uid): Form {
    [ ("utf8", UTF8_MARK),
      ("email", "user" + Decimal.DecimalString(uid)),
      ("password", "test"),
      ("commit", "Login"),
      ("referer", prefix) ]
  }

  function LoginRequest(prefix: string, uid: Uid): HttpRequest {
    HttpRequest(Post, "login", Some(LoginForm(prefix, uid)), None)
  }

  /** Different users log in with different requests. */
  lemma LoginRequestInjective(prefix: string, u: Uid, w: Uid)
    ensures LoginRequest(prefix, u) == LoginRequest(prefix, w) ==> u == w
  {
    if LoginRequest(prefix, u) == LoginRequest(prefix, w) {
      var eu := LoginForm(prefix, u)[1].1;
      var ew := LoginForm(prefix, w)[1].1;
      assert eu[4..] == Decimal.DecimalString(u);
      assert ew[4..] == Decimal.DecimalString(w);
      Decimal.DecimalStringInjective(u, w);
    }
  }

  /** All pairs of all Set-Cookie values, in order: the folded cookie. */
  function Flatten(content: seq<Cookie>): Cookie
    decreases |content|
  {
    if content == [] then [] else Flatten(content[..|content| - 1]) + content[|content| - 1]
  }

  /** A pair is in the folded cookie exactly when some Set-Cookie value has it. */
  lemma {:induction false} FlattenMember(content: seq<Cookie>, p: Pair)
    ensures p in Flatten(content) <==> exists i :: 0 <= i < |content| && p in content[i]
    decreases |content|
  {
    if content != [] {
      var init := content[..|content| - 1];
      FlattenMember(init, p);
      assert forall k :: 0 <= k < |init| ==> init[k] == content[k];
    }
  }

  /** Folding preserves order across consecutive Set-Cookie values. */
  lemma {:induction false} FlattenAppend(a: seq<Cookie>, b: seq<Cookie>)
    ensures Flatten(a + b) == Flatten(a) + Flatten(b)
    decreases |b|
  {
    if b == [] {
      assert a + b == a;
    } else {
      var b' := b[..|b| - 1];
      assert (a + b)[..|a + b| - 1] == a + b';
      FlattenAppend(a, b');
    }
  }

  /**
   * Nested loop over the Set-Cookie values and the pairs of each, appending
   * every pair to one cookie.
   */
  method FoldSetCookies(content: seq<Cookie>) returns (cookie: Cookie)
    ensures cookie == Flatten(content)
  {
    cookie := [];
    var i := 0;
    while i < |content|
      invariant 0 <= i <= |content|
      invariant cookie == Flatten(content[..i])
    {
      var c := content[i];
      var j := 0;
      while j < |c|
        invariant 0 <= j <= |c|
        invariant cookie == Flatten(content[..i]) + c[..j]
      {
        cookie := cookie + [c[j]];
        j := j + 1;
      }
      assert c[..j] == c;
      assert content[..i + 1][..i] == content[..i];
      i := i + 1;
    }
    assert content[..i] == content;
  }

  /**
   * The session cookie of `uid`. A cached user costs nothing. Otherwise one
   * login is sent; a non-redirect status, a missing Set-Cookie header or a
   * transport failure is fatal and caches nothing, and success caches the
   * folded Set-Cookie pairs. Cached entries never change.
   */
  function CookieFor(prefix: string, cookies: map<Uid, Cookie>, uid: Uid, server: Server): (s: Step<Result<Cookie, Failure>>)
    ensures Submap(cookies, s.cookies)
    ensures s.cookies.Keys == cookies.Keys + (if s.result.Success? then {uid} else {})
    ensures s.result.Success? ==> uid in s.cookies && s.cookies[uid] == s.result.value
    ensures |s.exchanges| == (if uid in cookies then 0 else 1)
  {
    if uid in cookies then
      Step(Success(cookies[uid]), cookies, [])
    else
      var req := LoginRequest(prefix, uid);
      match server(req)
      case TransportError => Step(Failure(TransportFailed), cookies, [req])
      case Response(status, setCookie) =>
        if status != FOUND then
          Step(Failure(LoginRejected(uid, status)), cookies, [req])
        else if setCookie.None? then
          Step(Failure(MissingSetCookie(uid)), cookies, [req])
        else
          var c := Flatten(setCookie.value);
          Step(Success(c), cookies[uid := c], [req])
  }

  /** A hit returns the stored cookie with no request and no change. */
  lemma CookieForHit(prefix: string, cookies: map<Uid, Cookie>, uid: Uid, server: Server)
    requires uid in cookies
    ensures CookieFor(prefix, cookies, uid, server) == Step(Success(cookies[uid]), cookies, [])
  {
  }

  /** A miss sends exactly the login request and succeeds only on a redirect with Set-Cookie. */
  lemma CookieForMiss(prefix: string, cookies: map<Uid, Cookie>, uid: Uid, server: Server)
    requires uid !in cookies
    ensures var s := CookieFor(prefix, cookies, uid, server);
            var reply := server(LoginRequest(prefix, uid));
            && s.exchanges == [LoginRequest(prefix, uid)]
            && (s.result.Success? <==> reply.Response? && reply.status == FOUND && reply.setCookie.Some?)
            && (s.result.Success? ==> s.result.value == Flatten(reply.setCookie.value)
                                      && s.cookies == cookies[uid := s.result.value])
            && (s.result.Failure? ==> s.cookies == cookies)
            && (reply.Response? && reply.status != FOUND ==> s.result == Failure(LoginRejected(uid, reply.status)))
  {
  }

  /** After a successful lookup, asking again is a hit on the same cookie. */
  lemma CookieForIdempotent(prefix: string, cookies: map<Uid, Cookie>, uid: Uid, server: Server)
    requires CookieFor(prefix, cookies, uid, server).result.Success?
    ensures var s := CookieFor(prefix, cookies, uid, server);
            CookieFor(prefix, s.cookies, uid, server) == Step(s.result, s.cookies, [])
  {
  }

  /** Compare the reply with the expected status. */
  function Validate(reply: Reply, expected: Status): (r: Outcome)
    ensures r.Completed? <==> reply.Response? && reply.status == expected
    ensures reply.Response? && r.Aborted? ==> r.failure == UnexpectedStatus(reply.status, expected)
    ensures reply.TransportError? ==> r == Aborted(TransportFailed)
  {
    match reply
    case TransportError => Aborted(TransportFailed)
    case Response(status, _) =>
      if status == expected then Completed else Aborted(UnexpectedStatus(status, expected))
  }

  /** Send `d` with `cookie` and validate the reply. */
  function Dispatch(d: RequestDesc, cookie: Option<Cookie>, cookies: map<Uid, Cookie>,
                    sent: seq<HttpRequest>, server: Server): Step<Outcome>
  {
    var req := HttpRequest(d.verb, d.path, d.form, cookie);
    Step(Validate(server(req), d.expected), cookies, sent + [req])
  }

  /**
   * One operation: translate it; fetch the user's cookie when it has a user;
   * send it and check the status.
   */
  function Handle(prefix: string, cookies: map<Uid, Cookie>, op: LobstersRequest, server: Server): (s: Step<Outcome>)
    ensures Submap(cookies, s.cookies)
    ensures s.cookies.Keys <= cookies.Keys + (if IsAuthenticated(op) then {op.user} else {})
    ensures |s.exchanges| <= 2
  {
    match Translate(op)
    case None => Step(Completed, cookies, [])
    case Some(d) =>
      if d.uid.None? then
        Dispatch(d, None, cookies, [], server)
      else
        var c := CookieFor(prefix, cookies, d.uid.value, server);
        match c.result
        case Failure(e) => Step(Aborted(e), c.cookies, c.exchanges)
        case Success(cookie) => Dispatch(d, Some(cookie), c.cookies, c.exchanges, server)
  }

  /** Login and Logout send nothing and change nothing. */
  lemma HandleLoginLogout(prefix: string, cookies: map<Uid, Cookie>, op: LobstersRequest, server: Server)
    requires op.Login? || op.Logout?
    ensures Handle(prefix, cookies, op, server) == Step(Completed, cookies, [])
  {
  }

  /** A view sends one request without a cookie and leaves the cache alone. */
  lemma HandleView(prefix: string, cookies: map<Uid, Cookie>, op: LobstersRequest, server: Server)
    requires IsView(op)
    ensures var s := Handle(prefix, cookies, op, server);
            var d := Translate(op).value;
            var req := HttpRequest(Get, d.path, None, None);
            && s.cookies == cookies
            && s.exchanges == [req]
            && (s.result.Completed? <==> server(req).Response? && server(req).status == OK)
  {
  }

  /**
   * An authenticated operation first obtains the user's cookie; if that
   * fails nothing else is sent, otherwise the request goes out with that
   * cookie and succeeds exactly on its expected status.
   */
  lemma HandleAuthenticated(prefix: string, cookies: map<Uid, Cookie>, op: LobstersRequest, server: Server)
    requires IsAuthenticated(op)
    ensures var s := Handle(prefix, cookies, op, server);
            var c := CookieFor(prefix, cookies, op.user, server);
            var d := Translate(op).value;
            && s.cookies == c.cookies
            && (c.result.Failure? ==> s == Step(Aborted(c.result.error), c.cookies, c.exchanges))
            && (c.result.Success? ==>
                  var req := HttpRequest(Post, d.path, d.form, Some(c.result.value));
                  && s.exchanges == c.exchanges + [req]
                  && (s.result.Completed? <==> server(req).Response? && server(req).status == d.expected))
  {
  }

  /**
   * The outcome rule: an operation that was sent succeeds exactly when the
   * last reply carries its expected status.
   */
  lemma HandleOutcome(prefix: string, cookies: map<Uid, Cookie>, op: LobstersRequest, server: Server)
    requires Translate(op).Some?
    requires IsAuthenticated(op) ==> CookieFor(prefix, cookies, op.user, server).result.Success?
    ensures var s := Handle(prefix, cookies, op, server);
            var reply := server(s.exchanges[|s.exchanges| - 1]);
            && |s.exchanges| > 0
            && s.exchanges[|s.exchanges| - 1].path == Translate(op).value.path
            && (s.result.Completed? <==> reply.Response? && reply.status == Translate(op).value.expected)
  {
  }

  /** Login requests in one operation: at most one, for a user not yet cached. */
  lemma HandleLogins(prefix: string, cookies: map<Uid, Cookie>, op: LobstersRequest, server: Server, u: Uid)
    ensures var s := Handle(prefix, cookies, op, server);
            var n := multiset(s.exchanges)[LoginRequest(prefix, u)];
            && n <= (if u in cookies then 0 else 1)
            && (n == 1 && s.result.Completed? ==> u in s.cookies)
  {
    var login := LoginRequest(prefix, u);
    var s := Handle(prefix, cookies, op, server);
    match Translate(op)
    case None =>
    case Some(d) =>
      TranslatedPathNotLogin(op);
      var main := HttpRequest(d.verb, d.path, d.form, None);
      assert main != login;
      if d.uid.Some? {
        var w := d.uid.value;
        LoginRequestInjective(prefix, u, w);
        var c := CookieFor(prefix, cookies, w, server);
        assert w in cookies ==> c.exchanges == [];
        assert w !in cookies ==> c.exchanges == [LoginRequest(prefix, w)];
        if c.result.Success? {
          var req := HttpRequest(d.verb, d.path, d.form, Some(c.result.value));
          assert req != login;
          assert s.exchanges == c.exchanges + [req];
        }
      } else {
        assert s.exchanges == [main];
      }
  }

  /**
   * A first vote by user 7 against a site that answers the login with a
   * redirect setting `sid=abc` and everything else with OK: the client logs
   * in, caches the cookie and posts the upvote with it.
   */
  lemma StoryVoteScenario(prefix: string)
    ensures var server: Server := req => if req == LoginRequest(prefix, 7) then Response(FOUND, Some([[("sid", "abc")]]))
                                         else Response(OK, None);
            Handle(prefix, map[], StoryVote(7, "abc123", Up), server)
            == Step(Completed, map[7 := [("sid", "abc")]],
                    [LoginRequest(prefix, 7), HttpRequest(Post, "stories/abc123/upvote", None, Some([("sid", "abc")]))])
  {
    var server: Server := req => if req == LoginRequest(prefix, 7) then Response(FOUND, Some([[("sid", "abc")]]))
                                 else Response(OK, None);
    var content: seq<Cookie> := [[("sid", "abc")]];
    assert content[..0] == [];
    assert Flatten(content) == [("sid", "abc")];
    var c := CookieFor(prefix, map[], 7, server);
    assert c == Step(Success([("sid", "abc")]), map[7 := [("sid", "abc")]], [LoginRequest(prefix, 7)]);
    assert "stories/" + "abc123" + "/" + VoteSegment(Up) == "stories/abc123/upvote";
    var vote := HttpRequest(Post, "stories/abc123/upvote", None, Some([("sid", "abc")]));
    assert vote.path != LoginRequest(prefix, 7).path;
    assert server(vote) == Response(OK, None);
  }

  /**
   * The driver's calls on one client, in order, up to the first fatal failure.
   * The cache only grows and its entries never change.
   */
  function Run(prefix: string, cookies: map<Uid, Cookie>, ops: seq<LobstersRequest>, server: Server): (s: Step<Outcome>)
    ensures Submap(cookies, s.cookies)
    decreases |ops|
  {
    if ops == [] then
      Step(Completed, cookies, [])
    else
      var first := Handle(prefix, cookies, ops[0], server);
      if first.result.Aborted? then
        first
      else
        var rest := Run(prefix, first.cookies, ops[1..], server);
        Step(rest.result, rest.cookies, first.exchanges + rest.exchanges)
  }

  /**
   * Over any run, a user is logged in at most once, and never when the cache
   * already held that user.
   */
  lemma {:induction false} RunLoginsAtMostOnce(prefix: string, cookies: map<Uid, Cookie>, ops: seq<LobstersRequest>,
                                               server: Server, u: Uid)
    ensures multiset(Run(prefix, cookies, ops, server).exchanges)[LoginRequest(prefix, u)]
            <= (if u in cookies then 0 else 1)
    decreases |ops|
  {
    if ops != [] {
      var first := Handle(prefix, cookies, ops[0], server);
      HandleLogins(prefix, cookies, ops[0], server, u);
      if first.result.Completed? {
        var rest := Run(prefix, first.cookies, ops[1..], server);
        RunLoginsAtMostOnce(prefix, first.cookies, ops[1..], server, u);
        assert multiset(first.exchanges + rest.exchanges) == multiset(first.exchanges) + multiset(rest.exchanges);
      }
    }
  }
}
