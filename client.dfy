/**
 * The client objects: a spawner that holds the base URL and hands each
 * worker a fresh client, and the client, which owns its session cache.
 */
module Client {
  import opened Base
  import opened Http
  import opened Lobsters
  import opened Session

  class WebClient {
    /** The base URL every path is resolved against. */
    const prefix: string
    /** The session cache: one cookie per user logged in so far. */
    var cookies: map<Uid, Cookie>
    /** Every request this client has sent, in order. */
    ghost var sent: seq<HttpRequest>

    constructor (prefix: string)
      ensures this.prefix == prefix && cookies == map[] && sent == []
    {
      this.prefix := prefix;
      cookies := map[];
      sent := [];
    }

    /** The session cookie of `uid`, logging in on first use. */
    method GetCookieFor(uid: Uid, server: Server) returns (r: Result<Cookie, Failure>)
      modifies this
      ensures var s := CookieFor(prefix, old(cookies), uid, server);
              r == s.result && cookies == s.cookies && sent == old(sent) + s.exchanges
    {
      if uid in cookies {
        return Success(cookies[uid]);
      }
      var req := HttpRequest(Post, "login", Some(LoginForm(prefix, uid)), None);
      sent := sent + [req];
      var reply := server(req);
      if reply.TransportError? {
        return Failure(TransportFailed);
      }
      if reply.status != FOUND {
        return Failure(LoginRejected(uid, reply.status));
      }
      if reply.setCookie.None? {
        return Failure(MissingSetCookie(uid));
      }
      var cookie := FoldSetCookies(reply.setCookie.value);
      cookies := cookies[uid := cookie];
      r := Success(cookie);
    }

    /** Execute one operation: translate, authenticate if needed, send, check. */
    method Handle(op: LobstersRequest, server: Server) returns (outcome: Outcome)
      modifies this
      ensures var s := Session.Handle(prefix, old(cookies), op, server);
              outcome == s.result && cookies == s.cookies && sent == old(sent) + s.exchanges
    {
      var t := Translate(op);
      if t.None? {
        return Completed;
      }
      var d := t.value;
      var cookie: Option<Cookie> := None;
      if d.uid.Some? {
        var c := GetCookieFor(d.uid.value, server);
        if c.Failure? {
          return Aborted(c.error);
        }
        cookie := Some(c.value);
      }
      var req := HttpRequest(d.verb, d.path, d.form, cookie);
      sent := sent + [req];
      var reply := server(req);
      outcome := Validate(reply, d.expected);
    }
  }

  class WebClientSpawner {
    const prefix: string

    constructor (prefix: string)
      ensures this.prefix == prefix
    {
      this.prefix := prefix;
    }

    /** A new client for one worker, sharing nothing with earlier ones. */
    method Spawn() returns (c: WebClient)
      ensures fresh(c) && c.prefix == prefix && c.cookies == map[] && c.sent == []
    {
      c := new WebClient(prefix);
    }
  }
}
