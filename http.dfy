/**
 * The HTTP exchange as the client sees it. The transport (an event loop
 * and a connection pool) is replaced by a `Server`: a function from the
 * request that was sent to the reply that came back.
 */
module Http {
  import opened Base

  datatype Method = Get | Post

  /** An HTTP status code. */
  type Status = nat

  const OK: Status := 200
  const FOUND: Status := 302

  /** A (name, value) pair: one form field or one cookie. */
  type Pair = (string, string)

  /** An application/x-www-form-urlencoded body, as its ordered fields. */
  type Form = seq<Pair>

  /** The `Cookie` request header: its name/value pairs in order, duplicates kept. */
  type Cookie = seq<Pair>

  /**
   * A request as it goes on the wire: the verb, the path relative to the
   * client's prefix, the form body (the Content-Type is form-urlencoded
   * exactly when there is one) and the Cookie header, if any.
   */
  datatype HttpRequest = HttpRequest(verb: Method, path: string, form: Option<Form>, cookie: Option<Cookie>)

  /**
   * What comes back: a status and the Set-Cookie header, each of its values
   * already split into name/value pairs; or a transport failure.
   */
  datatype Reply =
    | Response(status: Status, setCookie: Option<seq<Cookie>>)
    | TransportError

  type Server = HttpRequest -> Reply
}
