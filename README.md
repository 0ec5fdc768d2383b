# lobste.rs benchmark client, modelled in Dafny

This project models the site-specific client of the trawler load generator
for a lobste.rs installation. The workload driver hands a client one
abstract operation at a time: view the front page, vote on a story, submit
a story, post a comment, and so on. The client turns each operation into
an HTTP request against the site. It logs each synthetic user in lazily,
the first time an operation needs that user's session cookie. It then
checks that the reply carries the status the site promises for that
operation. Any other status, a failed login or a transport error ends the
run.

Files, one module each:

- `base.dfy` (`Base`): `Option` and `Result`.
- `http.dfy` (`Http`): methods, status codes (`OK` = 200, `FOUND` = 302), form
  bodies and cookies as ordered name/value pairs, the request as sent, the
  reply, and the `Server` oracle that stands for the network and the site.
- `decimal.dfy` (`Decimal`): decimal rendering of the user id in the login
  e-mail `user{uid}`, with an independent parser as its inverse.
- `lobsters.dfy` (`Lobsters`): the operation type (`LobstersRequest`, `Vote`)
  and `Translate`, the pure mapping from an operation to a request
  descriptor. A descriptor holds the verb, the path relative to the prefix,
  the optional form, the optional user whose cookie is attached, and the
  expected status.
- `session.dfy` (`Session`): the session cache as functions of the cache and
  the server. `CookieFor` is the memoising lookup, `Handle` handles one
  operation and `Run` handles a sequence of operations on one client. Each
  returns its result, the new cache and the requests sent, in order. The
  nested Set-Cookie loop is the method `FoldSetCookies`.
- `client.dfy` (`Client`): the `WebClient` class. Its `cookies` map field is
  updated in place, and a ghost log `sent` records every request it sent.
  Its methods are proved equal to the `Session` functions. `WebClientSpawner`
  hands each worker a fresh client.

The content type is form-urlencoded exactly when a request has a form. The
source sets that header together with every body, so the model does not
keep it as a separate field. Rust's `panic!`, `unreachable!()` and the
`unwrap()` on the transport result become `Aborted` outcomes or `Failure`
results that carry the reason.

## Model

| member | source | states |
|---|---|---|
| `Decimal.DecimalString` | src/bin/main.rs:66 | the id in `user{uid}` is a non-empty string of digits with no leading zero (only 0 prints as "0") |
| `Decimal.ParseDecimalString` | src/bin/main.rs:66 | parsing the printed id gives the id back |
| `Decimal.DecimalStringInjective` | src/bin/main.rs:66 | distinct ids print differently, so distinct users get distinct login e-mails |
| `Lobsters.Translate` | src/bin/main.rs:101-217 | Login and Logout are exactly the operations that produce no request; the verb is GET exactly for the three views; a user (and so a cookie) is attached exactly to StoryVote, CommentVote, Submit and Comment, and it is the operation's own user; a form is sent exactly for Submit and Comment; FOUND is expected exactly for Submit and OK for every other operation |
| `Lobsters.TranslateViews` | src/bin/main.rs:105-136 | Frontpage, Recent and Story(id) are GETs of "", "recent" and "s/" + id, with no form and no user, expecting OK |
| `Lobsters.TranslateLoginLogout` | src/bin/main.rs:114-125 | Login and Logout translate to no request |
| `Lobsters.TranslateVotes` | src/bin/main.rs:137-170 | votes are POSTs to "stories/{id}/{seg}" and "comments/{id}/{seg}" for the voting user, with no form, expecting OK; seg is "upvote" for Up and "unvote" for Down |
| `Lobsters.TranslateSubmit` | src/bin/main.rs:171-189 | Submit is a POST to "stories" for the user, expecting FOUND, with exactly the six fields commit, story[short_id], story[tags_a][], story[title], story[description], utf8, in that order |
| `Lobsters.TranslateComment` | src/bin/main.rs:190-216 | Comment is a POST to "comments" for the user, expecting OK; its form starts with short_id and comment and ends with story_id and utf8; it has 5 fields with a parent and 4 without; a parent_comment_short_id field is present if and only if there is a parent, and it carries exactly that parent's id |
| `Lobsters.TranslatedPathNotLogin` | src/bin/main.rs:104-217 | no operation's request goes to the login path, so it cannot be mistaken for a login |
| `Session.LoginRequestInjective` | src/bin/main.rs:62-70 | two users' login requests are equal only if the users are the same |
| `Session.FlattenMember` | src/bin/main.rs:83-90 | a pair is in the folded cookie if and only if some Set-Cookie value contains it |
| `Session.FlattenAppend` | src/bin/main.rs:83-90 | folding keeps the order of the Set-Cookie values: folding a concatenation is the concatenation of the folds |
| `Session.FoldSetCookies` | src/bin/main.rs:83-92 | the nested loop appends every pair of every Set-Cookie value, in order, so it yields the fold of all of them |
| `Session.CookieFor` | src/bin/main.rs:53-98 | existing cache entries never change; the cache gains the user's key exactly when the lookup succeeds, and the returned cookie is then the cached one; a cached user costs no request and an uncached one exactly one |
| `Session.CookieForHit` | src/bin/main.rs:57-59 | on a hit the stored cookie is returned, no request is sent and the cache is unchanged |
| `Session.CookieForMiss` | src/bin/main.rs:59-96 | on a miss exactly the login request (utf8, email=user{uid}, password=test, commit=Login, referer=prefix) is sent; the lookup succeeds if and only if the reply is a FOUND with a Set-Cookie header, and then it caches and returns the fold of every Set-Cookie pair; a non-FOUND status fails with LoginRejected; any failure leaves the cache unchanged |
| `Session.CookieForIdempotent` | src/bin/main.rs:57-97 | after a successful lookup, a second lookup of the same user returns the same cookie with no request and no change |
| `Session.Validate` | src/bin/main.rs:223-229 | an exchange succeeds if and only if a reply arrived with the expected status; otherwise the failure is UnexpectedStatus, or TransportFailed when no reply arrived |
| `Session.Handle` | src/bin/main.rs:101-230 | handling an operation never changes an existing cache entry; it adds at most the operation's own user; it sends at most two requests |
| `Session.HandleLoginLogout` | src/bin/main.rs:114-125 | Login and Logout complete with no request and the cache unchanged |
| `Session.HandleView` | src/bin/main.rs:102-136 | a view sends one GET with no cookie, leaves the cache untouched, and succeeds if and only if the reply is OK |
| `Session.HandleAuthenticated` | src/bin/main.rs:219-229 | an authenticated operation looks up its user's cookie first; if that fails the run aborts with that failure and nothing more is sent; otherwise the request goes out with that cookie and succeeds if and only if its status is the expected one |
| `Session.HandleOutcome` | src/bin/main.rs:223-229 | once a request has been dispatched, the operation succeeds if and only if the last reply has the operation's expected status |
| `Session.HandleLogins` | src/bin/main.rs:57-96 | one operation sends at most one login for a given user, none if that user is cached, and if it logged in and completed, the user is then cached |
| `Session.StoryVoteScenario` | src/bin/main.rs:137-153 | in a concrete exchange where user 7 upvotes story abc123 against a site that answers the login with a redirect setting sid=abc, the client sends the login, caches [sid=abc] for user 7, posts "stories/abc123/upvote" with that cookie, and completes |
| `Session.Run` | src/bin/main.rs:53-59 | over any sequence of operations on one client, the cache only grows and cached cookies never change |
| `Session.RunLoginsAtMostOnce` | src/bin/main.rs:57-96 | over any sequence of operations on one client, each user is logged in at most once, and never if already cached at the start |
| `Client.WebClient.constructor` | src/bin/main.rs:42-51 | a new client has the given prefix, an empty cookie cache and has sent nothing |
| `Client.WebClient.GetCookieFor` | src/bin/main.rs:53-98 | the result, the new cache and the requests sent are those of `Session.CookieFor` on the old cache |
| `Client.WebClient.Handle` | src/bin/main.rs:101-230 | the outcome, the new cache and the requests sent are those of `Session.Handle` on the old cache |
| `Client.WebClientSpawner.constructor` | src/bin/main.rs:21-25 | the spawner keeps the prefix it was given |
| `Client.WebClientSpawner.Spawn` | src/bin/main.rs:30-32 | each spawned client is a fresh object with the spawner's prefix, an empty cache and no requests sent, so no two clients share cache entries |

## Left out

- `main` (src/bin/main.rs:233-301): command-line parsing, workload configuration and histogram files are bootstrap, not logic.
- The transport (tokio event loop, hyper client). The network and the site are the `Server` function from a request to a reply. So the modelled site is stateless: a reply depends only on the request. Timeouts and hangs are not modelled.
- URL parsing and joining. `Url::parse` in `WebClientSpawner::new` and the `Uri::from_str` and `join` unwraps follow the WHATWG URL Standard, which is library behaviour. The prefix is an opaque string and paths are relative strings. An id containing `/` or `..`, which would resolve elsewhere, is not modelled.
- Percent-encoding of form bodies (the form-urlencoded serializer in section 5.2 of the WHATWG URL Standard). Bodies are ordered name/value pair lists.
- `Cookie::parse_header` (RFC 6265 section 4.1) and the panic when it fails. The server hands back Set-Cookie values already split into pairs. A missing Set-Cookie header after a successful login is the `MissingSetCookie` failure.
- The UTF-8 decoding of id byte strings (`from_utf8(...).unwrap()`): ids are strings.
- Rendering the `Cookie` header on the wire. A cookie is the ordered pair list that hyper's `Cookie::append` builds, with duplicate names kept.
- Concurrency across workers. Each client is owned by one worker, so the model is sequential. After an abort the Rust thread is gone, so `Session.Run` stops at the first `Aborted`.
