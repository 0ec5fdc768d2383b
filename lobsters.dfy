/**
 * The operations the workload driver issues against a lobste.rs site and
 * their translation into HTTP requests (`WebClient::handle`).
 */
module Lobsters {
  import opened Base
  import opened Http

  /** A user id: an unsigned 32-bit integer. */
  type Uid = x: int | 0 <= x < 0x1_0000_0000

  datatype Vote = Up | Down

  /** The closed set of operations; ids are short textual tokens. */
  datatype LobstersRequest =
    | Frontpage
    | Recent
    | Login(user: Uid)
    | Logout(user: Uid)
    | Story(id: string)
    | StoryVote(user: Uid, story: string, vote: Vote)
    | CommentVote(user: Uid, comment: string, vote: Vote)
    | Submit(id: string, user: Uid, title: string)
    | Comment(id: string, user: Uid, story: string, parent: Option<string>)

  /** What one operation asks for, before any session cookie is attached. */
  datatype RequestDesc = RequestDesc(verb: Method, path: string, form: Option<Form>, uid: Option<Uid>, expected: Status)

  const UTF8_MARK: string := "✓"
  const PARENT_FIELD: string := "parent_comment_short_id"

  /** The read-only views. */
  predicate IsView(op: LobstersRequest) {
    op.Frontpage? || op.Recent? || op.Story?
  }

  /** The operations made on behalf of a logged-in user. */
  predicate IsAuthenticated(op: LobstersRequest) {
    op.StoryVote? || op.CommentVote? || op.Submit? || op.Comment?
  }

  /** The path segment of a vote: "down" retracts the vote. */
  function VoteSegment(v: Vote): string {
    match v
    case Up => "upvote"
    case Down => "unvote"
  }

  function SubmitForm(id: string, title: string): Form {
    [ ("commit", "Submit"),
      ("story[short_id]", id),
      ("story[tags_a][]", "benchmark"),
      ("story[title]", title),
      ("story[description]", "to infinity"),
      ("utf8", UTF8_MARK) ]
  }

  function CommentForm(id: string, story: string, parent: Option<string>): Form {
    [("short_id", id), ("comment", "moar benchmarking")]
    + (match parent
       case Some(p) => [(PARENT_FIELD, p)]
       case None => [])
    + [("story_id", story), ("utf8", UTF8_MARK)]
  }

  /**
   * The request an operation becomes; None for Login and Logout, which send
   * nothing. Views are unauthenticated GETs, everything else is a POST on
   * behalf of the operation's user, and only a submission expects a redirect.
   */
  function Translate(op: LobstersRequest): (r: Option<RequestDesc>)
    ensures r.None? <==> op.Login? || op.Logout?
    ensures r.Some? ==> (r.value.verb == Get <==> IsView(op))
    ensures r.Some? ==> (r.value.uid.Some? <==> IsAuthenticated(op))
    ensures r.Some? && r.value.uid.Some? ==> r.value.uid.value == op.user
    ensures r.Some? ==> (r.value.form.Some? <==> op.Submit? || op.Comment?)
    ensures r.Some? ==> (r.value.expected == FOUND <==> op.Submit?)
    ensures r.Some? && !op.Submit? ==> r.value.expected == OK
  {
    match op
    case Frontpage => Some(RequestDesc(Get, "", None, None, OK))
    case Recent => Some(RequestDesc(Get, "recent", None, None, OK))
    case Login(_) => None
    case Logout(_) => None
    case Story(id) => Some(RequestDesc(Get, "s/" + id, None, None, OK))
    case StoryVote(user, story, v) =>
      Some(RequestDesc(Post, "stories/" + story + "/" + VoteSegment(v), None, Some(user), OK))
    case CommentVote(user, comment, v) =>
      Some(RequestDesc(Post, "comments/" + comment + "/" + VoteSegment(v), None, Some(user), OK))
    case Submit(id, user, title) =>
      Some(RequestDesc(Post, "stories", Some(SubmitForm(id, title)), Some(user), FOUND))
    case Comment(id, user, story, parent) =>
      Some(RequestDesc(Post, "comments", Some(CommentForm(id, story, parent)), Some(user), OK))
  }

  lemma TranslateViews(id: string)
    ensures Translate(Frontpage) == Some(RequestDesc(Get, "", None, None, OK))
    ensures Translate(Recent) == Some(RequestDesc(Get, "recent", None, None, OK))
    ensures Translate(Story(id)) == Some(RequestDesc(Get, "s/" + id, None, None, OK))
  {
  }

  lemma TranslateLoginLogout(user: Uid)
    ensures Translate(Login(user)) == None && Translate(Logout(user)) == None
  {
  }

  lemma TranslateVotes(user: Uid, id: string, v: Vote)
    ensures Translate(StoryVote(user, id, v))
         == Some(RequestDesc(Post, "stories/" + id + "/" + VoteSegment(v), None, Some(user), OK))
    ensures Translate(CommentVote(user, id, v))
         == Some(RequestDesc(Post, "comments/" + id + "/" + VoteSegment(v), None, Some(user), OK))
    ensures VoteSegment(v) == (if v.Up? then "upvote" else "unvote")
  {
  }

  lemma TranslateSubmit(id: string, user: Uid, title: string)
    ensures Translate(Submit(id, user, title))
         == Some(RequestDesc(Post, "stories",
                             Some([ ("commit", "Submit"), ("story[short_id]", id),
                                    ("story[tags_a][]", "benchmark"), ("story[title]", title),
                                    ("story[description]", "to infinity"), ("utf8", "✓") ]),
                             Some(user), FOUND))
  {
  }

  /**
   * A comment's form has the parent field exactly when the comment has a
   * parent, carrying that parent's id, between the fixed fields.
   */
  lemma {:induction false} TranslateComment(id: string, user: Uid, story: string, parent: Option<string>)
    ensures Translate(Comment(id, user, story, parent)).Some?
    ensures var d := Translate(Comment(id, user, story, parent)).value;
            && d.verb == Post && d.path == "comments" && d.uid == Some(user) && d.expected == OK
            && d.form.Some?
            && var f := d.form.value;
            && |f| == (if parent.Some? then 5 else 4)
            && f[0] == ("short_id", id) && f[1] == ("comment", "moar benchmarking")
            && f[|f| - 2] == ("story_id", story) && f[|f| - 1] == ("utf8", "✓")
            && ((exists i :: 0 <= i < |f| && f[i].0 == PARENT_FIELD) <==> parent.Some?)
            && (forall i :: 0 <= i < |f| && f[i].0 == PARENT_FIELD ==> parent == Some(f[i].1))
  {
    var f := CommentForm(id, story, parent);
    if parent.Some? {
      assert f[2].0 == PARENT_FIELD;
    }
  }

  /** No translated request goes to the login endpoint. */
  lemma TranslatedPathNotLogin(op: LobstersRequest)
    requires Translate(op).Some?
    ensures Translate(op).value.path != "login"
  {
    var p := Translate(op).value.path;
    if |p| == |"login"| {
      assert p[0] != 'l';
    }
  }
}
