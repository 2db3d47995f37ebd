/**
 * src/app/api/post/drafts/route.ts: the session user's drafts, newest first.
 * The success body is the array itself (no message).
 */
module DraftsRoute {
  import opened Wrappers
  import opened Json
  import opened Models
  import opened Http
  import Seqs
  import Queries

  /** `{ status: "draft", author }` */
  predicate IsDraftOf(p: Post, author: string) {
    p.status == Draft && p.author == author
  }

  /** `Post.find({ status: "draft", author }).sort({ createdAt: -1 })` */
  function DraftsOf(posts: seq<Post>, author: string): (r: seq<Post>)
    ensures Queries.NewestFirst(r)
    ensures forall i :: 0 <= i < |r| ==> IsDraftOf(r[i], author)
    ensures forall p :: p in r <==> p in posts && IsDraftOf(p, author)
    ensures multiset(r) == multiset(Seqs.Filter(posts, (p: Post) => IsDraftOf(p, author)))
  {
    var mine := Seqs.Filter(posts, (p: Post) => IsDraftOf(p, author));
    var sorted := Queries.SortNewestFirst(mine);
    forall p
      ensures p in sorted <==> p in mine
    {
      assert p in sorted <==> p in multiset(sorted);
      assert p in mine <==> p in multiset(mine);
    }
    forall i | 0 <= i < |sorted|
      ensures IsDraftOf(sorted[i], author)
    {
      assert sorted[i] in mine;
    }
    sorted
  }

  /**
   * GET /api/post/drafts. `users` is the user collection keyed by e-mail.
   * When no user has the session's e-mail, reading `user._id` throws and the
   * catch answers 500.
   */
  function Drafts(posts: seq<Post>, users: map<string, User>, sessionEmail: Option<string>): (r: Response<seq<Post>>)
    ensures !Truthy(sessionEmail) ==> r == Fail(UNAUTHORIZED, "Unauthorized")
    ensures Truthy(sessionEmail) && sessionEmail.value !in users ==> r == Fail(SERVER_ERROR, "Failed to fetch drafts")
    ensures Truthy(sessionEmail) && sessionEmail.value in users ==>
              r == Ok("", DraftsOf(posts, users[sessionEmail.value].id))
  {
    if !Truthy(sessionEmail) then Fail(UNAUTHORIZED, "Unauthorized")
    else if sessionEmail.value !in users then Fail(SERVER_ERROR, "Failed to fetch drafts")
    else Ok("", DraftsOf(posts, users[sessionEmail.value].id))
  }
}
