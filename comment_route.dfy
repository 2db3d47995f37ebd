/**
 * src/app/api/comment/route.ts: creating, listing and deleting comments, over
 * the comment collection in its natural order.
 *
 * Query and body fields are strings or absent. A field that Mongoose must
 * cast to an ObjectId and cannot makes the operation throw, which the
 * handler's catch turns into a 500. One that can is matched as the
 * lower-case id it casts to (`CastId`).
 */
module CommentRoute {
  import opened Wrappers
  import opened Json
  import opened Models
  import opened Http
  import Seqs

  /** `Comment.find({ postId })` for a cast `postId`, in collection order. */
  function CommentsOf(comments: seq<Comment>, postId: string): (r: seq<Comment>)
    ensures forall c :: c in r <==> c in comments && c.postId == postId
    ensures Seqs.IsSubseq(r, comments)
  {
    Seqs.Filter(comments, OnPost(postId))
  }

  /** The query filter `{ postId }`. */
  function OnPost(postId: string): Comment -> bool {
    (c: Comment) => c.postId == postId
  }

  /** `Comment.findById(id)` for a cast `id`. */
  function FindComment(comments: seq<Comment>, id: string): (r: Option<Comment>)
    ensures r.Some? ==> r.value in comments && r.value.id == id
    ensures r.None? <==> forall i :: 0 <= i < |comments| ==> comments[i].id != id
    decreases |comments|
  {
    if comments == [] then None
    else if comments[0].id == id then Some(comments[0])
    else FindComment(comments[1..], id)
  }

  /** The collection without the comment `id`. */
  function RemoveComment(comments: seq<Comment>, id: string): (r: seq<Comment>)
    ensures forall c :: c in r <==> c in comments && c.id != id
    ensures forall c :: multiset(r)[c] == if c.id != id then multiset(comments)[c] else 0
    ensures Seqs.IsSubseq(r, comments)
    decreases |comments|
  {
    if comments == [] then []
    else
      assert comments == [comments[0]] + comments[1..];
      var rest := RemoveComment(comments[1..], id);
      if comments[0].id == id then rest
      else assert ([comments[0]] + rest)[1..] == rest; [comments[0]] + rest
  }

  predicate UniqueCommentIds(comments: seq<Comment>) {
    forall i, j :: 0 <= i < j < |comments| ==> comments[i].id != comments[j].id
  }

  /** Removing an id that does not occur changes nothing. */
  lemma {:induction false} RemoveAbsent(comments: seq<Comment>, id: string)
    requires FindComment(comments, id).None?
    ensures RemoveComment(comments, id) == comments
    decreases |comments|
  {
    if comments != [] {
      RemoveAbsent(comments[1..], id);
    }
  }

  /** Deleting a comment just created leaves the collection as it was. */
  /** One step of the removal, on a list with a known first comment. */
  lemma RemoveCons(x: Comment, rest: seq<Comment>, id: string)
    ensures RemoveComment([x] + rest, id) == if x.id == id then RemoveComment(rest, id) else [x] + RemoveComment(rest, id)
  {
    assert ([x] + rest)[0] == x && ([x] + rest)[1..] == rest;
  }

  lemma {:induction false} DeleteAfterCreate(comments: seq<Comment>, c: Comment)
    requires FindComment(comments, c.id).None?
    ensures RemoveComment(comments + [c], c.id) == comments
    decreases |comments|
  {
    if comments == [] {
      assert comments + [c] == [c];
      assert [c][1..] == [];
    } else {
      var x, tail := comments[0], comments[1..];
      assert comments == [x] + tail;
      assert comments + [c] == [x] + (tail + [c]);
      DeleteAfterCreate(tail, c);
      RemoveCons(x, tail + [c], c.id);
    }
  }

  /** After a comment is created, its post's list is the old list plus the comment at the end. */
  lemma ListAfterCreate(comments: seq<Comment>, c: Comment)
    ensures CommentsOf(comments + [c], c.postId) == CommentsOf(comments, c.postId) + [c]
  {
    var keep := OnPost(c.postId);
    Seqs.FilterAppend(comments, [c], keep);
    assert Seqs.Filter([c], keep) == [c] + Seqs.Filter([c][1..], keep);
    assert [c][1..] == [];
  }

  /** Other posts' lists are unaffected by a new comment. */
  lemma ListOtherAfterCreate(comments: seq<Comment>, c: Comment, postId: string)
    requires postId != c.postId
    ensures CommentsOf(comments + [c], postId) == CommentsOf(comments, postId)
  {
    var keep := OnPost(postId);
    Seqs.FilterAppend(comments, [c], keep);
    assert Seqs.Filter([c], keep) == Seqs.Filter([c][1..], keep);
    assert [c][1..] == [];
    assert comments + [] == comments;
  }

  class CommentApi {
    var comments: seq<Comment>

    /** Ids are unique and every stored comment passes Comment.ts's validators. */
    ghost predicate Valid()
      reads this
    {
      && UniqueCommentIds(comments)
      && forall i :: 0 <= i < |comments| ==> CommentShape(comments[i])
    }

    constructor ()
      ensures Valid() && comments == []
    {
      comments := [];
    }

    /**
     * POST /api/comment. `newId` is the ObjectId the database assigns and
     * `now` the clock's reading. A `postId` or `userId` that is not an
     * ObjectId fails the cast in `Comment.create`; one that is is stored as
     * the ObjectId it casts to.
     */
    method Create(postId: Option<string>, userId: Option<string>, content: Option<string>,
                  newId: string, now: nat) returns (r: Response<Comment>)
      requires Valid()
      requires IsCanonicalId(newId) && FindComment(comments, newId).None?
      modifies this
      ensures Valid()
      ensures !(Truthy(postId) && Truthy(userId) && Truthy(content)) ==>
                r == Fail(BAD_REQUEST, "Missing required fields: postId, userId, or content")
                && comments == old(comments)
      ensures Truthy(postId) && Truthy(userId) && Truthy(content)
              && !(IsObjectId(postId.value) && IsObjectId(userId.value)) ==>
                r == Fail(SERVER_ERROR, "Failed to create comment") && comments == old(comments)
      ensures Truthy(postId) && Truthy(userId) && Truthy(content)
              && IsObjectId(postId.value) && IsObjectId(userId.value) ==>
                var c := NewComment(newId, CastId(postId.value), CastId(userId.value), content.value, now);
                && comments == old(comments) + [c]
                && r == Ok("Comment created successfully", c)
    {
      if !(Truthy(postId) && Truthy(userId) && Truthy(content)) {
        return Fail(BAD_REQUEST, "Missing required fields: postId, userId, or content");
      }
      if !(IsObjectId(postId.value) && IsObjectId(userId.value)) {
        return Fail(SERVER_ERROR, "Failed to create comment");
      }
      var c := NewComment(newId, CastId(postId.value), CastId(userId.value), content.value, now);
      forall i | 0 <= i < |comments|
        ensures comments[i].id != newId
      {
      }
      comments := comments + [c];
      return Ok("Comment created successfully", c);
    }

    /** GET /api/comment?postId=… */
    method List(postId: Option<string>) returns (r: Response<seq<Comment>>)
      requires Valid()
      ensures !Truthy(postId) ==> r == Fail(BAD_REQUEST, "postId is required in the query parameters")
      ensures Truthy(postId) && !IsObjectId(postId.value) ==>
                r == Fail(SERVER_ERROR, "Failed to fetch comments")
      ensures Truthy(postId) && IsObjectId(postId.value) ==>
                if exists i :: 0 <= i < |comments| && comments[i].postId == CastId(postId.value)
                then r == Ok("Comments fetched successfully", CommentsOf(comments, CastId(postId.value)))
                else r == Fail(NOT_FOUND, "No comments found for this post")
    {
      if !Truthy(postId) {
        return Fail(BAD_REQUEST, "postId is required in the query parameters");
      }
      if !IsObjectId(postId.value) {
        return Fail(SERVER_ERROR, "Failed to fetch comments");
      }
      var found := CommentsOf(comments, CastId(postId.value));
      if |found| == 0 {
        forall i | 0 <= i < |comments|
          ensures comments[i].postId != CastId(postId.value)
        {
          assert comments[i] in comments;
        }
        return Fail(NOT_FOUND, "No comments found for this post");
      }
      assert found[0] in comments;
      return Ok("Comments fetched successfully", found);
    }

    /** DELETE /api/comment?commentId=… */
    method Delete(commentId: Option<string>) returns (r: Response<Comment>)
      requires Valid()
      modifies this
      ensures Valid()
      ensures !Truthy(commentId) ==>
                r == Fail(BAD_REQUEST, "commentId is required in the query parameters")
                && comments == old(comments)
      ensures Truthy(commentId) && !IsObjectId(commentId.value) ==>
                r == Fail(SERVER_ERROR, "Failed to delete comment") && comments == old(comments)
      ensures Truthy(commentId) && IsObjectId(commentId.value) ==>
                match FindComment(old(comments), CastId(commentId.value))
                case None => r == Fail(NOT_FOUND, "Comment not found") && comments == old(comments)
                case Some(c) =>
                  && comments == RemoveComment(old(comments), CastId(commentId.value))
                  && r == Ok("Comment deleted successfully", c)
    {
      if !Truthy(commentId) {
        return Fail(BAD_REQUEST, "commentId is required in the query parameters");
      }
      if !IsObjectId(commentId.value) {
        return Fail(SERVER_ERROR, "Failed to delete comment");
      }
      var found := FindComment(comments, CastId(commentId.value));
      if found.None? {
        return Fail(NOT_FOUND, "Comment not found");
      }
      UniqueAfterRemoveComment(comments, CastId(commentId.value));
      comments := RemoveComment(comments, CastId(commentId.value));
      return Ok("Comment deleted successfully", found.value);
    }
  }

  /** A comment put in front of comments with other ids keeps the ids unique. */
  lemma ConsUniqueComment(c: Comment, rest: seq<Comment>)
    requires UniqueCommentIds(rest)
    requires forall j :: 0 <= j < |rest| ==> rest[j].id != c.id
    ensures UniqueCommentIds([c] + rest)
  {
    var r := [c] + rest;
    forall i, j | 0 <= i < j < |r|
      ensures r[i].id != r[j].id
    {
      assert r[j] == rest[j - 1];
      if i > 0 { assert r[i] == rest[i - 1]; }
    }
  }

  /** The tail of well-formed comments with unique ids is well-formed, with unique ids. */
  lemma TailUniqueComments(comments: seq<Comment>)
    requires comments != []
    requires UniqueCommentIds(comments)
    requires forall i :: 0 <= i < |comments| ==> CommentShape(comments[i])
    ensures UniqueCommentIds(comments[1..])
    ensures forall i :: 0 <= i < |comments[1..]| ==> CommentShape(comments[1..][i])
  {
    forall i, j | 0 <= i < j < |comments[1..]|
      ensures comments[1..][i].id != comments[1..][j].id
    {
      assert comments[1..][i] == comments[i + 1] && comments[1..][j] == comments[j + 1];
    }
  }

  /** A well-formed comment put in front of well-formed comments gives well-formed comments. */
  lemma ConsShapes(c: Comment, rest: seq<Comment>)
    requires CommentShape(c)
    requires forall i :: 0 <= i < |rest| ==> CommentShape(rest[i])
    ensures forall i :: 0 <= i < |[c] + rest| ==> CommentShape(([c] + rest)[i])
  {
    forall i | 0 <= i < |[c] + rest|
      ensures CommentShape(([c] + rest)[i])
    {
      if i > 0 { assert ([c] + rest)[i] == rest[i - 1]; }
    }
  }

  lemma {:induction false} UniqueAfterRemoveComment(comments: seq<Comment>, id: string)
    requires UniqueCommentIds(comments)
    requires forall i :: 0 <= i < |comments| ==> CommentShape(comments[i])
    ensures UniqueCommentIds(RemoveComment(comments, id))
    ensures forall i :: 0 <= i < |RemoveComment(comments, id)| ==> CommentShape(RemoveComment(comments, id)[i])
    decreases |comments|
  {
    if comments != [] {
      TailUniqueComments(comments);
      UniqueAfterRemoveComment(comments[1..], id);
      var rest := RemoveComment(comments[1..], id);
      var r := RemoveComment(comments, id);
      if comments[0].id != id {
        assert r == [comments[0]] + rest;
        forall j | 0 <= j < |rest|
          ensures rest[j].id != comments[0].id
        {
          assert rest[j] in comments[1..];
        }
        ConsUniqueComment(comments[0], rest);
        ConsShapes(comments[0], rest);
      } else {
        assert r == rest;
      }
    }
  }
}
