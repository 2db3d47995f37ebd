/**
 * src/app/api/post/like/route.ts: toggling the session user's like on a post.
 *
 * The handler loads the post, removes every occurrence of the user's id from
 * `likes` when present or appends it when absent, and saves. It does not touch
 * the cache, so a cached copy of the post goes stale (see
 * `LikeLeavesCacheStale`); `LikeInvalidating` is the handler as it evidently
 * should be. The count it reports is the new list's length: a toggle after
 * a duplicate crept in removes every copy at once (`ToggleTwiceLength`).
 */
module LikeRoute {
  import opened Wrappers
  import opened Json
  import opened Models
  import opened Http
  import opened PostRoute

  /** How many times `v` occurs in `s`. */
  function Count(s: seq<string>, v: string): (n: nat)
    ensures n == 0 <==> v !in s
    ensures n <= |s|
    decreases |s|
  {
    if s == [] then 0 else (if s[0] == v then 1 else 0) + Count(s[1..], v)
  }

  /** `likes.pull(u)`: the list with every occurrence of `u` removed. */
  function Pull(likes: seq<string>, u: string): (r: seq<string>)
    ensures u !in r
    ensures forall v :: v != u ==> (v in r <==> v in likes)
    ensures |r| == |likes| - Count(likes, u)
    decreases |likes|
  {
    if likes == [] then []
    else if likes[0] == u then Pull(likes[1..], u)
    else [likes[0]] + Pull(likes[1..], u)
  }

  /**
   * `includes(u) ? pull(u) : push(u)`: a like adds one entry, an unlike
   * removes every entry of `u`.
   */
  function Toggle(likes: seq<string>, u: string): (r: seq<string>)
    ensures u in r <==> u !in likes
    ensures u !in likes ==> |r| == |likes| + 1
    ensures u in likes ==> |r| == |likes| - Count(likes, u)
  {
    if u in likes then Pull(likes, u) else likes + [u]
  }

  lemma {:induction false} CountAppend(s: seq<string>, t: seq<string>, v: string)
    ensures Count(s + t, v) == Count(s, v) + Count(t, v)
    decreases |s|
  {
    if s == [] {
      assert s + t == t;
    } else {
      assert (s + t)[0] == s[0];
      assert (s + t)[1..] == s[1..] + t;
      CountAppend(s[1..], t, v);
    }
  }

  lemma {:induction false} PullAppend(s: seq<string>, t: seq<string>, u: string)
    ensures Pull(s + t, u) == Pull(s, u) + Pull(t, u)
    decreases |s|
  {
    if s == [] {
      assert s + t == t;
    } else {
      assert (s + t)[0] == s[0];
      assert (s + t)[1..] == s[1..] + t;
      PullAppend(s[1..], t, u);
    }
  }

  lemma {:induction false} PullTwice(s: seq<string>, u: string)
    ensures Pull(Pull(s, u), u) == Pull(s, u)
    decreases |s|
  {
    if s != [] {
      PullTwice(s[1..], u);
      if s[0] != u {
        assert Pull(s, u) == [s[0]] + Pull(s[1..], u);
        assert Pull(s, u)[1..] == Pull(s[1..], u);
      }
    }
  }

  lemma {:induction false} PullKeepsOthers(s: seq<string>, u: string, v: string)
    requires v != u
    ensures Count(Pull(s, u), v) == Count(s, v)
    decreases |s|
  {
    if s != [] {
      PullKeepsOthers(s[1..], u, v);
      if s[0] != u {
        assert Pull(s, u)[1..] == Pull(s[1..], u);
      }
    }
  }

  /**
   * Other users' entries are untouched: with `u` left out, the list is the
   * same, in the same order, before and after the toggle.
   */
  lemma ToggleSparesOthers(likes: seq<string>, u: string)
    ensures Pull(Toggle(likes, u), u) == Pull(likes, u)
    ensures forall v :: v != u ==> Count(Toggle(likes, u), v) == Count(likes, v)
  {
    if u in likes {
      PullTwice(likes, u);
      forall v | v != u
        ensures Count(Toggle(likes, u), v) == Count(likes, v)
      {
        PullKeepsOthers(likes, u, v);
      }
    } else {
      PullAppend(likes, [u], u);
      assert Pull([u], u) == [];
      forall v | v != u
        ensures Count(Toggle(likes, u), v) == Count(likes, v)
      {
        CountAppend(likes, [u], v);
      }
    }
  }

  /** Two toggles in a row restore whether `u` likes the post. */
  lemma ToggleTwiceRestoresMembership(likes: seq<string>, u: string)
    ensures u in Toggle(Toggle(likes, u), u) <==> u in likes
  {
  }

  /** ... but not necessarily the list: a like at the front comes back at the end. */
  lemma ToggleTwiceMayReorder()
    ensures Toggle(Toggle(["u", "v"], "u"), "u") == ["v", "u"]
  {
    var once := Toggle(["u", "v"], "u");
    assert once == Pull(["u", "v"], "u");
    assert ["u", "v"][1..] == ["v"];
    assert Pull(["v"], "u") == ["v"];
    assert once == ["v"];
  }

  /** Two toggles give back a list of the original length exactly when `u` occurred at most once. */
  lemma ToggleTwiceLength(likes: seq<string>, u: string)
    ensures |Toggle(Toggle(likes, u), u)| == |likes| <==> Count(likes, u) <= 1
  {
    if u !in likes {
      CountAppend(likes, [u], u);
      assert Count([u], u) == 1 by {
        assert [u][1..] == [];
      }
    }
  }

  /** A list liked twice by the same user loses a like on an unlike followed by a like. */
  lemma ToggleTwiceDropsDuplicate()
    ensures |Toggle(Toggle(["u", "u"], "u"), "u")| == 1
  {
    assert ["u", "u"][1..] == ["u"];
    assert ["u"][1..] == [];
    assert Count(["u", "u"], "u") == 2;
  }

  /** Every user occurs at most once. */
  predicate NoDuplicates(s: seq<string>) {
    forall i, j :: 0 <= i < j < |s| ==> s[i] != s[j]
  }

  lemma {:induction false} PullKeepsNoDuplicates(s: seq<string>, u: string)
    requires NoDuplicates(s)
    ensures NoDuplicates(Pull(s, u))
    decreases |s|
  {
    if s != [] {
      assert NoDuplicates(s[1..]) by {
        forall i, j | 0 <= i < j < |s[1..]|
          ensures s[1..][i] != s[1..][j]
        {
          assert s[1..][i] == s[i + 1] && s[1..][j] == s[j + 1];
        }
      }
      PullKeepsNoDuplicates(s[1..], u);
      if s[0] != u {
        var rest := Pull(s[1..], u);
        assert s[0] !in s[1..] by {
          forall j | 0 <= j < |s[1..]|
            ensures s[1..][j] != s[0]
          {
            assert s[1..][j] == s[j + 1];
          }
        }
        assert s[0] !in rest;
        var r := [s[0]] + rest;
        forall i, j | 0 <= i < j < |r|
          ensures r[i] != r[j]
        {
          if i == 0 {
            assert r[j] == rest[j - 1];
            assert rest[j - 1] in rest;
          } else {
            assert r[i] == rest[i - 1] && r[j] == rest[j - 1];
          }
        }
      }
    }
  }

  /** A list without duplicates keeps none after a toggle, and two toggles then restore its length. */
  lemma ToggleKeepsNoDuplicates(likes: seq<string>, u: string)
    requires NoDuplicates(likes)
    ensures NoDuplicates(Toggle(likes, u))
    ensures |Toggle(Toggle(likes, u), u)| == |likes|
  {
    if u in likes {
      PullKeepsNoDuplicates(likes, u);
    } else {
      var r := likes + [u];
      forall i, j | 0 <= i < j < |r|
        ensures r[i] != r[j]
      {
        if j == |likes| {
          assert r[i] == likes[i];
        }
      }
    }
    CountAtMostOne(likes, u);
    ToggleTwiceLength(likes, u);
  }

  lemma {:induction false} CountAtMostOne(s: seq<string>, v: string)
    requires NoDuplicates(s)
    ensures Count(s, v) <= 1
    decreases |s|
  {
    if s != [] {
      assert NoDuplicates(s[1..]) by {
        forall i, j | 0 <= i < j < |s[1..]|
          ensures s[1..][i] != s[1..][j]
        {
          assert s[1..][i] == s[i + 1] && s[1..][j] == s[j + 1];
        }
      }
      CountAtMostOne(s[1..], v);
      if s[0] == v {
        assert v !in s[1..] by {
          forall j | 0 <= j < |s[1..]|
            ensures s[1..][j] != v
          {
            assert s[1..][j] == s[j + 1];
          }
        }
      }
    }
  }

  datatype LikeResult = LikeResult(likesCount: nat)

  /** The post after `post.save()` of the toggled list. */
  function LikedPost(p: Post, u: string, now: nat): (q: Post)
    ensures q == p.(likes := Toggle(p.likes, u), updatedAt := now)
    ensures PostShape(p) ==> PostShape(q)
  {
    p.(likes := Toggle(p.likes, u), updatedAt := now)
  }

  /**
   * POST /api/post/like as written. `postId` is the body's field: when it is
   * absent `findById(undefined)` finds nothing; a string that is not an
   * ObjectId makes the cast throw, and with no try/catch in the handler the
   * framework answers 500.
   */
  method Like(api: PostApi, sessionUserId: Option<string>, postId: Option<string>, now: nat)
    returns (r: Response<LikeResult>)
    requires api.Valid()
    modifies api
    ensures api.Valid() && api.cache == old(api.cache)
    ensures !Truthy(sessionUserId) ==> r == Fail(UNAUTHORIZED, "Unauthorized") && api.table == old(api.table)
    ensures Truthy(sessionUserId) && postId.None? ==>
              r == Fail(NOT_FOUND, "Post not found") && api.table == old(api.table)
    ensures Truthy(sessionUserId) && postId.Some? && !IsObjectId(postId.value) ==>
              r.status == SERVER_ERROR && api.table == old(api.table)
    ensures Truthy(sessionUserId) && postId.Some? && IsObjectId(postId.value) ==>
              match FindPost(old(api.table), CastId(postId.value))
              case None => r == Fail(NOT_FOUND, "Post not found") && api.table == old(api.table)
              case Some(p) =>
                var q := LikedPost(p, sessionUserId.value, now);
                && api.table == ReplacePost(old(api.table), q)
                && r == Ok(if sessionUserId.value in p.likes then "Unliked" else "Liked", LikeResult(|q.likes|))
  {
    if !Truthy(sessionUserId) {
      return Fail(UNAUTHORIZED, "Unauthorized");
    }
    var u := sessionUserId.value;
    if postId.None? {
      return Fail(NOT_FOUND, "Post not found");
    }
    if !IsObjectId(postId.value) {
      return Fail(SERVER_ERROR, "");
    }
    var found := FindPost(api.table, CastId(postId.value));
    if found.None? {
      return Fail(NOT_FOUND, "Post not found");
    }
    var p := found.value;
    var alreadyLiked := u in p.likes;
    var q := LikedPost(p, u, now);
    ghost var before := api.table;
    api.table := ReplacePost(api.table, q);
    UniqueAfterReplace(before, q);
    forall i | 0 <= i < |api.table|
      ensures PostShape(api.table[i])
    {
      ReplacedAt(before, q, i);
    }
    return Ok(if alreadyLiked then "Unliked" else "Liked", LikeResult(|q.likes|));
  }

  /**
   * For every post and user: a cache holding just that post is coherent with
   * the table, and stops being so once the like route has saved the toggled post.
   */
  lemma LikeLeavesCacheStale(p: Post, u: string, now: nat)
    requires IsCanonicalId(p.id)
    ensures Coherent([p], map[PostKey(p.id) := CacheEntry(OnePost(p), CACHE_TTL)])
    ensures !Coherent(ReplacePost([p], LikedPost(p, u, now)), map[PostKey(p.id) := CacheEntry(OnePost(p), CACHE_TTL)])
  {
    var cache := map[PostKey(p.id) := CacheEntry(OnePost(p), CACHE_TTL)];
    var q := LikedPost(p, u, now);
    PostKeyNamesId(p.id);
    assert Answer([p], PostKey(p.id)) == Some(OnePost(p));
    assert ReplacePost([p], q) == [q];
    assert Answer([q], PostKey(p.id)) == Some(OnePost(q));
    assert (u in q.likes) != (u in p.likes);
  }

  /**
   * The like route with the cache invalidation the other post writes
   * perform, extended to every cached spelling of the post's id.
   */
  method LikeInvalidating(api: PostApi, sessionUserId: Option<string>, postId: Option<string>, now: nat)
    returns (r: Response<LikeResult>)
    requires api.Valid()
    modifies api
    ensures api.Valid()
    ensures r.status == OK ==> postId.Some? && IsObjectId(postId.value)
                               && api.cache == Forget(old(api.cache), CastId(postId.value))
    ensures r.status != OK ==> api.cache == old(api.cache) && api.table == old(api.table)
    ensures Truthy(sessionUserId) && postId.Some? && IsObjectId(postId.value) ==>
              match FindPost(old(api.table), CastId(postId.value))
              case None => r.status == NOT_FOUND
              case Some(p) =>
                var q := LikedPost(p, sessionUserId.value, now);
                && api.table == ReplacePost(old(api.table), q)
                && r == Ok(if sessionUserId.value in p.likes then "Unliked" else "Liked", LikeResult(|q.likes|))
    ensures Coherent(old(api.table), old(api.cache)) ==> Coherent(api.table, api.cache)
  {
    ghost var before := api.table;
    ghost var found := if postId.Some? then FindPost(before, CastId(postId.value)) else None;
    var cached := api.cache;
    r := Like(api, sessionUserId, postId, now);
    if r.status == OK {
      var id := CastId(postId.value);
      ghost var q := LikedPost(found.value, sessionUserId.value, now);
      assert api.table == ReplacePost(before, q) && q.id == id;
      if Coherent(before, cached) {
        WriteBackKeepsCoherent(before, cached, q);
      }
      api.cache := Forget(cached, id);
    }
  }

  /** Writing a post back over its old version and forgetting its keys keeps a coherent cache coherent. */
  lemma WriteBackKeepsCoherent(before: seq<Post>, cache: map<string, CacheEntry>, q: Post)
    requires Coherent(before, cache)
    ensures Coherent(ReplacePost(before, q), Forget(cache, q.id))
  {
    forall j | j != q.id
      ensures FindPost(ReplacePost(before, q), j) == FindPost(before, j)
    {
      FindAfterReplace(before, q, j);
    }
    InvalidationKeepsCoherent(before, ReplacePost(before, q), cache, Forget(cache, q.id), q.id);
  }
}
