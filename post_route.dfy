/**
 * src/app/api/post/route.ts: the post table and its read-through cache.
 *
 * The database's post collection is `table` (in natural order, which is
 * what `Post.find({})` returns); the Redis cache is `cache`, holding the
 * key `post:{id}` for one post and `posts` for the whole list, each with
 * the expiry it was written with. Every handler first consults the rate
 * limiter, whose verdict is an input.
 *
 * Cache keys carry the id exactly as the request spelled it, while the
 * database casts it case-insensitively (`CastId`): one post can sit in the
 * cache under several keys, and PUT and DELETE drop only the spelling they
 * were given (see `StaleSpellingAfterUpdate`). `UpdateInvalidating` and
 * `DeleteInvalidating` are those handlers as they evidently should be.
 */
module PostRoute {
  import opened Wrappers
  import opened Json
  import opened Models
  import opened Http
  import PostSchema
  import Seqs

  /** A cached value: `JSON.stringify(post)` or `JSON.stringify(posts)`. */
  datatype Cached = OnePost(post: Post) | PostList(posts: seq<Post>)

  datatype CacheEntry = CacheEntry(value: Cached, ttl: nat)

  const ALL_POSTS_KEY: string := "posts"
  const CACHE_TTL: nat := 3600

  function PostKey(id: string): string {
    "post:" + id
  }

  /** The post id a cache key names, when it is a `post:{id}` key. */
  function KeyId(key: string): (r: Option<string>)
    ensures r.Some? ==> key == PostKey(r.value)
  {
    if |key| >= 5 && key[..5] == "post:" then Some(key[5..]) else None
  }

  /** `post:{id}` keys name their id, and none of them is the list key. */
  lemma PostKeyNamesId(id: string)
    ensures KeyId(PostKey(id)) == Some(id)
    ensures PostKey(id) != ALL_POSTS_KEY
  {
    assert PostKey(id)[..5] == "post:";
    assert PostKey(id)[4] == ':' && ALL_POSTS_KEY[4] == 's';
  }

  /** `Post.findById(id)` for an id already cast (`CastId`): the post stored under it. */
  function FindPost(table: seq<Post>, id: string): (r: Option<Post>)
    ensures r.Some? ==> r.value in table && r.value.id == id
    ensures r.None? <==> forall i :: 0 <= i < |table| ==> table[i].id != id
    decreases |table|
  {
    if table == [] then None
    else if table[0].id == id then Some(table[0])
    else FindPost(table[1..], id)
  }

  /** What the database answers to the query a cache key stands for. */
  function Answer(table: seq<Post>, key: string): Option<Cached> {
    if key == ALL_POSTS_KEY then Some(PostList(table))
    else match KeyId(key)
      case None => None
      case Some(id) =>
        if !IsObjectId(id) then None
        else match FindPost(table, CastId(id))
          case None => None
          case Some(p) => Some(OnePost(p))
  }

  /** `key` is a `post:{x}` key for some spelling `x` of the post id `id`. */
  predicate NamesPost(key: string, id: string) {
    KeyId(key).Some? && IsObjectId(KeyId(key).value) && CastId(KeyId(key).value) == id
  }

  /** Every cached entry equals what the table would return for its key. */
  predicate Coherent(table: seq<Post>, cache: map<string, CacheEntry>) {
    forall k :: k in cache ==> Answer(table, k) == Some(cache[k].value)
  }

  predicate UniqueIds(table: seq<Post>) {
    forall i, j :: 0 <= i < j < |table| ==> table[i].id != table[j].id
  }

  /** The table with the post whose id is `p.id` replaced by `p`. */
  function ReplacePost(table: seq<Post>, p: Post): (r: seq<Post>)
    ensures |r| == |table|
    ensures forall i :: 0 <= i < |table| ==> r[i].id == table[i].id
    decreases |table|
  {
    if table == [] then []
    else [if table[0].id == p.id then p else table[0]] + ReplacePost(table[1..], p)
  }

  /** The table without the post `id`. */
  function RemovePost(table: seq<Post>, id: string): (r: seq<Post>)
    ensures forall p :: p in r <==> p in table && p.id != id
    ensures forall p :: multiset(r)[p] == if p.id != id then multiset(table)[p] else 0
    ensures Seqs.IsSubseq(r, table)
    ensures |r| <= |table|
    decreases |table|
  {
    if table == [] then []
    else
      assert table == [table[0]] + table[1..];
      var rest := RemovePost(table[1..], id);
      if table[0].id == id then rest
      else assert ([table[0]] + rest)[1..] == rest; [table[0]] + rest
  }

  lemma {:induction false} FindAfterAppend(table: seq<Post>, p: Post, j: string)
    requires FindPost(table, p.id).None?
    ensures FindPost(table + [p], j) == if j == p.id then Some(p) else FindPost(table, j)
    decreases |table|
  {
    if table != [] {
      assert (table + [p])[1..] == table[1..] + [p];
      FindAfterAppend(table[1..], p, j);
    }
  }

  lemma {:induction false} FindAfterReplace(table: seq<Post>, p: Post, j: string)
    ensures FindPost(ReplacePost(table, p), j) ==
            if j != p.id then FindPost(table, j)
            else if FindPost(table, j).Some? then Some(p) else None
    decreases |table|
  {
    if table != [] {
      var r := ReplacePost(table, p);
      assert r[1..] == ReplacePost(table[1..], p);
      FindAfterReplace(table[1..], p, j);
    }
  }

  lemma {:induction false} FindAfterRemove(table: seq<Post>, id: string, j: string)
    ensures FindPost(RemovePost(table, id), j) == if j == id then None else FindPost(table, j)
    decreases |table|
  {
    if table != [] {
      FindAfterRemove(table[1..], id, j);
    }
  }

  lemma {:induction false} UniqueAfterReplace(table: seq<Post>, p: Post)
    requires UniqueIds(table)
    ensures UniqueIds(ReplacePost(table, p))
  {
  }

  /** A post put in front of posts with other ids keeps the ids unique. */
  lemma ConsUnique(p: Post, rest: seq<Post>)
    requires UniqueIds(rest)
    requires forall j :: 0 <= j < |rest| ==> rest[j].id != p.id
    ensures UniqueIds([p] + rest)
  {
    var r := [p] + rest;
    forall i, j | 0 <= i < j < |r|
      ensures r[i].id != r[j].id
    {
      assert r[j] == rest[j - 1];
      if i > 0 { assert r[i] == rest[i - 1]; }
    }
  }

  lemma {:induction false} UniqueAfterRemove(table: seq<Post>, id: string)
    requires UniqueIds(table)
    ensures UniqueIds(RemovePost(table, id))
    ensures IsSubsequenceOfTable(RemovePost(table, id), table)
    decreases |table|
  {
    if table != [] {
      UniqueAfterRemove(table[1..], id);
      var rest := RemovePost(table[1..], id);
      var r := RemovePost(table, id);
      if table[0].id != id {
        forall j | 0 <= j < |rest|
          ensures rest[j].id != table[0].id
        {
          assert rest[j] in table[1..];
        }
        assert r == [table[0]] + rest;
        ConsUnique(table[0], rest);
      } else {
        assert r == rest;
      }
    }
  }

  /** Only used to carry the membership fact of `RemovePost` through the induction. */
  predicate IsSubsequenceOfTable(r: seq<Post>, table: seq<Post>) {
    forall i :: 0 <= i < |r| ==> r[i] in table
  }

  /**
   * After the table changed at the post `id` alone, a cache that kept some
   * of its entries, but neither `posts` nor any key naming `id`, is coherent
   * with the new table.
   */
  lemma InvalidationKeepsCoherent(table: seq<Post>, table': seq<Post>,
                                  cache: map<string, CacheEntry>, cache': map<string, CacheEntry>, id: string)
    requires Coherent(table, cache)
    requires forall j :: j != id ==> FindPost(table', j) == FindPost(table, j)
    requires forall k :: k in cache' ==> k in cache && cache'[k] == cache[k]
    requires ALL_POSTS_KEY !in cache'
    requires forall k :: k in cache' ==> !NamesPost(k, id)
    ensures Coherent(table', cache')
  {
    forall k | k in cache'
      ensures Answer(table', k) == Some(cache'[k].value)
    {
      assert Answer(table, k) == Some(cache[k].value);
      var x := KeyId(k).value;
      assert FindPost(table', CastId(x)) == FindPost(table, CastId(x));
    }
  }

  /** A coherent cache holds a `post:{x}` entry only when `x` casts to the id of a post in the table. */
  lemma CachedPostExists(table: seq<Post>, cache: map<string, CacheEntry>, k: string)
    requires Coherent(table, cache)
    requires k in cache && k != ALL_POSTS_KEY
    ensures KeyId(k).Some? && IsObjectId(KeyId(k).value)
    ensures FindPost(table, CastId(KeyId(k).value)).Some?
  {
    assert Answer(table, k) == Some(cache[k].value);
  }

  /** No key naming the post `raw` is cached except `post:{raw}` itself. */
  predicate OnlySpellingCached(cache: map<string, CacheEntry>, raw: string) {
    forall k :: k in cache && NamesPost(k, CastId(raw)) ==> k == PostKey(raw)
  }

  /** The cache without `posts` and without every key naming the post `id`, however it is spelled. */
  function Forget(cache: map<string, CacheEntry>, id: string): (r: map<string, CacheEntry>)
    ensures forall k :: k in r <==> k in cache && k != ALL_POSTS_KEY && !NamesPost(k, id)
    ensures forall k :: k in r ==> r[k] == cache[k]
  {
    map k | k in cache && k != ALL_POSTS_KEY && !NamesPost(k, id) :: cache[k]
  }

  /** Writing the table's own answer under a key keeps the cache coherent. */
  lemma FillKeepsCoherent(table: seq<Post>, cache: map<string, CacheEntry>, key: string, ttl: nat)
    requires Coherent(table, cache)
    requires Answer(table, key).Some?
    ensures Coherent(table, cache[key := CacheEntry(Answer(table, key).value, ttl)])
  {
  }

  /** The key a GET consults: `post:{id}` when `id` is given and non-empty, else `posts`. */
  function GetKey(id: Option<string>): (k: string)
    ensures k == ALL_POSTS_KEY <==> !Truthy(id)
    ensures Truthy(id) ==> KeyId(k) == Some(id.value)
  {
    if Truthy(id) then PostKeyNamesId(id.value); PostKey(id.value) else ALL_POSTS_KEY
  }

  /** `status === "published" ? "published" : "draft"` */
  function StatusOf(status: Option<Value>): (s: Status)
    ensures s == Published <==> status == Some(Str("published"))
  {
    if status == Some(Str("published")) then Published else Draft
  }

  /** `findByIdAndUpdate(id, { title, content, tags })`: absent fields are left alone. */
  function ApplyUpdate(p: Post, u: PostSchema.PostUpdate, now: nat): (q: Post)
    ensures q.id == p.id && q.author == p.author && q.status == p.status && q.likes == p.likes
    ensures q.postPic == p.postPic && q.createdAt == p.createdAt && q.updatedAt == now
    ensures q.title == (if u.title.Some? then u.title.value else p.title)
    ensures q.content == (if u.content.Some? then u.content.value else p.content)
    ensures q.tags == (if u.tags.Some? then u.tags.value else p.tags)
  {
    p.(title := u.title.GetOr(p.title), content := u.content.GetOr(p.content),
       tags := u.tags.GetOr(p.tags), updatedAt := now)
  }

  class PostApi {
    var table: seq<Post>
    var cache: map<string, CacheEntry>

    ghost predicate Valid()
      reads this
    {
      UniqueIds(table) && forall i :: 0 <= i < |table| ==> PostShape(table[i])
    }

    constructor ()
      ensures Valid() && table == [] && cache == map[]
      ensures Coherent(table, cache)
    {
      table := [];
      cache := map[];
    }

    /** GET /api/post?id= : one post or the whole list, cache first. */
    method Get(limit: Limit, id: Option<string>) returns (r: Response<Cached>)
      requires Valid()
      modifies this
      ensures Valid() && table == old(table)
      ensures limit.Denied? ==> r == Fail(TOO_MANY_REQUESTS, limit.error) && cache == old(cache)
      ensures limit.Allowed? && GetKey(id) in old(cache) ==>
                r == Ok(if Truthy(id) then "Post fetched from cache" else "Posts fetched from cache",
                        old(cache)[GetKey(id)].value)
                && cache == old(cache)
      ensures limit.Allowed? && Truthy(id) && GetKey(id) !in old(cache) && !IsObjectId(id.value) ==>
                r == Fail(SERVER_ERROR, "MongoDB connection failed") && cache == old(cache)
      ensures limit.Allowed? && Truthy(id) && GetKey(id) !in old(cache) && IsObjectId(id.value) ==>
                match FindPost(table, CastId(id.value))
                case None => r == Fail(NOT_FOUND, "Post not found") && cache == old(cache)
                case Some(p) => r == Ok("Post fetched successfully", OnePost(p))
                                && cache == old(cache)[GetKey(id) := CacheEntry(OnePost(p), CACHE_TTL)]
      ensures limit.Allowed? && !Truthy(id) && ALL_POSTS_KEY !in old(cache) ==>
                r == Ok("MongoDB connected successfully", PostList(table))
                && cache == old(cache)[ALL_POSTS_KEY := CacheEntry(PostList(table), CACHE_TTL)]
      ensures Coherent(old(table), old(cache)) ==>
                Coherent(table, cache) && (r.status == OK ==> r.data == Answer(table, GetKey(id)))
    {
      if limit.Denied? {
        return Fail(TOO_MANY_REQUESTS, limit.error);
      }
      if Truthy(id) {
        var key := PostKey(id.value);
        PostKeyNamesId(id.value);
        if key in cache {
          return Ok("Post fetched from cache", cache[key].value);
        }
        if !IsObjectId(id.value) {
          return Fail(SERVER_ERROR, "MongoDB connection failed");
        }
        var found := FindPost(table, CastId(id.value));
        if found.None? {
          return Fail(NOT_FOUND, "Post not found");
        }
        cache := cache[key := CacheEntry(OnePost(found.value), CACHE_TTL)];
        return Ok("Post fetched successfully", OnePost(found.value));
      } else {
        if ALL_POSTS_KEY in cache {
          return Ok("Posts fetched from cache", cache[ALL_POSTS_KEY].value);
        }
        cache := cache[ALL_POSTS_KEY := CacheEntry(PostList(table), CACHE_TTL)];
        return Ok("MongoDB connected successfully", PostList(table));
      }
    }

    /**
     * POST /api/post. `newId` is the ObjectId Mongoose assigns to the new
     * document. The stored content is the request's content as sent: the
     * sanitized copy the handler computes is never used; the author is
     * stored as the ObjectId it casts to.
     */
    method Create(limit: Limit, body: PostSchema.PostBody, status: Option<Value>, newId: string, now: nat)
      returns (r: Response<Post>)
      requires Valid()
      requires IsCanonicalId(newId) && FindPost(table, newId).None?
      modifies this
      ensures Valid()
      ensures limit.Denied? ==> r == Fail(TOO_MANY_REQUESTS, limit.error)
                                && table == old(table) && cache == old(cache)
      ensures limit.Allowed? && PostSchema.ParseCreate(body).None? ==>
                r == Fail(BAD_REQUEST, "Validation failed") && table == old(table) && cache == old(cache)
      ensures limit.Allowed? && PostSchema.ParseCreate(body).Some? ==>
                var input := PostSchema.ParseCreate(body).value;
                var p := NewPost(newId, input.title, input.content, input.tags, CastId(input.author), StatusOf(status), now);
                && r == Ok("Post created successfully", p)
                && table == old(table) + [p]
                && cache == old(cache) - {ALL_POSTS_KEY, PostKey(newId)}
      ensures Coherent(old(table), old(cache)) ==> Coherent(table, cache)
    {
      if limit.Denied? {
        return Fail(TOO_MANY_REQUESTS, limit.error);
      }
      var parsed := PostSchema.ParseCreate(body);
      if parsed.None? {
        return Fail(BAD_REQUEST, "Validation failed");
      }
      // The handler's second check `!author || !ObjectId.isValid(author)` is
      // unreachable once the schema accepted the body (see AuthorCheckUnreachable).
      var input := parsed.value;
      var p := NewPost(newId, input.title, input.content, input.tags, CastId(input.author), StatusOf(status), now);
      ghost var before := table;
      table := table + [p];
      forall i, j | 0 <= i < j < |table|
        ensures table[i].id != table[j].id
      {
        if j == |table| - 1 {
          assert table[i] == before[i];
        }
      }
      forall j | true
        ensures j != newId ==> FindPost(table, j) == FindPost(before, j)
      {
        FindAfterAppend(before, p, j);
      }
      if Coherent(before, cache) {
        var cache' := cache - {ALL_POSTS_KEY, PostKey(newId)};
        forall k | k in cache'
          ensures !NamesPost(k, newId)
        {
          CachedPostExists(before, cache, k);
        }
        InvalidationKeepsCoherent(before, table, cache, cache', newId);
      }
      cache := cache - {ALL_POSTS_KEY, PostKey(newId)};
      return Ok("Post created successfully", p);
    }

    /**
     * PUT /api/post?id= : writes title, content and tags only. The cache
     * stays coherent when no other spelling of the id is cached.
     */
    method Update(limit: Limit, id: Option<string>, body: PostSchema.PostBody, now: nat)
      returns (r: Response<Post>)
      requires Valid()
      modifies this
      ensures Valid()
      ensures limit.Denied? ==> r == Fail(TOO_MANY_REQUESTS, limit.error)
                                && table == old(table) && cache == old(cache)
      ensures limit.Allowed? && !Truthy(id) ==>
                r == Fail(BAD_REQUEST, "Post ID is required") && table == old(table) && cache == old(cache)
      ensures limit.Allowed? && Truthy(id) && PostSchema.ParseUpdate(body).None? ==>
                r == Fail(BAD_REQUEST, "Validation failed") && table == old(table) && cache == old(cache)
      ensures limit.Allowed? && Truthy(id) && PostSchema.ParseUpdate(body).Some? && !IsObjectId(id.value) ==>
                r == Fail(SERVER_ERROR, "Failed to update post") && table == old(table) && cache == old(cache)
      ensures limit.Allowed? && Truthy(id) && PostSchema.ParseUpdate(body).Some? && IsObjectId(id.value) ==>
                match FindPost(old(table), CastId(id.value))
                case None => r == Fail(NOT_FOUND, "Post not found") && table == old(table) && cache == old(cache)
                case Some(p) =>
                  var q := ApplyUpdate(p, PostSchema.ParseUpdate(body).value, now);
                  && r == Ok("Post updated successfully", q)
                  && table == ReplacePost(old(table), q)
                  && cache == old(cache) - {PostKey(id.value), ALL_POSTS_KEY}
      ensures Truthy(id) ==> forall j :: j != CastId(id.value) ==> FindPost(table, j) == FindPost(old(table), j)
      ensures Coherent(old(table), old(cache)) && (Truthy(id) ==> OnlySpellingCached(old(cache), id.value)) ==>
                Coherent(table, cache)
    {
      if limit.Denied? {
        return Fail(TOO_MANY_REQUESTS, limit.error);
      }
      if !Truthy(id) {
        return Fail(BAD_REQUEST, "Post ID is required");
      }
      var postId := id.value;
      PostSchema.UpdateIgnoresAuthor(body, Some(Str(postId)));
      var parsed := PostSchema.ParseUpdate(body.(author := Some(Str(postId))));
      if parsed.None? {
        return Fail(BAD_REQUEST, "Validation failed");
      }
      if !IsObjectId(postId) {
        return Fail(SERVER_ERROR, "Failed to update post");
      }
      var found := FindPost(table, CastId(postId));
      if found.None? {
        return Fail(NOT_FOUND, "Post not found");
      }
      var q := ApplyUpdate(found.value, parsed.value, now);
      ghost var before := table;
      table := ReplacePost(table, q);
      UniqueAfterReplace(before, q);
      forall i | 0 <= i < |table|
        ensures PostShape(table[i])
      {
        ReplacedAt(before, q, i);
      }
      forall j | true
        ensures j != CastId(postId) ==> FindPost(table, j) == FindPost(before, j)
      {
        FindAfterReplace(before, q, j);
      }
      if Coherent(before, cache) && OnlySpellingCached(cache, postId) {
        InvalidationKeepsCoherent(before, table, cache, cache - {PostKey(postId), ALL_POSTS_KEY}, CastId(postId));
      }
      cache := cache - {PostKey(postId), ALL_POSTS_KEY};
      return Ok("Post updated successfully", q);
    }

    /** DELETE /api/post?id= ; coherent under the same condition as PUT. */
    method Delete(limit: Limit, id: Option<string>) returns (r: Response<Post>)
      requires Valid()
      modifies this
      ensures Valid()
      ensures limit.Denied? ==> r == Fail(TOO_MANY_REQUESTS, limit.error)
                                && table == old(table) && cache == old(cache)
      ensures limit.Allowed? && !Truthy(id) ==>
                r == Fail(BAD_REQUEST, "Post ID is required") && table == old(table) && cache == old(cache)
      ensures limit.Allowed? && Truthy(id) && !IsObjectId(id.value) ==>
                r == Fail(SERVER_ERROR, "Failed to delete post") && table == old(table) && cache == old(cache)
      ensures limit.Allowed? && Truthy(id) && IsObjectId(id.value) ==>
                match FindPost(old(table), CastId(id.value))
                case None => r == Fail(NOT_FOUND, "Post not found") && table == old(table) && cache == old(cache)
                case Some(p) =>
                  && r == Ok("Post deleted successfully", p)
                  && table == RemovePost(old(table), CastId(id.value))
                  && cache == old(cache) - {PostKey(id.value), ALL_POSTS_KEY}
      ensures Truthy(id) ==> forall j :: j != CastId(id.value) ==> FindPost(table, j) == FindPost(old(table), j)
      ensures Coherent(old(table), old(cache)) && (Truthy(id) ==> OnlySpellingCached(old(cache), id.value)) ==>
                Coherent(table, cache)
    {
      if limit.Denied? {
        return Fail(TOO_MANY_REQUESTS, limit.error);
      }
      if !Truthy(id) {
        return Fail(BAD_REQUEST, "Post ID is required");
      }
      var postId := id.value;
      if !IsObjectId(postId) {
        return Fail(SERVER_ERROR, "Failed to delete post");
      }
      var found := FindPost(table, CastId(postId));
      if found.None? {
        return Fail(NOT_FOUND, "Post not found");
      }
      ghost var before := table;
      table := RemovePost(table, CastId(postId));
      UniqueAfterRemove(before, CastId(postId));
      forall i | 0 <= i < |table|
        ensures PostShape(table[i])
      {
        assert table[i] in before;
      }
      forall j | true
        ensures j != CastId(postId) ==> FindPost(table, j) == FindPost(before, j)
      {
        FindAfterRemove(before, CastId(postId), j);
      }
      if Coherent(before, cache) && OnlySpellingCached(cache, postId) {
        InvalidationKeepsCoherent(before, table, cache, cache - {PostKey(postId), ALL_POSTS_KEY}, CastId(postId));
      }
      cache := cache - {PostKey(postId), ALL_POSTS_KEY};
      return Ok("Post deleted successfully", found.value);
    }

    /**
     * PUT as it evidently should be: the same answers and the same table,
     * but a successful update drops every cached spelling of the post's id.
     * The cache then stays coherent whatever was cached.
     */
    method UpdateInvalidating(limit: Limit, id: Option<string>, body: PostSchema.PostBody, now: nat)
      returns (r: Response<Post>)
      requires Valid()
      modifies this
      ensures Valid()
      ensures r.status != OK ==> table == old(table) && cache == old(cache)
      ensures r.status == OK ==>
                && Truthy(id) && IsObjectId(id.value) && PostSchema.ParseUpdate(body).Some?
                && FindPost(old(table), CastId(id.value)).Some?
                && var q := ApplyUpdate(FindPost(old(table), CastId(id.value)).value, PostSchema.ParseUpdate(body).value, now);
                   && r == Ok("Post updated successfully", q)
                   && table == ReplacePost(old(table), q)
                   && cache == Forget(old(cache), CastId(id.value))
      ensures Coherent(old(table), old(cache)) ==> Coherent(table, cache)
    {
      ghost var before := table;
      var cached := cache;
      r := Update(limit, id, body, now);
      if r.status == OK {
        var postId := CastId(id.value);
        if Coherent(before, cached) {
          InvalidationKeepsCoherent(before, table, cached, Forget(cached, postId), postId);
        }
        cache := Forget(cached, postId);
      }
    }

    /** DELETE as it evidently should be, in the same way as `UpdateInvalidating`. */
    method DeleteInvalidating(limit: Limit, id: Option<string>) returns (r: Response<Post>)
      requires Valid()
      modifies this
      ensures Valid()
      ensures r.status != OK ==> table == old(table) && cache == old(cache)
      ensures r.status == OK ==>
                && Truthy(id) && IsObjectId(id.value) && FindPost(old(table), CastId(id.value)).Some?
                && r == Ok("Post deleted successfully", FindPost(old(table), CastId(id.value)).value)
                && table == RemovePost(old(table), CastId(id.value))
                && cache == Forget(old(cache), CastId(id.value))
      ensures Coherent(old(table), old(cache)) ==> Coherent(table, cache)
    {
      ghost var before := table;
      var cached := cache;
      r := Delete(limit, id);
      if r.status == OK {
        var postId := CastId(id.value);
        if Coherent(before, cached) {
          InvalidationKeepsCoherent(before, table, cached, Forget(cached, postId), postId);
        }
        cache := Forget(cached, postId);
      }
    }

    /** A cache entry's expiry elapsing (the TTL clock itself is not modelled). */
    method Expire(key: string)
      modifies this
      ensures table == old(table) && cache == old(cache) - {key}
      ensures Coherent(old(table), old(cache)) ==> Coherent(table, cache)
    {
      cache := cache - {key};
    }
  }

  /** A replaced table keeps the shape of its posts when the new post has it. */
  lemma ReplacedAt(table: seq<Post>, q: Post, i: int)
    requires forall k :: 0 <= k < |table| ==> PostShape(table[k])
    requires PostShape(q)
    requires 0 <= i < |table|
    ensures PostShape(ReplacePost(table, q)[i])
    decreases |table|
  {
    if i > 0 {
      ReplacedAt(table[1..], q, i - 1);
    }
  }

  /** Once the create schema accepts a body, its author is present and a valid ObjectId. */
  lemma AuthorCheckUnreachable(body: PostSchema.PostBody)
    requires PostSchema.ParseCreate(body).Some?
    ensures body.author.Some? && body.author.value.Str? && body.author.value.s != ""
    ensures IsObjectId(body.author.value.s)
  {
  }

  /** An upper-case spelling of a stored id: the database finds the post under it, the cache tells it apart. */
  lemma UpperCaseSpelling()
    ensures var upper := "AAAAAAAAAAAAAAAAAAAAAAAA";
            IsObjectId(upper) && CastId(upper) == "aaaaaaaaaaaaaaaaaaaaaaaa" && upper != CastId(upper)
  {
    var upper := "AAAAAAAAAAAAAAAAAAAAAAAA";
    assert forall i :: 0 <= i < 24 ==> CastId(upper)[i] == 'a';
  }

  /**
   * For every post: a GET under another spelling `raw` of its id caches it
   * coherently, and a PUT under the stored spelling leaves that entry
   * describing the post as it was before the update.
   */
  lemma StaleSpellingAfterUpdate(p: Post, q: Post, raw: string)
    requires IsObjectId(raw) && CastId(raw) == p.id && raw != p.id
    requires q.id == p.id && q != p
    ensures Coherent([p], map[PostKey(raw) := CacheEntry(OnePost(p), CACHE_TTL)])
    ensures !Coherent(ReplacePost([p], q), map[PostKey(raw) := CacheEntry(OnePost(p), CACHE_TTL)] - {PostKey(p.id), ALL_POSTS_KEY})
  {
    var cache := map[PostKey(raw) := CacheEntry(OnePost(p), CACHE_TTL)];
    PostKeyNamesId(raw);
    assert Answer([p], PostKey(raw)) == Some(OnePost(p));
    assert PostKey(raw) != PostKey(p.id) by {
      assert PostKey(raw)[5..] == raw && PostKey(p.id)[5..] == p.id;
    }
    var after := cache - {PostKey(p.id), ALL_POSTS_KEY};
    assert PostKey(raw) in after;
    assert ReplacePost([p], q) == [q];
    assert Answer([q], PostKey(raw)) == Some(OnePost(q));
  }

  /** ... and after a DELETE under the stored spelling the entry still serves the deleted post. */
  lemma StaleSpellingAfterDelete(p: Post, raw: string)
    requires IsObjectId(raw) && CastId(raw) == p.id && raw != p.id
    ensures Coherent([p], map[PostKey(raw) := CacheEntry(OnePost(p), CACHE_TTL)])
    ensures !Coherent(RemovePost([p], p.id), map[PostKey(raw) := CacheEntry(OnePost(p), CACHE_TTL)] - {PostKey(p.id), ALL_POSTS_KEY})
  {
    var cache := map[PostKey(raw) := CacheEntry(OnePost(p), CACHE_TTL)];
    PostKeyNamesId(raw);
    assert Answer([p], PostKey(raw)) == Some(OnePost(p));
    assert PostKey(raw) != PostKey(p.id) by {
      assert PostKey(raw)[5..] == raw && PostKey(p.id)[5..] == p.id;
    }
    var after := cache - {PostKey(p.id), ALL_POSTS_KEY};
    assert PostKey(raw) in after;
    assert RemovePost([p], p.id) == [];
    assert Answer([], PostKey(raw)) == None;
  }
}
