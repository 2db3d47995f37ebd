/**
 * The public post list: the query and DTO mapping of src/app/post/page.tsx,
 * and the search filter of src/app/post/AllPostClient.tsx.
 */
module PostListing {
  import opened Wrappers
  import opened Models
  import Text
  import Seqs
  import Queries

  /** The shape `AllPostsClient` receives for each post. */
  datatype PostDto = PostDto(
    id: string, title: string, content: string, likes: seq<string>,
    postPic: Option<string>, tags: seq<string>,
    authorName: string, authorPic: string)

  const UNKNOWN_AUTHOR: string := "Unknown"

  /** `Post.find({ status: 'published' }).sort({ createdAt: -1 })` */
  function PublishedNewestFirst(table: seq<Post>): (r: seq<Post>)
    ensures Queries.NewestFirst(r)
    ensures forall i :: 0 <= i < |r| ==> r[i].status == Published
    ensures forall p :: p in r <==> p in table && p.status == Published
    ensures multiset(r) == multiset(Seqs.Filter(table, (p: Post) => p.status == Published))
  {
    var published := Seqs.Filter(table, (p: Post) => p.status == Published);
    var sorted := Queries.SortNewestFirst(published);
    forall p
      ensures p in sorted <==> p in published
    {
      assert p in sorted <==> p in multiset(sorted);
      assert p in published <==> p in multiset(published);
    }
    forall i | 0 <= i < |sorted|
      ensures sorted[i].status == Published
    {
      assert sorted[i] in published;
    }
    sorted
  }

  /**
   * One element of `rawPosts.map(...)`. `author` is what `populate('author')`
   * found for the post's author id, if anything; a missing or empty name
   * becomes 'Unknown' and a missing or empty picture ''.
   */
  function ToDto(p: Post, author: Option<User>): (d: PostDto)
    ensures d.id == p.id && d.title == p.title && d.content == p.content
    ensures d.likes == p.likes && d.postPic == p.postPic && d.tags == p.tags
    ensures d.authorName == (if author.Some? && author.value.name != "" then author.value.name else UNKNOWN_AUTHOR)
    ensures d.authorPic == (if author.Some? && author.value.profilePic.Some? then author.value.profilePic.value else "")
    ensures d.authorName != ""
  {
    PostDto(p.id, p.title, p.content, p.likes, p.postPic, p.tags,
            if author.Some? && author.value.name != "" then author.value.name else UNKNOWN_AUTHOR,
            if author.Some? && author.value.profilePic.Some? then author.value.profilePic.value else "")
  }

  /** The author `populate` finds: the user with that id in `authors`, the user collection indexed by id. */
  function AuthorOf(authors: map<string, User>, id: string): Option<User> {
    if id in authors then Some(authors[id]) else None
  }

  /** `rawPosts.map(...)`: one DTO per post, in the same order. */
  function ToDtos(posts: seq<Post>, authors: map<string, User>): (r: seq<PostDto>)
    ensures |r| == |posts|
    ensures forall i :: 0 <= i < |posts| ==> r[i] == ToDto(posts[i], AuthorOf(authors, posts[i].author))
    decreases |posts|
  {
    if posts == [] then []
    else [ToDto(posts[0], AuthorOf(authors, posts[0].author))] + ToDtos(posts[1..], authors)
  }

  /** Mapping commutes with concatenation, so the page keeps the query's order block by block. */
  lemma {:induction false} ToDtosAppend(s: seq<Post>, t: seq<Post>, authors: map<string, User>)
    ensures ToDtos(s + t, authors) == ToDtos(s, authors) + ToDtos(t, authors)
    decreases |s|
  {
    if s == [] {
      assert s + t == t;
    } else {
      assert (s + t)[0] == s[0];
      assert (s + t)[1..] == s[1..] + t;
      ToDtosAppend(s[1..], t, authors);
    }
  }

  /** Each DTO of a mapped list comes from one of its posts, and each post has its DTO. */
  lemma DtosOf(posts: seq<Post>, authors: map<string, User>)
    ensures forall i :: 0 <= i < |posts| ==> ToDtos(posts, authors)[i] == ToDto(posts[i], AuthorOf(authors, posts[i].author))
    ensures forall d :: d in ToDtos(posts, authors) <==> exists p :: p in posts && d == ToDto(p, AuthorOf(authors, p.author))
  {
    var r := ToDtos(posts, authors);
    forall d
      ensures d in r <==> exists p :: p in posts && d == ToDto(p, AuthorOf(authors, p.author))
    {
      if d in r {
        var i :| 0 <= i < |r| && r[i] == d;
        assert posts[i] in posts;
      }
      if exists p :: p in posts && d == ToDto(p, AuthorOf(authors, p.author)) {
        var p :| p in posts && d == ToDto(p, AuthorOf(authors, p.author));
        var i :| 0 <= i < |posts| && posts[i] == p;
        assert r[i] == d;
      }
    }
  }

  /** `AllPostsPage`: the published posts, newest first, as DTOs. */
  function AllPosts(table: seq<Post>, authors: map<string, User>): (r: seq<PostDto>)
    ensures |r| == |PublishedNewestFirst(table)|
    ensures forall i :: 0 <= i < |r| ==>
              r[i] == ToDto(PublishedNewestFirst(table)[i], AuthorOf(authors, PublishedNewestFirst(table)[i].author))
    ensures forall d :: d in r <==>
              exists p :: p in table && p.status == Published && d == ToDto(p, AuthorOf(authors, p.author))
  {
    var posts := PublishedNewestFirst(table);
    DtosOf(posts, authors);
    ToDtos(posts, authors)
  }

  /** `searchParams.get("query")?.toLowerCase() || ""` */
  function NormalizeQuery(param: Option<string>): (q: string)
    ensures param.None? ==> q == ""
    ensures param.Some? ==> q == Text.Lower(param.value)
    ensures Text.Lower(q) == q
  {
    Text.LowerIdempotent(if param.Some? then param.value else "");
    if param.Some? then Text.Lower(param.value) else ""
  }

  /** `tags.some(tag => tag.toLowerCase().includes(q))` */
  function SomeTagContains(tags: seq<string>, q: string): (b: bool)
    ensures b <==> exists i :: 0 <= i < |tags| && Text.Contains(Text.Lower(tags[i]), q)
    decreases |tags|
  {
    if tags == [] then false
    else Text.Contains(Text.Lower(tags[0]), q) || SomeTagContains(tags[1..], q)
  }

  /** The `filteredPosts` predicate. */
  predicate Matches(p: PostDto, q: string) {
    Text.Contains(Text.Lower(p.title), q) || SomeTagContains(p.tags, q)
  }

  /** `posts.filter(...)`: the matching posts, in their order. */
  function FilterPosts(posts: seq<PostDto>, q: string): (r: seq<PostDto>)
    ensures forall p :: p in r <==> p in posts && Matches(p, q)
    ensures Seqs.IsSubseq(r, posts)
  {
    Seqs.Filter(posts, (p: PostDto) => Matches(p, q))
  }

  /** The empty query keeps every post. */
  lemma EmptyQueryKeepsAll(posts: seq<PostDto>)
    ensures FilterPosts(posts, "") == posts
  {
    forall i | 0 <= i < |posts|
      ensures Matches(posts[i], "")
    {
      Text.ContainsEmpty(Text.Lower(posts[i].title));
    }
    Seqs.FilterKeepsAll(posts, (p: PostDto) => Matches(p, ""));
  }
}
