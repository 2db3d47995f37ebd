/**
 * The three document shapes (src/app/models/Post.ts, Comment.ts, User.ts),
 * with the fields the route handlers actually read and write.
 *
 * Gaps in the declared schemas, modelled here as if declared:
 * - Post.ts declares no `status` and no `likes`, although the post routes
 *   write `status` and the like route reads and writes `likes`.
 * - User.ts declares no `profilePic`, `niche`, `bio` or `profileCompleted`,
 *   although profile setup and the user update write them.
 * Under Mongoose's default strict schemas those writes would not persist.
 */
module Models {
  import opened Wrappers
  import Text

  predicate IsHexDigit(c: char) {
    ('0' <= c <= '9') || ('a' <= c <= 'f') || ('A' <= c <= 'F')
  }

  /**
   * `mongoose.Types.ObjectId.isValid(s)` for a string, which is also when
   * Mongoose can cast `s` to an ObjectId: 24 hexadecimal digits.
   */
  predicate IsObjectId(s: string) {
    |s| == 24 && forall i :: 0 <= i < |s| ==> IsHexDigit(s[i])
  }

  predicate IsLowerHexDigit(c: char) {
    ('0' <= c <= '9') || ('a' <= c <= 'f')
  }

  /** How an ObjectId reads back from the database: 24 lower-case hexadecimal digits. */
  predicate IsCanonicalId(s: string): (b: bool)
    ensures b ==> IsObjectId(s)
  {
    |s| == 24 && forall i :: 0 <= i < |s| ==> IsLowerHexDigit(s[i])
  }

  /** An id string is valid exactly when lower-casing it gives a stored ObjectId: hex digits are case-insensitive. */
  lemma ObjectIdIff(s: string)
    ensures IsObjectId(s) <==> IsCanonicalId(Text.Lower(s))
  {
  }

  /**
   * The ObjectId Mongoose casts a valid id string to, as it reads back:
   * the hexadecimal digits are case-insensitive, and stored ids are lower case.
   */
  function CastId(s: string): (r: string)
    ensures |r| == |s|
    ensures IsObjectId(s) ==> IsCanonicalId(r)
    ensures IsCanonicalId(s) ==> r == s
  {
    Text.Lower(s)
  }

  datatype Status = Draft | Published

  /** A post document; `createdAt`/`updatedAt` come from `timestamps: true`. */
  datatype Post = Post(
    id: string,
    title: string,
    content: string,
    tags: seq<string>,
    postPic: Option<string>,
    author: string,
    status: Status,   // not declared in Post.ts
    likes: seq<string>,  // not declared in Post.ts
    createdAt: nat,
    updatedAt: nat)

  datatype Comment = Comment(
    id: string,
    postId: string,
    userId: string,
    content: string,
    createdAt: nat,
    updatedAt: nat)

  datatype User = User(
    id: string,
    name: string,
    email: string,
    password: Option<string>,
    profilePic: Option<string>,  // not declared in User.ts
    niche: Option<string>,       // not declared in User.ts
    bio: Option<string>,         // not declared in User.ts
    profileCompleted: bool,      // not declared in User.ts
    createdAt: nat,
    updatedAt: nat)

  /**
   * What Post.ts's validators demand of a saved post: `required` title,
   * content and author (Mongoose's `required` refuses the empty string);
   * its own id and the author reference are stored ObjectIds.
   */
  predicate PostShape(p: Post) {
    IsCanonicalId(p.id) && p.title != "" && p.content != "" && IsCanonicalId(p.author)
  }

  /** Comment.ts: the two references and the id are stored ObjectIds; content is required. */
  predicate CommentShape(c: Comment) {
    IsCanonicalId(c.id) && IsCanonicalId(c.postId) && IsCanonicalId(c.userId) && c.content != ""
  }

  /** User.ts: `name` and `email` are required; `password` is optional. */
  predicate UserShape(u: User) {
    u.name != "" && u.email != ""
  }

  /**
   * `new Post({ title, content, tags, author, status })` followed by `save()`:
   * tags default to [], there is no thumbnail yet, both timestamps are `now`.
   */
  function NewPost(id: string, title: string, content: string, tags: Option<seq<string>>,
                   author: string, status: Status, now: nat): (p: Post)
    ensures p.id == id && p.title == title && p.content == content && p.author == author
    ensures p.status == status
    ensures tags.None? ==> p.tags == []
    ensures tags.Some? ==> p.tags == tags.value
    ensures p.postPic.None? && p.likes == []
    ensures p.createdAt == now && p.updatedAt == now
    ensures IsCanonicalId(id) && title != "" && content != "" && IsCanonicalId(author) <==> PostShape(p)
  {
    Post(id, title, content, tags.GetOr([]), None, author, status, [], now, now)
  }

  /** `Comment.create({ postId, userId, content })` */
  function NewComment(id: string, postId: string, userId: string, content: string, now: nat): (c: Comment)
    ensures c.id == id && c.postId == postId && c.userId == userId && c.content == content
    ensures c.createdAt == now && c.updatedAt == now
    ensures IsCanonicalId(id) && IsCanonicalId(postId) && IsCanonicalId(userId) && content != "" <==> CommentShape(c)
  {
    Comment(id, postId, userId, content, now, now)
  }

  /** `new User({ name, email, password })` followed by `save()`. */
  function NewUser(id: string, name: string, email: string, password: Option<string>, now: nat): (u: User)
    ensures u.id == id && u.name == name && u.email == email && u.password == password
    ensures u.profilePic.None? && u.niche.None? && u.bio.None? && !u.profileCompleted
    ensures u.createdAt == now && u.updatedAt == now
    ensures name != "" && email != "" <==> UserShape(u)
  {
    User(id, name, email, password, None, None, None, false, now, now)
  }
}
