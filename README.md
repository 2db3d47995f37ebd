# Inkpulse core, modelled in Dafny

Inkpulse is a Next.js blogging application. Its core is the set of API route
handlers over three backing services: the MongoDB collections of posts,
comments and users, and one Redis instance. Redis holds the read-through
post cache and the one-time password-reset codes. Around the handlers sit
the NextAuth callbacks, the route-protection middleware, the zod request
schemas, and a few pure pieces of the React components:

- the post list query and its DTO mapping;
- the search filter;
- comma-separated tag parsing;
- the 200-code-unit preview;
- the draft card's delete sequence.

The model has one module per source file. Backing services are fields of
classes (`PostRoute.PostApi`, `CommentRoute.CommentApi`,
`UserRoute.UserStore`, `OtpRoutes.OtpStore`, and the `AuthConfig.Token` and
`AuthConfig.Session` objects). Each handler is a method with an `ensures`
for every answer it can give. Each such clause states the status, the
message and the whole new state. Pure code becomes functions and lemmas.
Shared helpers are in `Wrappers`, `Text`, `Seqs`, `Json`, `Http`, `Models`
and `Queries`.

Things outside the program become parameters of the operations:

- the rate limiter's verdict (`Http.Limit`);
- the ObjectId the database assigns;
- the clock reading `now`;
- `bcrypt.hash` and `bcrypt.compareSync`, as function parameters;
- the random draw behind an OTP;
- whether a mail was sent;
- whether a request has a session token;
- how a `fetch` ended.

Four places in the model state properties that link whole groups of
handlers:

- **Cache coherence across the post routes.** `PostRoute.Coherent` says that
  every cache entry equals what the table would answer for its key. GET,
  POST and a cache key expiring always preserve it. PUT and DELETE preserve
  it only while no other spelling of the post's id is cached (see Findings).
  The database casts ids case-insensitively (`Models.CastId`), but cache
  keys keep the id as the request spelled it.
- **The like route breaks cache coherence.** `LikeRoute.LikeLeavesCacheStale`
  shows this (see Findings).
- **Credential sign-in never succeeds.** NextAuth runs the `signIn` callback
  after `authorize`, and that callback denies every provider but Google
  (`AuthConfig.SignInSession`, see Findings).
- **OTP codes are single-use.** `OtpRoutes.ResetTwice` proves that a code
  which has reset a password is refused the second time.

## Model

| member | source | states |
|---|---|---|
| Models.NewPost | src/app/models/Post.ts:13-21 | a new post has the given title, content, author and status; tags default to []; there is no picture and no likes; both timestamps are `now`; it meets Post.ts's required fields, with stored ObjectIds as id and author, exactly when title and content are non-empty and the id and author are lower-case ObjectIds |
| Models.IsObjectId | src/app/schemas/post.schema.ts:14 | `ObjectId.isValid` on a string, which is also when Mongoose can cast it: exactly 24 hexadecimal digits of either case |
| Models.ObjectIdIff | src/app/schemas/post.schema.ts:14 | a string is a valid ObjectId exactly when lower-casing it gives a stored ObjectId, 24 lower-case hexadecimal digits: validity ignores case |
| Models.CastId | src/app/api/post/route.ts:50 | casting a valid id string gives the stored, lower-case form of the same ObjectId; a stored id casts to itself; length is kept |
| Models.IsCanonicalId | src/app/models/Post.ts:19 | a stored ObjectId is 24 lower-case hexadecimal digits, and so a valid id string |
| Models.NewComment | src/app/models/Comment.ts:10-16 | a new comment carries the given fields and timestamps; it meets Comment.ts's validators exactly when its id and both references are stored ObjectIds and the content is non-empty |
| Models.NewUser | src/app/models/User.ts:10-16 | a new user has the given name, e-mail and password and no profile fields; it meets User.ts's required fields exactly when name and e-mail are non-empty |
| Queries.InsertNewestFirst | src/app/api/post/drafts/route.ts:24 | inserting into a newest-first list keeps it newest first and adds exactly the one post (multiset) |
| Queries.SortNewestFirst | src/app/post/page.tsx:12 | `.sort({ createdAt: -1 })` returns a permutation of its input, ordered newest first |
| PostSchema.ParseCreate | src/app/schemas/post.schema.ts:5-17 | the create schema accepts exactly this: a title at least 3 UTF-16 code units long, content at least 10, tags absent or a string array, and an author that is an ObjectId string; the parsed input carries the body's values |
| PostSchema.ParseUpdate | src/app/schemas/post.schema.ts:20 | the update schema accepts exactly this: each of title, content and tags absent or valid; present fields keep their minimum lengths in UTF-16 code units; every present field is the body's value, tags as the body's string array; absence is preserved |
| PostSchema.CreateRoundTrip | src/app/schemas/post.schema.ts:5-17 | every input meeting the rules (lengths in UTF-16 code units), once encoded as a body, parses back to itself |
| PostSchema.CreateParseEncode | src/app/schemas/post.schema.ts:5-17 | every accepted body is the encoding of its parse |
| PostSchema.UpdateAcceptsEmpty | src/app/schemas/post.schema.ts:20 | `{}` passes the update schema |
| PostSchema.UpdateIgnoresAuthor | src/app/schemas/post.schema.ts:5-9 | the update schema's verdict does not depend on `author` |
| PostSchema.CreateAcceptedUpdateAccepted | src/app/schemas/post.schema.ts:20 | whatever the create schema accepts, the update schema accepts too |
| UserSchema.IsEmail | src/app/schemas/user.schema.ts:7 | `z.string().email()` accepts exactly the strings with a single '@', a zod local part before it and a zod domain (labels of letters, digits and '-', then a top-level label of two or more letters) after it |
| UserSchema.EmailShape | src/app/schemas/user.schema.ts:7 | an accepted e-mail address has exactly one '@', and text on both sides of it |
| UserSchema.ParseCreate | src/app/schemas/user.schema.ts:5-9 | accepts exactly: a name at least 1 UTF-16 code unit long, a valid e-mail, and a password that is absent or at least 6 code units; the parse carries the body's values |
| UserSchema.ParseUpdate | src/app/schemas/user.schema.ts:12-18 | every field is optional, e-mail included; present fields meet their rules, with lengths in UTF-16 code units; bio and niche accept any string; every present field is the body's string as sent, the password unhashed; absence is preserved |
| UserSchema.PasswordRuleShared | src/app/schemas/user.schema.ts:8-15 | create and update accept a password under the same rule: absent, or at least 6 UTF-16 code units |
| PostRoute.KeyId | src/app/api/post/route.ts:39 | a key it decodes is `post:` followed by that id |
| PostRoute.PostKeyNamesId | src/app/api/post/route.ts:39-74 | `post:{id}` decodes back to `id` and is never the list key `posts` |
| PostRoute.FindPost | src/app/api/post/route.ts:50 | `findById` of a cast id returns a stored post with that id, or nothing exactly when no stored post has it; handlers pass `CastId` of the request's id |
| PostRoute.ReplacePost | src/app/api/post/route.ts:291-295 | the replaced table keeps the length and the id at every position |
| PostRoute.RemovePost | src/app/api/post/route.ts:366 | `findByIdAndDelete` keeps exactly the posts with other ids, each as often as before, in their original order |
| PostRoute.FindAfterAppend | src/app/api/post/route.ts:187 | after a save with a fresh id, lookups find the new post under its id and answer as before for every other id |
| PostRoute.FindAfterReplace | src/app/api/post/route.ts:291-295 | after an update only the lookup of the updated id changes |
| PostRoute.FindAfterRemove | src/app/api/post/route.ts:366 | after a delete the id is gone and other lookups are unchanged |
| PostRoute.UniqueAfterRemove | src/app/api/post/route.ts:366 | deletion keeps ids unique and keeps only stored posts |
| PostRoute.InvalidationKeepsCoherent | src/app/api/post/route.ts:192-195 | if a write changes the table only at post `id`, any cache that keeps some entries unchanged but drops `posts` and every key naming `id`, in any spelling, stays coherent |
| PostRoute.CachedPostExists | src/app/api/post/route.ts:39-64 | a coherent cache holds `post:{x}` only when `x` is an ObjectId that casts to the id of a stored post |
| PostRoute.Forget | src/app/api/post/route.ts:304-307 | the cache keeps exactly its entries other than `posts` and the keys naming the post in any spelling, with their values |
| PostRoute.FillKeepsCoherent | src/app/api/post/route.ts:64-90 | caching the table's own answer under a key keeps the cache coherent |
| PostRoute.GetKey | src/app/api/post/route.ts:37-39 | GET consults the list key `posts` exactly when no non-empty id is given; otherwise a `post:` key that names the id as spelled |
| PostRoute.StatusOf | src/app/api/post/route.ts:183 | the status is `published` exactly when the request's status is the string "published", and `draft` otherwise |
| PostRoute.ApplyUpdate | src/app/api/post/route.ts:291-295 | the update writes title, content and tags when they are present and leaves everything else alone, including status, author and likes; `updatedAt` becomes `now` |
| PostRoute.PostApi.Get | src/app/api/post/route.ts:15-112 | a denial gives 429 with nothing changed; a cache hit under the key as spelled returns the cached value and changes nothing; an id that is not an ObjectId gives 500; an absent post gives 404 with the cache unchanged; a post found under the cast id is cached as `post:{id}`, with the id as spelled, TTL 3600, and returned; with no id, the whole table, drafts included, is cached under `posts` and returned; coherence is preserved, and a 200 answer is the table's current answer |
| PostRoute.PostApi.Create | src/app/api/post/route.ts:115-215 | a denial gives 429; a schema failure gives 400 with no change; otherwise the new post, holding the raw content and the cast author, is appended, both cache keys are deleted, and coherence is preserved |
| PostRoute.PostApi.Update | src/app/api/post/route.ts:218-328 | a denial gives 429; a missing id gives 400; a schema failure gives 400; a non-ObjectId gives 500; an absent post gives 404 with nothing changed; otherwise only title, content and tags of the post under the cast id are replaced, and `post:{id}` as spelled and `posts` are deleted; only the lookup of that post changes; coherence is preserved when no other spelling of the id was cached |
| PostRoute.PostApi.Delete | src/app/api/post/route.ts:332-398 | a denial gives 429; a missing id gives 400; a non-ObjectId gives 500; an absent post gives 404 with nothing changed; otherwise exactly the post under the cast id is removed and returned, and `post:{id}` as spelled and `posts` are deleted; coherence is preserved when no other spelling of the id was cached |
| PostRoute.PostApi.UpdateInvalidating | src/app/api/post/route.ts:303-307 | PUT with every cached spelling of the id dropped: same answer and table as PUT on success, nothing changed otherwise, and coherence preserved unconditionally |
| PostRoute.PostApi.DeleteInvalidating | src/app/api/post/route.ts:375-379 | DELETE with every cached spelling of the id dropped: the post under the cast id removed and returned on success, nothing changed otherwise, coherence preserved unconditionally |
| PostRoute.PostApi.Expire | src/app/api/post/route.ts:64 | an entry expiring removes only that key and keeps the cache coherent |
| PostRoute.ReplacedAt | src/app/models/Post.ts:15-19 | replacing a post by a well-formed one keeps every post well-formed |
| PostRoute.AuthorCheckUnreachable | src/app/api/post/route.ts:140-155 | once the create schema has accepted a body, its author is present and an ObjectId, so the handler's second author check never fires |
| PostRoute.UpperCaseSpelling | src/app/api/post/route.ts:39-50 | an upper-case id string is a valid ObjectId, differs from the id it casts to, and casts to the lower-case one |
| PostRoute.StaleSpellingAfterUpdate | src/app/api/post/route.ts:304 | for every post and every other spelling of its id: a cache holding the post under that spelling is coherent, and after a PUT under the stored spelling it is not |
| PostRoute.StaleSpellingAfterDelete | src/app/api/post/route.ts:376 | likewise for DELETE: the entry under the other spelling goes on serving the deleted post |
| LikeRoute.Pull | src/app/api/post/like/route.ts:21 | `likes.pull(u)` removes every occurrence of `u`, keeps every other id's membership, and shortens the list by exactly the number of occurrences of `u` |
| LikeRoute.Count | src/app/api/post/like/route.ts:28 | an id occurs zero times exactly when it is absent, and never more often than the list is long |
| LikeRoute.Toggle | src/app/api/post/like/route.ts:18-24 | after the toggle `u` likes the post exactly when it did not before; a like adds exactly one entry, an unlike removes every entry of `u` |
| LikeRoute.PullTwice | src/app/api/post/like/route.ts:21 | pulling twice is pulling once |
| LikeRoute.PullKeepsOthers | src/app/api/post/like/route.ts:21 | pulling `u` keeps the number of occurrences of every other id |
| LikeRoute.ToggleSparesOthers | src/app/api/post/like/route.ts:20-24 | other users' entries are untouched: with `u` removed from both, the list after the toggle equals the list before, in order, and every other id keeps its count |
| LikeRoute.ToggleTwiceRestoresMembership | src/app/api/post/like/route.ts:18-26 | two toggles by the same user restore that user's membership |
| LikeRoute.ToggleTwiceMayReorder | src/app/api/post/like/route.ts:18-26 | two toggles need not restore the list: ["u","v"] becomes ["v","u"] |
| LikeRoute.ToggleTwiceLength | src/app/api/post/like/route.ts:18-28 | two toggles by the same user restore the reported count exactly when that user occurred at most once |
| LikeRoute.ToggleTwiceDropsDuplicate | src/app/api/post/like/route.ts:18-28 | ["u","u"] comes back from an unlike and a like with a count of 1 |
| LikeRoute.PullKeepsNoDuplicates | src/app/api/post/like/route.ts:21 | pulling from a list without duplicates leaves none |
| LikeRoute.CountAtMostOne | src/app/api/post/like/route.ts:18 | in a list without duplicates every id occurs at most once |
| LikeRoute.ToggleKeepsNoDuplicates | src/app/api/post/like/route.ts:18-24 | a toggle keeps a list free of duplicates, and two toggles then restore its length |
| LikeRoute.LikedPost | src/app/api/post/like/route.ts:18-26 | the saved post is the loaded one with likes toggled; it stays well-formed |
| LikeRoute.Like | src/app/api/post/like/route.ts:7-29 | no session user gives 401; an absent `postId` or post gives 404; a non-ObjectId gives 500; all of these leave the table unchanged; otherwise only the likes of the post under the cast id are toggled, the answer is "Unliked" or "Liked" with the new length, and the cache is left as it was |
| LikeRoute.LikeLeavesCacheStale | src/app/api/post/like/route.ts:26 | for every stored post and user, a cache holding that post is coherent before the like and incoherent after it |
| LikeRoute.LikeInvalidating | src/app/api/post/like/route.ts:26 | the like route with `posts` and every cached spelling of the post's id deleted on success; it keeps the cache coherent |
| CommentRoute.CommentsOf | src/app/api/comment/route.ts:56 | `Comment.find({ postId })` of a cast id returns exactly the comments stored with that post id, in collection order |
| CommentRoute.FindComment | src/app/api/comment/route.ts:99 | a lookup of a cast id returns a stored comment with that id, or nothing exactly when none has it |
| CommentRoute.RemoveComment | src/app/api/comment/route.ts:99 | deletion keeps exactly the comments with other ids, each as often as before, in their original order |
| CommentRoute.RemoveAbsent | src/app/api/comment/route.ts:99-106 | removing an unknown id changes nothing |
| CommentRoute.DeleteAfterCreate | src/app/api/comment/route.ts:20-111 | deleting a comment just created restores the collection |
| CommentRoute.ListAfterCreate | src/app/api/comment/route.ts:20-56 | a new comment appears at the end of its post's list |
| CommentRoute.ListOtherAfterCreate | src/app/api/comment/route.ts:20-56 | a new comment leaves other posts' lists unchanged |
| CommentRoute.UniqueAfterRemoveComment | src/app/api/comment/route.ts:99 | deletion keeps comment ids unique |
| CommentRoute.CommentApi.Create | src/app/api/comment/route.ts:6-38 | a missing or empty field gives 400 with nothing stored; an id that is not an ObjectId gives 500; otherwise exactly one comment is appended, holding the cast post and user ids, without checking that the post or user exists |
| CommentRoute.CommentApi.List | src/app/api/comment/route.ts:41-81 | a missing postId gives 400; a non-ObjectId gives 500; no comment under the cast id gives 404; otherwise exactly that post's comments are returned; nothing changes |
| CommentRoute.CommentApi.Delete | src/app/api/comment/route.ts:84-124 | a missing id gives 400; a non-ObjectId gives 500; an unknown cast id gives 404; otherwise exactly that comment is removed and returned |
| UserRoute.ViewOf | src/app/api/user/route.ts:96 | the view carries every field of the user except the password |
| UserRoute.ViewHidesPassword | src/app/api/user/route.ts:96 | the view does not depend on the password |
| UserRoute.ViewDeterminesAllButPassword | src/app/api/user/route.ts:96-97 | users with equal views differ at most in their passwords |
| UserRoute.SetFields | src/app/api/user/route.ts:140-144 | `$set` writes the supplied fields as given, the password included without hashing; every other field, and the e-mail, stays |
| UserRoute.SetFieldsIdempotent | src/app/api/user/route.ts:140-144 | applying the same `$set` twice equals applying it once |
| UserRoute.SetNothing | src/app/api/user/route.ts:132-137 | an update naming no field would only refresh `updatedAt` |
| UserRoute.UserStore.Register | src/app/api/user/route.ts:9-67 | a schema failure gives 500; an e-mail already in use gives 400; no password gives 500 (`bcrypt.hash` throws); all of these leave the table unchanged; otherwise the user is stored with the hash of the password, and the answer is name, e-mail and id |
| UserRoute.UserStore.Find | src/app/api/user/route.ts:70-110 | a missing e-mail gives 400; an unknown one gives 404; otherwise the user's view without its password |
| UserRoute.UserStore.Update | src/app/api/user/route.ts:113-174 | a schema failure gives 500; a missing e-mail gives 400; no other field gives 400; an unknown user gives 404; all of these change nothing; otherwise only that user gets the supplied fields |
| UserRoute.UserStore.Remove | src/app/api/user/route.ts:177-221 | a missing e-mail gives 400; an unknown one gives 404; otherwise exactly that user is removed and its e-mail returned |
| UserRoute.RegisteredUserFound | src/app/api/user/route.ts:31-40 | a registered user is found under its e-mail with the hashed password, and nothing else in the table changes |
| OtpRoutes.KeyNamespacesDisjoint | src/app/api/auth/request-otp/route.ts:29 | `otp:` keys never collide with the post cache's keys |
| OtpRoutes.OtpKeyInjective | src/app/api/auth/request-otp/route.ts:29 | different addresses have different code keys |
| OtpRoutes.OtpCode | src/app/api/auth/request-otp/route.ts:26 | a code is 6 decimal digits whose value is 100000 plus the draw, so it lies in 100000..999999 |
| OtpRoutes.OtpCodeInjective | src/app/api/auth/request-otp/route.ts:26 | different draws give different codes |
| OtpRoutes.DeletedNeverMatches | src/app/api/auth/verify-otp/route.ts:42 | once the key is deleted, no code matches for that address |
| OtpRoutes.MatchesOnlyIssued | src/app/api/auth/verify-otp/route.ts:20-23 | after a code is stored, exactly that code matches |
| OtpRoutes.OtpStore.Request | src/app/api/auth/request-otp/route.ts:13-51 | a malformed e-mail gives 500 and an unknown user 404, both storing nothing; otherwise the code is stored at `otp:{email}` with TTL 600, replacing any earlier one, and the answer is 200, or 500 with the code kept when the mail fails |
| OtpRoutes.OtpStore.Verify | src/app/api/auth/verify-otp/route.ts:7-52 | a missing field gives 400; a missing or different code gives 400; no user gives 404 with the code kept; all of these change nothing; otherwise the password becomes the hash of the new one and the code key is deleted |
| OtpRoutes.OtpStore.Expire | src/app/api/auth/request-otp/route.ts:29 | an expired code removes only its own key |
| OtpRoutes.ResetTwice | src/app/api/auth/verify-otp/route.ts:42-47 | after a successful reset, the same request is refused with "Invalid or expired OTP" |
| ProfileSetup.Completed | src/app/api/profile/setup/route.ts:18-28 | the body's present fields are written and `profileCompleted` becomes true; id, e-mail and password stay |
| ProfileSetup.CompletedIdempotent | src/app/api/profile/setup/route.ts:18-28 | submitting the same profile twice equals submitting it once |
| ProfileSetup.FullBodyOverwrites | src/app/api/profile/setup/route.ts:18-28 | a body naming all four fields decides the whole profile |
| ProfileSetup.Setup | src/app/api/profile/setup/route.ts:7-39 | no session e-mail gives 401; an unknown user gives 404; both change nothing; otherwise only the session user is updated |
| DraftsRoute.DraftsOf | src/app/api/post/drafts/route.ts:21-24 | every returned post is a draft by that author; every such post is returned, with multiplicity; the list is newest first |
| DraftsRoute.Drafts | src/app/api/post/drafts/route.ts:9-33 | no session e-mail gives 401; an unknown session user gives 500; otherwise the user's drafts, newest first |
| AuthConfig.Authorize | src/app/config/auth.config.ts:18-32 | `null` when e-mail or password is missing, or the user is unknown, or the compare fails; for a user without a password it throws; exactly `{id, email, name}` when the compare succeeds |
| AuthConfig.AuthorizeHashed | src/app/config/auth.config.ts:27 | with a faithful compare, the stored password's plaintext is accepted, and any other password only when its hash is the same |
| AuthConfig.SignIn | src/app/config/auth.config.ts:43-65 | every provider except Google is denied; a known Google user is allowed and nothing is created; an unknown one is saved with a null password; a save missing name or e-mail throws |
| AuthConfig.OAuthUserCannotUseCredentials | src/app/config/auth.config.ts:27-57 | a user created by Google sign-in makes the credential check throw |
| AuthConfig.Token.Jwt | src/app/config/auth.config.ts:78-85 | on sign-in, copies id, name and e-mail from the user; otherwise the token is unchanged |
| AuthConfig.Session.Rebuild | src/app/config/auth.config.ts:66-76 | `session.user` is rebuilt from the token's id, name, e-mail and picture alone; `profileCompleted` is never set |
| AuthConfig.SignInSession | src/app/config/auth.config.ts:18-85 | a credential sign-in runs `authorize`, then `signIn` with the credentials provider; it is never admitted, whatever the password, and the session and token identity are left as they were |
| AuthConfig.CompleteSignIn | src/app/config/auth.config.ts:66-85 | when `signIn` allowed, the session ends up with the user's id, name and e-mail and the token's picture; otherwise session and token identity are unchanged |
| AuthConfig.SignInAllowingCredentials | src/app/config/auth.config.ts:43-65 | `signIn` corrected: the credentials provider is allowed with no change; Google and other providers are handled as before |
| AuthConfig.CredentialSignInSession | src/app/config/auth.config.ts:18-85 | with the corrected callback, a credential sign-in is admitted exactly when `authorize` accepts, and the session then holds the account's id, name and e-mail |
| Middleware.IsProtected | src/middleware.ts:20-22 | a path is protected exactly when it starts with one of the four protected routes |
| Middleware.SomePrefix | src/middleware.ts:20-22 | `some(startsWith)` holds exactly when one of the routes is a prefix of the path |
| Middleware.Decide | src/middleware.ts:5-32 | a redirect to "/auth/signin" with the original URL as `callbackUrl` exactly when the path is protected and there is no token; otherwise pass through |
| Middleware.TokenAlwaysPasses | src/middleware.ts:24-31 | with a token every path passes |
| Middleware.ProtectedIff | src/middleware.ts:10-22 | a path is protected exactly when it starts with "/dashboard", "/editor", "/your-profile" or "/post/create" |
| Middleware.EditorialIsProtected | src/middleware.ts:20-22 | plain prefix matching counts "/editorial" as protected |
| Middleware.MatchedIsProtected | src/middleware.ts:34-41 | every path the matcher runs the middleware on is protected |
| Middleware.Route | src/middleware.ts:5-41 | with the matcher in front, a redirect happens exactly on matched paths without a token |
| Middleware.EditorialNeverRedirected | src/middleware.ts:34-41 | "/editorial" is outside the matcher and always passes |
| PostListing.PublishedNewestFirst | src/app/post/page.tsx:10-13 | exactly the published posts, with multiplicity, newest first |
| PostListing.ToDto | src/app/post/page.tsx:15-25 | the DTO keeps the post's fields; a missing or empty author name becomes 'Unknown' and a missing or empty picture '' |
| PostListing.ToDtos | src/app/post/page.tsx:15 | the mapping keeps count and order, one DTO per post |
| PostListing.ToDtosAppend | src/app/post/page.tsx:15 | mapping commutes with concatenation |
| PostListing.DtosOf | src/app/post/page.tsx:15-25 | the mapped list holds exactly the DTOs of the posts |
| PostListing.AllPosts | src/app/post/page.tsx:7-29 | the DTO at each position is that of the published post at the same position of the newest-first query, with its author; so one DTO for each published post, and a DTO exactly when it comes from a published post |
| PostListing.NormalizeQuery | src/app/post/AllPostClient.tsx:25-31 | a missing parameter gives ""; otherwise the lower-cased query; the result is already lower case |
| PostListing.SomeTagContains | src/app/post/AllPostClient.tsx:37 | holds exactly when some lower-cased tag contains the query |
| PostListing.FilterPosts | src/app/post/AllPostClient.tsx:35-38 | keeps exactly the posts whose lower-cased title or some lower-cased tag contains the query, as an order-preserving subsequence |
| PostListing.EmptyQueryKeepsAll | src/app/post/AllPostClient.tsx:25-38 | the empty query keeps every post |
| Text.Split | src/components/EditorSetupModal.tsx:36 | `split(',')` always yields at least one piece, and no piece contains the separator |
| Text.JoinSplit | src/components/EditorSetupModal.tsx:36 | joining the pieces of a split with the separator gives the input back |
| Text.SplitJoin | src/components/EditorSetupModal.tsx:36 | splitting separator-free pieces joined by the separator gives the pieces back |
| Text.Trim | src/components/EditorSetupModal.tsx:37 | `trim()` yields the block of the input that has only white space before and after it and none at either end of its own, so exactly the leading and trailing white space is removed |
| Text.Lower | src/app/post/AllPostClient.tsx:36 | lower-casing keeps the length and maps each character |
| Text.LowerIdempotent | src/app/post/AllPostClient.tsx:25-36 | lower-casing twice is lower-casing once |
| Text.ContainsIff | src/app/post/AllPostClient.tsx:36 | `includes` holds exactly when the query occurs at some position |
| Text.Utf16 | src/app/schemas/post.schema.ts:6 | a string's JavaScript length is between its number of characters and twice that, equal to the first exactly when every character is in the Basic Multilingual Plane, and to the second exactly when none is |
| Text.Utf16Char | src/app/schemas/post.schema.ts:6 | a character takes one code unit, or two outside the Basic Multilingual Plane |
| Text.Utf16LengthOfEmoji | src/app/schemas/post.schema.ts:6 | "\U{1F600}a" has length 3 |
| Json.StringMin | src/app/schemas/post.schema.ts:6 | `z.string().min(n)` needs a present string; `n` characters always suffice, and fewer than `n / 2` never do, because length counts UTF-16 code units |
| Json.MinCountsCodeUnits | src/app/schemas/post.schema.ts:6 | the two-character "\U{1F600}a" meets `min(3)` |
| EditorSetup.TrimAll | src/components/EditorSetupModal.tsx:37 | each piece is trimmed, in place |
| EditorSetup.TrimmedPieces | src/components/EditorSetupModal.tsx:35-37 | every trimmed piece of the split is empty or a clean tag, made of the input's characters |
| EditorSetup.ParseTags | src/components/EditorSetupModal.tsx:35-38 | every tag is non-empty, has no white space at its ends, contains no ',', and uses only the input's characters; the tags are an order-keeping subsequence of the trimmed pieces holding every non-empty piece as often as it occurs and no empty one, that is, the non-empty trimmed pieces in input order |
| EditorSetup.OnlySeparatorsGiveNoTags | src/components/EditorSetupModal.tsx:35-38 | input of only commas and white space gives [] |
| EditorSetup.TrimAllClean | src/components/EditorSetupModal.tsx:37 | trimming clean tags changes nothing |
| EditorSetup.CleanTagsRoundTrip | src/components/EditorSetupModal.tsx:35-38 | clean tags joined with ',' parse back to themselves, in order |
| EditorSetup.ParseTagsCanonical | src/components/EditorSetupModal.tsx:35-38 | re-parsing the joined result of a parse gives the same tags |
| EditorSetup.Submit | src/components/EditorSetupModal.tsx:35-42 | `onSubmit` receives the title as typed and the parsed tags |
| EditorSetup.UntouchedForm | src/components/EditorSetupModal.tsx:23-24 | the untouched form submits 'Untitled Post' and no tags |
| PostCards.Preview | src/components/PostCard.tsx:38 | on the text's UTF-16 code units: a text shorter than 200 units is unchanged; otherwise its first 200 units plus "..."; the preview always starts with the first min(200, length) units and is at most 203 units long |
| PostCards.PreviewIdempotent | src/components/DraftsPostCard.tsx:37 | previewing a preview changes nothing |
| PostCards.PreviewSeesOnlyThePrefix | src/components/DraftsPostCard.tsx:37 | long texts that agree on their first 200 code units have the same preview |
| PostCards.ExactlyTwoHundred | src/components/PostCard.tsx:38 | a text of exactly 200 code units gets "..." after it |
| PostCards.PreviewCountsCodeUnits | src/components/PostCard.tsx:38 | 100 characters outside the Basic Multilingual Plane count as 200 and get the ellipsis |
| PostCards.LikesLabel | src/components/PostCard.tsx:70 | "like" exactly when the count is 1, "likes" otherwise, 0 included |
| PostCards.PrefixedPath | src/components/PostCard.tsx:71 | a card's link is the page prefix followed by the post id |
| PostCards.PathsInjective | src/components/DraftsPostCard.tsx:41-43 | different posts lead to different pages, for "Read more" and for "Edit" |
| PostCards.ReadMoreIsPublic | src/components/PostCard.tsx:71 | a post page with an ObjectId id is never protected by the middleware |
| PostCards.EditIsProtected | src/components/DraftsPostCard.tsx:42 | the editor page is protected |
| PostCards.HandleDelete | src/components/DraftsPostCard.tsx:45-64 | unconfirmed does nothing; confirmed sends DELETE to `/api/post?id=`; `onDelete` is called exactly on an ok response, with the card's id; each outcome shows its toast |

## Left out

- The rate limiter (src/lib/rateLimiter.ts) is a wrapper over a library this model does not include. Its verdict is an input. The wrapper ignores its constructor arguments and always allows 10 requests per 60 seconds, so the `(5, 30)` in the post route only names the key prefix.
- Redis, MongoDB, Cloudinary, nodemailer, winston and Sentry are modelled as maps and sequences, or left out. Connecting, logging and error reporting have no effect on the model.
- Key expiry: each entry stores its TTL (3600 or 600 seconds), and expiry is a separate step (`Expire`). The clock itself is not modelled.
- Concurrency: each handler is one atomic step. Races such as the like route's read-modify-write or a cache stampede are not modelled.
- `sanitizeHtml` is not modelled; the handlers never use its result. `html-to-text`'s `convert` is not modelled either; the preview is modelled on the extracted text.
- `bcrypt` hash and compare are function parameters, and `Math.random` is a natural-number draw below 900000. Floating-point rounding is not modelled.
- `ObjectId.isValid` and Mongoose's cast are modelled as "24 hexadecimal digits", cast case-insensitively to the lower-case stored id. The 12-byte string and number forms are not modelled.
- zod's e-mail rule is modelled as its pattern over ASCII letters and digits. `toLowerCase` is modelled for ASCII letters only; `trim` removes ASCII white space, the no-break space and the byte-order mark, not the other Unicode space characters.
- Handlers that read single fields take each one as an optional string: the comment route's body and query fields, the like route's `postId`, the OTP routes' `email`, `otp` and `newPassword`, the profile setup body, the user route's `email`, and the post route's `id`. A body field sent as a JSON number, boolean, `null` or array cannot be expressed there. The source would pass such a value on to Mongoose's cast, to `redis`, or to `bcrypt`, and those paths are not modelled. Query parameters are always strings or absent, so they lose nothing.
- JSON request values are strings, integers, booleans, `null` and arrays. Objects and non-integer numbers are not modelled. The exact JSON layout of response bodies is not modelled either: a response is a status, a message and the returned data.
- The user schema lists no `profilePic`, `niche`, `bio` or `profileCompleted`, and the post schema lists no `likes` or `status`. They are modelled as if declared, because the handlers read and write them. Under Mongoose's default strict mode these writes would be dropped. The Mongoose version, and so its `strictQuery` default, is not part of this model. The lines below name the members this affects and say what the code as written would do.
- PostRoute.StatusOf: in strict mode the status it computes is dropped on save, so no stored post has a status at all.
- PostListing.PublishedNewestFirst: in strict mode `find({ status: 'published' })` does not return the published posts. With `strictQuery` on, the unknown filter is removed and every post is returned. With it off, no stored post has a status and none is returned.
- DraftsRoute.DraftsOf: in strict mode `find({ status: 'draft', author })` likewise returns either all of the author's posts or none of them.
- LikeRoute.Like: in strict mode `post.likes` is undefined on a loaded post, so `post.likes.includes` throws and every like is answered 500 with nothing saved.
- ProfileSetup.Completed: in strict mode only `name` is written. `profilePic`, `niche`, `bio` and `profileCompleted: true` are stripped from the update.
- ProfileSetup.Setup: in strict mode the answer is still `{ success: true }` although only `name` changed, so the profile is never marked completed.
- UserRoute.SetFields: in strict mode a present `bio` or `niche` is stripped from the `$set`; only name, password and `updatedAt` are written.
- UserRoute.UserStore.Update: in strict mode a body naming only `bio` or `niche` passes the "at least one field" check and is answered 200 "User updated successfully." while only `updatedAt` changes.
- UserRoute.ViewOf: in strict mode a stored user has no `profilePic`, `niche`, `bio` or `profileCompleted`, so the view never shows them.
- PostListing.ToDto: in strict mode no user has a stored `profilePic`, so `authorPic` is always ''.
- `populate()` in the comment list and the drafts query is not modelled. Comments and drafts are returned with their raw ids.
- PostListing.ToDto: `post.likes ?? []` and the string conversion of ids are not modelled, because every stored post has a likes list of strings.
- AuthConfig.SignIn: a missing profile e-mail is modelled as never matching an existing user. Mongoose's handling of `findOne({ email: undefined })` is not modelled.
- The middleware's redirect URL is modelled as the sign-in path plus the original URL as `callbackUrl`. Building the full URL object is not modelled.
- Upload routes (src/app/api/upload/route.ts, src/app/api/post/upload/route.ts, src/app/api/profile/upload/route.ts, src/app/api/post/upload-thumbnail/route.ts) are Cloudinary calls and are not part of this model. The thumbnail route also changes posts without invalidating the cache.
- The trending route (src/app/api/post/trending/route.ts) relies on MongoDB's sort order for array fields and is not part of this model.
- Text.Utf16 and PostCards.Preview: JavaScript strings may hold unpaired surrogates, which a Dafny string cannot. The preview works on code units, so it covers them; the schemas see only strings of characters.
- UI, React state, localStorage, timers and toasts are not modelled. The only exceptions are the pure expressions listed in the table and the draft card's delete sequence.

## Findings

| source | as written | input that shows it | evidently intended | confidence | as-written member | corrected member |
|---|---|---|---|---|---|---|
| src/app/api/post/route.ts:304 | PUT deletes `post:{id}` with the id as the request spelled it, while GET caches a post under any spelling the database accepts, and hex digits are case-insensitive | GET `?id=` with the id in upper case (cached as `post:{UPPER}`), then PUT `?id=` with the lower-case id: GET with the upper-case id keeps answering the old post | drop every cached spelling of the post, or key the cache by the cast id | not executed | PostRoute.StaleSpellingAfterUpdate | PostRoute.PostApi.UpdateInvalidating |
| src/app/api/post/route.ts:376 | DELETE deletes `post:{id}` only as spelled, like PUT | as above with DELETE: the upper-case key keeps serving the deleted post | as above | not executed | PostRoute.StaleSpellingAfterDelete | PostRoute.PostApi.DeleteInvalidating |
| src/app/config/auth.config.ts:64 | `signIn` returns false for every provider but Google, and NextAuth runs it after a credentials `authorize` too | any registered user signing in with the correct e-mail and password: `authorize` returns the user, `signIn` denies it, and no session is created | allow the credentials provider, whose check `authorize` already made | not executed | AuthConfig.SignInSession | AuthConfig.CredentialSignInSession |
| src/app/api/post/like/route.ts:26 | the like route saves the toggled post but deletes neither `post:{id}` nor `posts` from the cache, unlike every other write to posts | a post cached under `post:{id}`, then any like or unlike of it: GET keeps answering the old likes until the entry expires | delete `post:{id}` and `posts` after the save, as the post route's writes do | not executed | LikeRoute.LikeLeavesCacheStale | LikeRoute.LikeInvalidating |
