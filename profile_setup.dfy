/**
 * src/app/api/profile/setup/route.ts: the signed-in user completes a profile.
 * `findOneAndUpdate` writes the fields present in the body (Mongoose drops
 * keys whose value is `undefined`) and sets `profileCompleted`. No
 * validators run, so nothing here checks the values.
 */
module ProfileSetup {
  import opened Wrappers
  import opened Json
  import opened Models
  import opened Http
  import UserRoute

  /** `{ name, profilePic, niche, bio }` from the body; `None` is an absent key. */
  datatype ProfileBody = ProfileBody(name: Option<string>, profilePic: Option<string>,
                                     niche: Option<string>, bio: Option<string>)

  function Completed(u: User, b: ProfileBody, now: nat): (w: User)
    ensures w.id == u.id && w.email == u.email && w.password == u.password && w.createdAt == u.createdAt
    ensures w.profileCompleted && w.updatedAt == now
    ensures w.name == (if b.name.Some? then b.name.value else u.name)
    ensures w.profilePic == (if b.profilePic.Some? then b.profilePic else u.profilePic)
    ensures w.niche == (if b.niche.Some? then b.niche else u.niche)
    ensures w.bio == (if b.bio.Some? then b.bio else u.bio)
  {
    u.(name := b.name.GetOr(u.name),
       profilePic := if b.profilePic.Some? then b.profilePic else u.profilePic,
       niche := if b.niche.Some? then b.niche else u.niche,
       bio := if b.bio.Some? then b.bio else u.bio,
       profileCompleted := true,
       updatedAt := now)
  }

  /** Submitting the same profile again changes nothing further. */
  lemma CompletedIdempotent(u: User, b: ProfileBody, now: nat)
    ensures Completed(Completed(u, b, now), b, now) == Completed(u, b, now)
  {
  }

  /** A body naming every field decides the whole profile, whatever it was before. */
  lemma FullBodyOverwrites(u: User, w: User, b: ProfileBody, now: nat)
    requires b.name.Some? && b.profilePic.Some? && b.niche.Some? && b.bio.Some?
    requires u.id == w.id && u.email == w.email && u.password == w.password && u.createdAt == w.createdAt
    ensures Completed(u, b, now) == Completed(w, b, now)
  {
  }

  /** POST /api/profile/setup for the session's e-mail (`None` when there is no session). */
  method Setup(users: UserRoute.UserStore, sessionEmail: Option<string>, body: ProfileBody, now: nat)
    returns (r: Response<()>)
    requires users.Valid()
    modifies users
    ensures users.Valid()
    ensures !Truthy(sessionEmail) ==> r == Fail(UNAUTHORIZED, "Unauthorized") && users.users == old(users.users)
    ensures Truthy(sessionEmail) && sessionEmail.value !in old(users.users) ==>
              r == Fail(NOT_FOUND, "User not found") && users.users == old(users.users)
    ensures Truthy(sessionEmail) && sessionEmail.value in old(users.users) ==>
              && users.users == old(users.users)[sessionEmail.value := Completed(old(users.users)[sessionEmail.value], body, now)]
              && r == Done("")
  {
    if !Truthy(sessionEmail) {
      return Fail(UNAUTHORIZED, "Unauthorized");
    }
    var email := sessionEmail.value;
    if email !in users.users {
      return Fail(NOT_FOUND, "User not found");
    }
    users.users := users.users[email := Completed(users.users[email], body, now)];
    return Done("");
  }
}
