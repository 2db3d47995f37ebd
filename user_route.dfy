/**
 * src/app/api/user/route.ts: registration, lookup, `$set` update and deletion
 * of accounts, over the user collection keyed by e-mail (User.ts declares
 * `email` unique).
 *
 * A body that fails its zod schema makes `parse` throw; the handler's catch
 * answers 500, not 400.
 */
module UserRoute {
  import opened Wrappers
  import opened Json
  import opened Models
  import opened Http
  import UserSchema

  /** `{ name, email, _id }`: what registration answers. */
  datatype UserSummary = UserSummary(name: string, email: string, id: string)

  /** `const { password, ...userData } = user.toObject()`: a user without its password. */
  datatype UserView = UserView(
    id: string, name: string, email: string,
    profilePic: Option<string>, niche: Option<string>, bio: Option<string>,
    profileCompleted: bool, createdAt: nat, updatedAt: nat)

  function ViewOf(u: User): (v: UserView)
    ensures v.id == u.id && v.name == u.name && v.email == u.email
    ensures v.profilePic == u.profilePic && v.niche == u.niche && v.bio == u.bio
    ensures v.profileCompleted == u.profileCompleted
    ensures v.createdAt == u.createdAt && v.updatedAt == u.updatedAt
  {
    UserView(u.id, u.name, u.email, u.profilePic, u.niche, u.bio, u.profileCompleted, u.createdAt, u.updatedAt)
  }

  /** The view reveals nothing about the password: users differing only in it look the same. */
  lemma ViewHidesPassword(u: User, password: Option<string>)
    ensures ViewOf(u.(password := password)) == ViewOf(u)
  {
  }

  /** Two users with the same view differ at most in their passwords. */
  lemma ViewDeterminesAllButPassword(u: User, w: User)
    requires ViewOf(u) == ViewOf(w)
    ensures u == w.(password := u.password)
  {
  }

  /** Whether the update names any field besides `email` (`Object.keys(updates).length`). */
  predicate HasChanges(upd: UserSchema.UserUpdate) {
    upd.name.Some? || upd.password.Some? || upd.bio.Some? || upd.niche.Some?
  }

  /**
   * `findOneAndUpdate({ email }, { $set: updates })`: the supplied fields are
   * written as given (the password is not hashed), the rest stay as they were.
   */
  function SetFields(u: User, upd: UserSchema.UserUpdate, now: nat): (w: User)
    ensures w.id == u.id && w.email == u.email && w.createdAt == u.createdAt && w.updatedAt == now
    ensures w.profilePic == u.profilePic && w.profileCompleted == u.profileCompleted
    ensures w.name == (if upd.name.Some? then upd.name.value else u.name)
    ensures w.password == (if upd.password.Some? then upd.password else u.password)
    ensures w.bio == (if upd.bio.Some? then upd.bio else u.bio)
    ensures w.niche == (if upd.niche.Some? then upd.niche else u.niche)
  {
    u.(name := upd.name.GetOr(u.name),
       password := if upd.password.Some? then upd.password else u.password,
       bio := if upd.bio.Some? then upd.bio else u.bio,
       niche := if upd.niche.Some? then upd.niche else u.niche,
       updatedAt := now)
  }

  /** Applying the same `$set` twice is the same as applying it once. */
  lemma SetFieldsIdempotent(u: User, upd: UserSchema.UserUpdate, now: nat)
    ensures SetFields(SetFields(u, upd, now), upd, now) == SetFields(u, upd, now)
  {
  }

  /** An update that names no field only refreshes `updatedAt`. */
  lemma SetNothing(u: User, upd: UserSchema.UserUpdate, now: nat)
    requires !HasChanges(upd)
    ensures SetFields(u, upd, now) == u.(updatedAt := now)
  {
  }

  /** A stored user lives under its own e-mail, and ids are unique. */
  ghost predicate KeyedByEmail(users: map<string, User>) {
    forall e :: e in users ==> users[e].email == e
  }

  predicate IdFree(users: map<string, User>, id: string) {
    forall e :: e in users ==> users[e].id != id
  }

  class UserStore {
    var users: map<string, User>

    ghost predicate Valid()
      reads this
    {
      && KeyedByEmail(users)
      && forall e, f :: e in users && f in users && e != f ==> users[e].id != users[f].id
    }

    constructor ()
      ensures Valid() && users == map[]
    {
      users := map[];
    }

    /**
     * POST /api/user. `hash` stands for `bcrypt.hash(·, 10)`, `newId` for the
     * ObjectId the database assigns, `now` for the clock. With no password
     * in the body, `bcrypt.hash(undefined)` throws and the answer is 500.
     */
    method Register(body: UserSchema.UserCreateBody, hash: string -> string, newId: string, now: nat)
      returns (r: Response<UserSummary>)
      requires Valid() && IdFree(users, newId)
      modifies this
      ensures Valid()
      ensures UserSchema.ParseCreate(body).None? ==>
                r == Fail(SERVER_ERROR, "Failed to create user") && users == old(users)
      ensures UserSchema.ParseCreate(body).Some? ==>
                var input := UserSchema.ParseCreate(body).value;
                if input.email in old(users) then
                  r == Fail(BAD_REQUEST, "Email is already in use") && users == old(users)
                else if input.password.None? then
                  r == Fail(SERVER_ERROR, "Failed to create user") && users == old(users)
                else
                  && users == old(users)[input.email := NewUser(newId, input.name, input.email, Some(hash(input.password.value)), now)]
                  && r == Ok("User created successfully", UserSummary(input.name, input.email, newId))
    {
      var parsed := UserSchema.ParseCreate(body);
      if parsed.None? {
        return Fail(SERVER_ERROR, "Failed to create user");
      }
      var input := parsed.value;
      if input.email in users {
        return Fail(BAD_REQUEST, "Email is already in use");
      }
      if input.password.None? {
        return Fail(SERVER_ERROR, "Failed to create user");
      }
      var u := NewUser(newId, input.name, input.email, Some(hash(input.password.value)), now);
      users := users[input.email := u];
      return Ok("User created successfully", UserSummary(u.name, u.email, u.id));
    }

    /** GET /api/user?email=… */
    method Find(email: Option<string>) returns (r: Response<UserView>)
      requires Valid()
      ensures !Truthy(email) ==> r == Fail(BAD_REQUEST, "Email query parameter is required")
      ensures Truthy(email) && email.value !in users ==> r == Fail(NOT_FOUND, "User not found")
      ensures Truthy(email) && email.value in users ==>
                r == Ok("User fetched successfully", ViewOf(users[email.value]))
                && r.data.value.email == email.value
    {
      if !Truthy(email) {
        return Fail(BAD_REQUEST, "Email query parameter is required");
      }
      if email.value !in users {
        return Fail(NOT_FOUND, "User not found");
      }
      return Ok("User fetched successfully", ViewOf(users[email.value]));
    }

    /** PUT /api/user: the user is chosen by `email`, which the update never changes. */
    method Update(body: UserSchema.UserUpdateBody, now: nat) returns (r: Response<UserView>)
      requires Valid()
      modifies this
      ensures Valid()
      ensures UserSchema.ParseUpdate(body).None? ==>
                r == Fail(SERVER_ERROR, "Failed to update user.") && users == old(users)
      ensures UserSchema.ParseUpdate(body).Some? ==>
                var upd := UserSchema.ParseUpdate(body).value;
                if upd.email.None? then
                  r == Fail(BAD_REQUEST, "Email is required to identify the user to update.") && users == old(users)
                else if !HasChanges(upd) then
                  r == Fail(BAD_REQUEST, "At least one field to update must be provided.") && users == old(users)
                else if upd.email.value !in old(users) then
                  r == Fail(NOT_FOUND, "User not found.") && users == old(users)
                else
                  var w := SetFields(old(users)[upd.email.value], upd, now);
                  && users == old(users)[upd.email.value := w]
                  && r == Ok("User updated successfully.", ViewOf(w))
    {
      var parsed := UserSchema.ParseUpdate(body);
      if parsed.None? {
        return Fail(SERVER_ERROR, "Failed to update user.");
      }
      var upd := parsed.value;
      if upd.email.None? {
        return Fail(BAD_REQUEST, "Email is required to identify the user to update.");
      }
      if !HasChanges(upd) {
        return Fail(BAD_REQUEST, "At least one field to update must be provided.");
      }
      var email := upd.email.value;
      if email !in users {
        return Fail(NOT_FOUND, "User not found.");
      }
      var w := SetFields(users[email], upd, now);
      users := users[email := w];
      return Ok("User updated successfully.", ViewOf(w));
    }

    /** DELETE /api/user with `{ email }`; answers the deleted user's e-mail. */
    method Remove(email: Option<string>) returns (r: Response<string>)
      requires Valid()
      modifies this
      ensures Valid()
      ensures !Truthy(email) ==> r == Fail(BAD_REQUEST, "Email is required to delete a user.") && users == old(users)
      ensures Truthy(email) && email.value !in old(users) ==>
                r == Fail(NOT_FOUND, "User not found.") && users == old(users)
      ensures Truthy(email) && email.value in old(users) ==>
                users == old(users) - {email.value} && r == Ok("User deleted successfully.", email.value)
    {
      if !Truthy(email) {
        return Fail(BAD_REQUEST, "Email is required to delete a user.");
      }
      if email.value !in users {
        return Fail(NOT_FOUND, "User not found.");
      }
      var gone := users[email.value];
      users := users - {email.value};
      return Ok("User deleted successfully.", gone.email);
    }
  }

  /** Registration stores the hash of the password, and the new user is found under its e-mail. */
  lemma RegisteredUserFound(users: map<string, User>, input: UserSchema.UserInput, hash: string -> string,
                            id: string, now: nat)
    requires input.email !in users && input.password.Some?
    ensures var u := NewUser(id, input.name, input.email, Some(hash(input.password.value)), now);
            var users' := users[input.email := u];
            && input.email in users'
            && users'[input.email].password == Some(hash(input.password.value))
            && ViewOf(users'[input.email]).name == input.name
            && users' - {input.email} == users
  {
    var u := NewUser(id, input.name, input.email, Some(hash(input.password.value)), now);
    var users' := users[input.email := u];
    assert users' - {input.email} == users;
  }
}
