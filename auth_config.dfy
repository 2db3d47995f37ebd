/**
 * src/app/config/auth.config.ts: the NextAuth options' credential check and
 * callbacks. `compare` stands for `bcrypt.compareSync(plain, hash)`.
 */
module AuthConfig {
  import opened Wrappers
  import opened Json
  import opened Models
  import UserRoute

  /** `{ id, email, name }`, the only fields `authorize` hands NextAuth. */
  datatype AuthUser = AuthUser(id: string, email: string, name: string)

  /**
   * `authorize`'s outcome: a user, `null`, or an exception. A user stored
   * without a password (an OAuth account) makes `compareSync(password,
   * undefined)` throw.
   */
  datatype AuthResult = Accepted(user: AuthUser) | Rejected | Threw

  function Authorize(users: map<string, User>, email: Option<string>, password: Option<string>,
                     compare: (string, string) -> bool): (r: AuthResult)
    ensures !(Truthy(email) && Truthy(password)) ==> r == Rejected
    ensures Truthy(email) && Truthy(password) && email.value !in users ==> r == Rejected
    ensures r.Threw? <==> Truthy(email) && Truthy(password) && email.value in users && users[email.value].password.None?
    ensures r.Accepted? <==>
              && Truthy(email) && Truthy(password) && email.value in users
              && users[email.value].password.Some?
              && compare(password.value, users[email.value].password.value)
    ensures r.Accepted? ==>
              var u := users[email.value];
              r.user == AuthUser(u.id, u.email, u.name)
  {
    if !(Truthy(email) && Truthy(password)) then Rejected
    else if email.value !in users then Rejected
    else
      var u := users[email.value];
      if u.password.None? then Threw
      else if compare(password.value, u.password.value) then Accepted(AuthUser(u.id, u.email, u.name))
      else Rejected
  }

  /**
   * With `compare` a faithful check of a hash (`compare(p, h)` exactly when
   * `h == hash(p)`), a user whose stored password is `hash(p)` gets in with
   * `p` and with no other password `hash` tells apart from it.
   */
  lemma AuthorizeHashed(users: map<string, User>, email: string, p: string, q: string,
                        hash: string -> string, compare: (string, string) -> bool)
    requires forall x, h :: compare(x, h) <==> h == hash(x)
    requires email != "" && p != "" && q != ""
    requires email in users && users[email].password == Some(hash(p))
    ensures Authorize(users, Some(email), Some(p), compare).Accepted?
    ensures Authorize(users, Some(email), Some(q), compare).Accepted? <==> hash(q) == hash(p)
  {
  }

  /** Which identity provider the sign-in came through. */
  datatype Provider = Google | Credentials | Other(name: string)

  /** `signIn`'s outcome: allowed, denied, or an exception from `save()`. */
  datatype SignInResult = Allow | Deny | SignInError

  /**
   * The `signIn` callback. A Google user unknown by e-mail is saved with a
   * null password; a missing name or e-mail fails User.ts's `required`
   * validators and `save()` throws. Every other provider, credentials
   * included, is denied.
   */
  method SignIn(store: UserRoute.UserStore, provider: Provider, profileName: Option<string>,
                profileEmail: Option<string>, newId: string, now: nat) returns (r: SignInResult)
    requires store.Valid() && (provider == Google ==> UserRoute.IdFree(store.users, newId))
    modifies store
    ensures store.Valid()
    ensures provider != Google ==> r == Deny && store.users == old(store.users)
    ensures provider == Google && Truthy(profileEmail) && profileEmail.value in old(store.users) ==>
              r == Allow && store.users == old(store.users)
    ensures provider == Google && !(Truthy(profileEmail) && profileEmail.value in old(store.users)) ==>
              if Truthy(profileEmail) && Truthy(profileName) then
                && r == Allow
                && store.users == old(store.users)[profileEmail.value :=
                     NewUser(newId, profileName.value, profileEmail.value, None, now)]
              else
                r == SignInError && store.users == old(store.users)
    ensures r == Allow ==> Truthy(profileEmail) && profileEmail.value in store.users
  {
    if provider != Google {
      return Deny;
    }
    if Truthy(profileEmail) && profileEmail.value in store.users {
      return Allow;
    }
    if !(Truthy(profileEmail) && Truthy(profileName)) {
      return SignInError;
    }
    store.users := store.users[profileEmail.value := NewUser(newId, profileName.value, profileEmail.value, None, now)];
    return Allow;
  }

  /** A Google account created by `signIn` cannot pass the credential check: `authorize` throws. */
  lemma OAuthUserCannotUseCredentials(users: map<string, User>, name: string, email: string, id: string,
                                      now: nat, password: string, compare: (string, string) -> bool)
    requires email != "" && password != ""
    ensures Authorize(users[email := NewUser(id, name, email, None, now)], Some(email), Some(password), compare) == Threw
  {
  }

  /** The JWT's own fields. */
  class Token {
    var id: Option<string>
    var name: Option<string>
    var email: Option<string>
    var picture: Option<string>

    constructor (picture: Option<string>)
      ensures id.None? && name.None? && email.None? && this.picture == picture
    {
      id := None;
      name := None;
      email := None;
      this.picture := picture;
    }

    /** The `jwt` callback: on sign-in copy the user's id, name and e-mail; otherwise keep the token. */
    method Jwt(user: Option<AuthUser>)
      modifies this
      ensures user.Some? ==> id == Some(user.value.id) && name == Some(user.value.name) && email == Some(user.value.email)
      ensures user.None? ==> id == old(id) && name == old(name) && email == old(email)
      ensures picture == old(picture)
    {
      if user.Some? {
        id := Some(user.value.id);
        name := Some(user.value.name);
        email := Some(user.value.email);
      }
    }
  }

  /**
   * `session.user` after the `session` callback. next-auth.d.ts declares a
   * `profileCompleted` for it, which the callback never sets.
   */
  datatype SessionUser = SessionUser(id: Option<string>, name: Option<string>, email: Option<string>,
                                     image: Option<string>, profileCompleted: Option<bool>)

  class Session {
    var user: Option<SessionUser>

    constructor ()
      ensures user.None?
    {
      user := None;
    }

    /** The `session` callback: rebuild `session.user` from the token alone. */
    method Rebuild(token: Token?)
      modifies this
      ensures token != null ==>
                user == Some(SessionUser(token.id, token.name, token.email, token.picture, None))
      ensures token == null ==> user == old(user)
      ensures token != null ==> user.value.profileCompleted.None?
    {
      if token != null {
        user := Some(SessionUser(token.id, token.name, token.email, token.picture, None));
      }
    }
  }

  /**
   * The `jwt` and `session` callbacks, which NextAuth runs only once
   * `signIn` allowed the sign-in; otherwise token and session stay as they were.
   */
  method CompleteSignIn(user: AuthUser, verdict: SignInResult, token: Token, session: Session)
    modifies token, session
    ensures verdict == Allow ==>
              session.user == Some(SessionUser(Some(user.id), Some(user.name), Some(user.email), old(token.picture), None))
    ensures verdict != Allow ==>
              && session.user == old(session.user)
              && token.id == old(token.id) && token.name == old(token.name) && token.email == old(token.email)
  {
    if verdict == Allow {
      token.Jwt(Some(user));
      session.Rebuild(token);
    }
  }

  /**
   * A credential sign-in as NextAuth runs it: `authorize`, then the
   * `signIn` callback with the credentials provider, then both other
   * callbacks. `signIn` denies every provider but Google, so even a correct
   * password never reaches the session: `admitted` is always false.
   */
  method SignInSession(store: UserRoute.UserStore, email: Option<string>, password: Option<string>,
                       compare: (string, string) -> bool, token: Token, session: Session)
    returns (r: AuthResult, admitted: bool)
    requires store.Valid()
    modifies store, token, session
    ensures store.Valid() && store.users == old(store.users)
    ensures r == Authorize(old(store.users), email, password, compare)
    ensures !admitted
    ensures session.user == old(session.user)
    ensures token.id == old(token.id) && token.name == old(token.name) && token.email == old(token.email)
  {
    r := Authorize(store.users, email, password, compare);
    admitted := false;
    if r.Accepted? {
      var verdict := SignIn(store, Credentials, Some(r.user.name), Some(r.user.email), r.user.id, 0);
      CompleteSignIn(r.user, verdict, token, session);
      admitted := verdict == Allow;
    }
  }

  /**
   * `signIn` as it evidently should be: a user the credentials provider
   * already authorized is allowed; Google and the other providers are
   * handled as before.
   */
  method SignInAllowingCredentials(store: UserRoute.UserStore, provider: Provider, profileName: Option<string>,
                                   profileEmail: Option<string>, newId: string, now: nat) returns (r: SignInResult)
    requires store.Valid() && (provider == Google ==> UserRoute.IdFree(store.users, newId))
    modifies store
    ensures store.Valid()
    ensures provider == Credentials ==> r == Allow && store.users == old(store.users)
    ensures provider.Other? ==> r == Deny && store.users == old(store.users)
    ensures provider == Google && Truthy(profileEmail) && profileEmail.value in old(store.users) ==>
              r == Allow && store.users == old(store.users)
    ensures provider == Google && !(Truthy(profileEmail) && profileEmail.value in old(store.users)) ==>
              if Truthy(profileEmail) && Truthy(profileName) then
                && r == Allow
                && store.users == old(store.users)[profileEmail.value :=
                     NewUser(newId, profileName.value, profileEmail.value, None, now)]
              else
                r == SignInError && store.users == old(store.users)
  {
    if provider == Credentials {
      return Allow;
    }
    r := SignIn(store, provider, profileName, profileEmail, newId, now);
  }

  /**
   * The credential sign-in with the corrected callback: exactly the users
   * `authorize` accepts are admitted, and the session then carries the
   * account's id, name and e-mail.
   */
  method CredentialSignInSession(store: UserRoute.UserStore, email: Option<string>, password: Option<string>,
                                 compare: (string, string) -> bool, token: Token, session: Session)
    returns (r: AuthResult, admitted: bool)
    requires store.Valid()
    modifies store, token, session
    ensures store.Valid() && store.users == old(store.users)
    ensures r == Authorize(old(store.users), email, password, compare)
    ensures admitted <==> r.Accepted?
    ensures r.Accepted? ==>
              var u := old(store.users)[email.value];
              session.user == Some(SessionUser(Some(u.id), Some(u.name), Some(u.email), old(token.picture), None))
    ensures !r.Accepted? ==> session.user == old(session.user)
  {
    r := Authorize(store.users, email, password, compare);
    admitted := false;
    if r.Accepted? {
      var verdict := SignInAllowingCredentials(store, Credentials, Some(r.user.name), Some(r.user.email), r.user.id, 0);
      CompleteSignIn(r.user, verdict, token, session);
      admitted := verdict == Allow;
    }
  }
}
