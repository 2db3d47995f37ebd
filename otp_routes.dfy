/**
 * The password-reset flow: src/app/api/auth/request-otp/route.ts stores a
 * one-time code under `otp:{email}`, src/app/api/auth/verify-otp/route.ts
 * checks it, sets the new password's hash and deletes the code.
 *
 * The codes live in the same Redis instance as the post cache; they are a
 * map of their own here, and `KeyNamespacesDisjoint` shows the two key
 * families never meet.
 */
module OtpRoutes {
  import opened Wrappers
  import opened Json
  import opened Models
  import opened Http
  import Text
  import PostRoute
  import UserSchema
  import UserRoute

  datatype OtpEntry = OtpEntry(code: string, ttl: nat)

  const OTP_TTL: nat := 600

  function OtpKey(email: string): string {
    "otp:" + email
  }

  /** No code key is a post cache key, so codes and cached posts never overwrite each other. */
  lemma KeyNamespacesDisjoint(email: string, id: string)
    ensures OtpKey(email) != PostRoute.PostKey(id)
    ensures OtpKey(email) != PostRoute.ALL_POSTS_KEY
  {
    assert OtpKey(email)[1] == 't';
    assert PostRoute.PostKey(id)[1] == 'o';
    assert PostRoute.ALL_POSTS_KEY[1] == 'o';
  }

  /** Distinct addresses have distinct code keys. */
  lemma OtpKeyInjective(e: string, f: string)
    requires OtpKey(e) == OtpKey(f)
    ensures e == f
  {
    assert e == OtpKey(e)[4..];
    assert f == OtpKey(f)[4..];
  }

  /**
   * `Math.floor(100000 + Math.random() * 900000).toString()`, with the
   * random draw given as the integer part `draw` of `Math.random() * 900000`.
   */
  function OtpCode(draw: nat): (code: string)
    requires draw < 900000
    ensures |code| == 6
    ensures forall i :: 0 <= i < |code| ==> Text.IsDigit(code[i])
    ensures 100000 <= Text.DecimalValue(code) <= 999999
    ensures Text.DecimalValue(code) == 100000 + draw
  {
    var code := Text.NatToString(100000 + draw);
    assert Text.Pow10(5) == 100000 && Text.Pow10(6) == 1000000;
    Text.NatToStringLength(100000 + draw, 5);
    Text.DecimalRoundTrip(100000 + draw);
    code
  }

  /** Different draws give different codes: every code in 100000..999999 can come up. */
  lemma OtpCodeInjective(d1: nat, d2: nat)
    requires d1 < 900000 && d2 < 900000 && OtpCode(d1) == OtpCode(d2)
    ensures d1 == d2
  {
  }

  /** `!storedOtp || storedOtp !== otp` is false: a non-empty code is stored and equals `otp`. */
  predicate Matches(entries: map<string, OtpEntry>, email: string, otp: string) {
    OtpKey(email) in entries && entries[OtpKey(email)].code != "" && entries[OtpKey(email)].code == otp
  }

  /** Once the key is deleted, no code matches for that address. */
  lemma DeletedNeverMatches(entries: map<string, OtpEntry>, email: string, otp: string)
    ensures !Matches(entries - {OtpKey(email)}, email, otp)
  {
  }

  /** What the stored code for an address reads, if any. */
  function StoredCode(entries: map<string, OtpEntry>, email: string): Option<string> {
    if OtpKey(email) in entries then Some(entries[OtpKey(email)].code) else None
  }

  /** A code stored by a request is the only one that matches afterwards. */
  lemma MatchesOnlyIssued(entries: map<string, OtpEntry>, email: string, draw: nat, otp: string)
    requires draw < 900000
    ensures Matches(entries[OtpKey(email) := OtpEntry(OtpCode(draw), OTP_TTL)], email, otp) <==> otp == OtpCode(draw)
  {
  }

  class OtpStore {
    var entries: map<string, OtpEntry>

    constructor ()
      ensures entries == map[]
    {
      entries := map[];
    }

    /**
     * POST /api/auth/request-otp. `draw` is the random choice, `mailSent`
     * whether `sendMail` resolved. The code is stored before the mail is
     * sent, so a mail failure leaves it in place; the code itself is never
     * part of the answer.
     */
    method Request(users: UserRoute.UserStore, email: Option<Value>, draw: nat, mailSent: bool)
      returns (r: Response<()>)
      requires draw < 900000
      modifies this
      ensures r.data.None?
      ensures !UserSchema.EmailValue(email) ==>
                r == Fail(SERVER_ERROR, "Failed to send OTP") && entries == old(entries)
      ensures UserSchema.EmailValue(email) && email.value.s !in users.users ==>
                r == Fail(NOT_FOUND, "User not found") && entries == old(entries)
      ensures UserSchema.EmailValue(email) && email.value.s in users.users ==>
                && entries == old(entries)[OtpKey(email.value.s) := OtpEntry(OtpCode(draw), OTP_TTL)]
                && r == (if mailSent then Done("OTP sent successfully") else Fail(SERVER_ERROR, "Failed to send OTP"))
    {
      if !UserSchema.EmailValue(email) {
        return Fail(SERVER_ERROR, "Failed to send OTP");
      }
      var address := email.value.s;
      if address !in users.users {
        return Fail(NOT_FOUND, "User not found");
      }
      entries := entries[OtpKey(address) := OtpEntry(OtpCode(draw), OTP_TTL)];
      if !mailSent {
        return Fail(SERVER_ERROR, "Failed to send OTP");
      }
      return Done("OTP sent successfully");
    }

    /**
     * POST /api/auth/verify-otp. `hash` stands for `bcrypt.hash(·, 10)`.
     * The code is checked before the user is looked up; when no user has
     * the address the answer is 404 and the code is kept.
     */
    method Verify(users: UserRoute.UserStore, email: Option<string>, otp: Option<string>,
                  newPassword: Option<string>, hash: string -> string, now: nat)
      returns (r: Response<()>)
      requires users.Valid()
      modifies this, users
      ensures users.Valid()
      ensures r.data.None?
      ensures !(Truthy(email) && Truthy(otp) && Truthy(newPassword)) ==>
                r == Fail(BAD_REQUEST, "All fields are required")
                && entries == old(entries) && users.users == old(users.users)
      ensures Truthy(email) && Truthy(otp) && Truthy(newPassword) ==>
                if !Matches(old(entries), email.value, otp.value) then
                  r == Fail(BAD_REQUEST, "Invalid or expired OTP")
                  && entries == old(entries) && users.users == old(users.users)
                else if email.value !in old(users.users) then
                  r == Fail(NOT_FOUND, "User not found")
                  && entries == old(entries) && users.users == old(users.users)
                else
                  && users.users == old(users.users)[email.value :=
                       old(users.users)[email.value].(password := Some(hash(newPassword.value)), updatedAt := now)]
                  && entries == old(entries) - {OtpKey(email.value)}
                  && r == Done("Password reset successful")
    {
      if !(Truthy(email) && Truthy(otp) && Truthy(newPassword)) {
        return Fail(BAD_REQUEST, "All fields are required");
      }
      var address := email.value;
      if !Matches(entries, address, otp.value) {
        return Fail(BAD_REQUEST, "Invalid or expired OTP");
      }
      if address !in users.users {
        return Fail(NOT_FOUND, "User not found");
      }
      var u := users.users[address];
      users.users := users.users[address := u.(password := Some(hash(newPassword.value)), updatedAt := now)];
      entries := entries - {OtpKey(address)};
      return Done("Password reset successful");
    }

    /** Redis dropping a code whose ten minutes have run out. */
    method Expire(key: string)
      modifies this
      ensures entries == old(entries) - {key}
    {
      entries := entries - {key};
    }
  }

  /** A code that has reset a password once is refused the second time. */
  method ResetTwice(store: OtpStore, users: UserRoute.UserStore, email: Option<string>, otp: Option<string>,
                    newPassword: Option<string>, hash: string -> string, now: nat)
    returns (first: Response<()>, second: Response<()>)
    requires users.Valid()
    modifies store, users
    ensures first.status == OK ==> second == Fail(BAD_REQUEST, "Invalid or expired OTP")
  {
    first := store.Verify(users, email, otp, newPassword, hash, now);
    if first.status == OK {
      DeletedNeverMatches(old(store.entries), email.value, otp.value);
    }
    second := store.Verify(users, email, otp, newPassword, hash, now);
  }
}
