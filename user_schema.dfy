/** src/app/schemas/user.schema.ts: the zod schemas for creating and updating a user. */
module UserSchema {
  import opened Wrappers
  import opened Json
  import Text

  datatype UserCreateBody = UserCreateBody(name: Option<Value>, email: Option<Value>, password: Option<Value>)

  datatype UserUpdateBody = UserUpdateBody(name: Option<Value>, email: Option<Value>, password: Option<Value>,
                                           bio: Option<Value>, niche: Option<Value>)

  /** A body that passed `userCreateSchema`. */
  datatype UserInput = UserInput(name: string, email: string, password: Option<string>)

  /** A body that passed `userUpdateSchema`; absent keys stay absent. */
  datatype UserUpdate = UserUpdate(name: Option<string>, email: Option<string>, password: Option<string>,
                                   bio: Option<string>, niche: Option<string>)

  predicate IsLetter(c: char) {
    ('a' <= c <= 'z') || ('A' <= c <= 'Z')
  }

  predicate IsAlnum(c: char) {
    IsLetter(c) || ('0' <= c <= '9')
  }

  /** zod's local part: `[A-Z0-9_'+\-.]*[A-Z0-9_+-]`, not starting with '.', no "..". */
  predicate LocalPartOk(l: string) {
    && |l| >= 1
    && l[0] != '.'
    && (IsAlnum(l[|l| - 1]) || l[|l| - 1] == '_' || l[|l| - 1] == '+' || l[|l| - 1] == '-')
    && (forall i :: 0 <= i < |l| ==> IsAlnum(l[i]) || l[i] in "_'+-.")
    && (forall i :: 0 <= i < |l| - 1 ==> !(l[i] == '.' && l[i + 1] == '.'))
  }

  /** zod's domain label `[A-Z0-9][A-Z0-9\-]*` */
  predicate LabelOk(x: string) {
    |x| >= 1 && IsAlnum(x[0]) && forall i :: 0 <= i < |x| ==> IsAlnum(x[i]) || x[i] == '-'
  }

  /** zod's top-level label `[A-Z]{2,}` */
  predicate TopLevelOk(x: string) {
    |x| >= 2 && forall i :: 0 <= i < |x| ==> IsLetter(x[i])
  }

  /** zod's domain `([A-Z0-9][A-Z0-9\-]*\.)+[A-Z]{2,}` */
  predicate DomainOk(d: string) {
    var labels := Text.Split(d, '.');
    && |labels| >= 2
    && TopLevelOk(labels[|labels| - 1])
    && (forall i :: 0 <= i < |labels| - 1 ==> LabelOk(labels[i]))
  }

  /** The only '@' of `s` is at `i`, with a valid local part before it and a valid domain after it. */
  predicate SplitsAt(s: string, i: int)
    requires 0 <= i < |s|
  {
    s[i] == '@' && '@' !in s[..i] && '@' !in s[i + 1..] && LocalPartOk(s[..i]) && DomainOk(s[i + 1..])
  }

  /** Splitting at '@' gives two valid pieces exactly when the text around a single '@' is valid. */
  lemma EmailPieces(s: string)
    ensures (var parts := Text.Split(s, '@'); |parts| == 2 && LocalPartOk(parts[0]) && DomainOk(parts[1]))
            <==> exists i :: 0 <= i < |s| && SplitsAt(s, i)
  {
    var parts := Text.Split(s, '@');
    if |parts| == 2 && LocalPartOk(parts[0]) && DomainOk(parts[1]) {
      Text.JoinSplit(s, '@');
      assert Text.Join(parts[1..], '@') == parts[1];
      var i := |parts[0]|;
      assert s == parts[0] + "@" + parts[1];
      assert s[..i] == parts[0] && s[i + 1..] == parts[1];
      assert parts[0] in parts && parts[1] in parts;
      assert SplitsAt(s, i);
    }
    if exists i :: 0 <= i < |s| && SplitsAt(s, i) {
      var i :| 0 <= i < |s| && SplitsAt(s, i);
      var pieces := [s[..i], s[i + 1..]];
      assert pieces[1..] == [s[i + 1..]];
      assert s == s[..i] + [s[i]] + s[i + 1..];
      assert Text.Join(pieces, '@') == s;
      Text.SplitJoin(pieces, '@');
    }
  }

  /** `z.string().email()`: zod's e-mail pattern, case-insensitive, over ASCII. */
  predicate IsEmail(s: string): (b: bool)
    ensures b <==> exists i :: 0 <= i < |s| && SplitsAt(s, i)
  {
    var parts := Text.Split(s, '@');
    EmailPieces(s);
    |parts| == 2 && LocalPartOk(parts[0]) && DomainOk(parts[1])
  }

  /** An accepted e-mail address is a local part, one '@' and a domain; in particular it is not empty. */
  lemma EmailShape(s: string)
    requires IsEmail(s)
    ensures exists i :: 0 < i < |s| && s[i] == '@' && '@' !in s[..i] && '@' !in s[i + 1..]
    ensures s != ""
  {
    var parts := Text.Split(s, '@');
    Text.JoinSplit(s, '@');
    assert Text.Join(parts[1..], '@') == parts[1];
    assert s == parts[0] + "@" + parts[1];
    var i := |parts[0]|;
    assert s[i] == '@' && s[..i] == parts[0] && s[i + 1..] == parts[1];
    assert parts[0] in parts && parts[1] in parts;
  }

  predicate EmailValue(v: Option<Value>) {
    v.Some? && v.value.Str? && IsEmail(v.value.s)
  }

  /** `userCreateSchema.parse(body)`; `None` is the ZodError it throws. */
  function ParseCreate(b: UserCreateBody): (r: Option<UserInput>)
    ensures r.Some? <==> StringMin(b.name, 1) && EmailValue(b.email) && OptionalStringMin(b.password, 6)
    ensures r.Some? ==> b.name == Some(Str(r.value.name)) && |Text.Utf16(r.value.name)| >= 1
    ensures r.Some? ==> b.email == Some(Str(r.value.email)) && IsEmail(r.value.email)
    ensures r.Some? ==> (r.value.password.None? <==> b.password.None?)
    ensures r.Some? && r.value.password.Some? ==> |Text.Utf16(r.value.password.value)| >= 6 && b.password == Some(Str(r.value.password.value))
  {
    if StringMin(b.name, 1) && EmailValue(b.email) && OptionalStringMin(b.password, 6)
    then Some(UserInput(b.name.value.s, b.email.value.s, StringOf(b.password)))
    else None
  }

  predicate OptionalEmail(v: Option<Value>) {
    v.None? || EmailValue(v)
  }

  /** `userUpdateSchema.parse(body)`: every field optional, email included. */
  function ParseUpdate(b: UserUpdateBody): (r: Option<UserUpdate>)
    ensures r.Some? <==> OptionalStringMin(b.name, 1) && OptionalEmail(b.email) && OptionalStringMin(b.password, 6)
                         && OptionalStringMin(b.bio, 0) && OptionalStringMin(b.niche, 0)
    ensures r.Some? ==> (r.value.name.None? <==> b.name.None?) && (r.value.email.None? <==> b.email.None?)
                        && (r.value.password.None? <==> b.password.None?) && (r.value.bio.None? <==> b.bio.None?)
                        && (r.value.niche.None? <==> b.niche.None?)
    ensures r.Some? && r.value.name.Some? ==> |Text.Utf16(r.value.name.value)| >= 1 && b.name == Some(Str(r.value.name.value))
    ensures r.Some? && r.value.email.Some? ==> IsEmail(r.value.email.value) && b.email == Some(Str(r.value.email.value))
    ensures r.Some? && r.value.password.Some? ==>
              |Text.Utf16(r.value.password.value)| >= 6 && b.password == Some(Str(r.value.password.value))
    ensures r.Some? && r.value.bio.Some? ==> b.bio == Some(Str(r.value.bio.value))
    ensures r.Some? && r.value.niche.Some? ==> b.niche == Some(Str(r.value.niche.value))
  {
    if OptionalStringMin(b.name, 1) && OptionalEmail(b.email) && OptionalStringMin(b.password, 6)
       && OptionalStringMin(b.bio, 0) && OptionalStringMin(b.niche, 0)
    then Some(UserUpdate(StringOf(b.name), StringOf(b.email), StringOf(b.password), StringOf(b.bio), StringOf(b.niche)))
    else None
  }

  /** A password is accepted by both schemas exactly when it is absent or at least six code units long. */
  lemma PasswordRuleShared(b: UserCreateBody, bio: Option<Value>, niche: Option<Value>)
    requires StringMin(b.name, 1) && EmailValue(b.email)
    requires OptionalStringMin(bio, 0) && OptionalStringMin(niche, 0)
    ensures ParseCreate(b).Some? <==> OptionalStringMin(b.password, 6)
    ensures ParseUpdate(UserUpdateBody(b.name, b.email, b.password, bio, niche)).Some? <==> OptionalStringMin(b.password, 6)
  {
  }
}
