/**
 * src/app/schemas/post.schema.ts: the zod schemas for creating and updating
 * a post, as parsers from the request's JSON fields to typed inputs.
 */
module PostSchema {
  import opened Wrappers
  import opened Json
  import opened Models
  import Text

  /** The fields of the request body the schemas look at; unknown keys are stripped. */
  datatype PostBody = PostBody(title: Option<Value>, content: Option<Value>,
                               tags: Option<Value>, author: Option<Value>)

  /** A body that passed `postSchema` (the create schema). */
  datatype PostInput = PostInput(title: string, content: string,
                                 tags: Option<seq<string>>, author: string)

  /** A body that passed `postUpdateSchema`: every field optional. */
  datatype PostUpdate = PostUpdate(title: Option<string>, content: Option<string>,
                                   tags: Option<seq<string>>)

  predicate AllStrings(items: seq<Value>) {
    forall i :: 0 <= i < |items| ==> items[i].Str?
  }

  /** `z.array(z.string()).optional()` */
  predicate OptionalStringList(v: Option<Value>) {
    v.None? || (v.value.Arr? && AllStrings(v.value.items))
  }

  /** `z.custom(value => mongoose.Types.ObjectId.isValid(value))` */
  predicate ObjectIdValue(v: Option<Value>) {
    v.Some? && v.value.Str? && IsObjectId(v.value.s)
  }

  /** The strings of an all-string JSON array, in order. */
  function Strings(items: seq<Value>): (r: seq<string>)
    requires AllStrings(items)
    ensures |r| == |items|
    ensures forall i :: 0 <= i < |items| ==> items[i] == Str(r[i])
    decreases |items|
  {
    if items == [] then [] else [items[0].s] + Strings(items[1..])
  }

  /** A list of strings as a JSON array. */
  function StringArray(xs: seq<string>): (v: Value)
    ensures v.Arr? && |v.items| == |xs| && AllStrings(v.items)
  {
    Arr(seq(|xs|, i requires 0 <= i < |xs| => Str(xs[i])))
  }

  /** An all-string JSON array is the array of its strings. */
  lemma {:induction false} ArrayOfStrings(items: seq<Value>)
    requires AllStrings(items)
    ensures StringArray(Strings(items)) == Arr(items)
  {
    var back := StringArray(Strings(items)).items;
    assert forall i :: 0 <= i < |items| ==> back[i] == items[i];
  }

  /** The tags of an accepted `tags` field: absent, or exactly the array's strings. */
  function TagsOf(v: Option<Value>): (r: Option<seq<string>>)
    requires OptionalStringList(v)
    ensures r.None? <==> v.None?
    ensures r.Some? ==> v == Some(StringArray(r.value))
  {
    if v.None? then None
    else
      var items := v.value.items;
      ArrayOfStrings(items);
      Some(Strings(items))
  }

  /** `postSchema.safeParse({ title, content, tags, author })` */
  function ParseCreate(b: PostBody): (r: Option<PostInput>)
    ensures r.Some? <==> StringMin(b.title, 3) && StringMin(b.content, 10)
                         && OptionalStringList(b.tags) && ObjectIdValue(b.author)
    ensures r.Some? ==> |Text.Utf16(r.value.title)| >= 3 && |Text.Utf16(r.value.content)| >= 10 && IsObjectId(r.value.author)
    ensures r.Some? ==> b.title == Some(Str(r.value.title)) && b.content == Some(Str(r.value.content))
                        && b.author == Some(Str(r.value.author))
    ensures r.Some? ==> (r.value.tags.None? <==> b.tags.None?)
    ensures r.Some? && r.value.tags.Some? ==> b.tags == Some(StringArray(r.value.tags.value))
  {
    if StringMin(b.title, 3) && StringMin(b.content, 10) && OptionalStringList(b.tags) && ObjectIdValue(b.author)
    then Some(PostInput(b.title.value.s, b.content.value.s, TagsOf(b.tags), b.author.value.s))
    else None
  }

  /** `postUpdateSchema.safeParse({ title, content, tags, author })`: `author` is not part of it. */
  function ParseUpdate(b: PostBody): (r: Option<PostUpdate>)
    ensures r.Some? <==> OptionalStringMin(b.title, 3) && OptionalStringMin(b.content, 10)
                         && OptionalStringList(b.tags)
    ensures r.Some? && r.value.title.Some? ==> |Text.Utf16(r.value.title.value)| >= 3 && b.title == Some(Str(r.value.title.value))
    ensures r.Some? && r.value.content.Some? ==> |Text.Utf16(r.value.content.value)| >= 10 && b.content == Some(Str(r.value.content.value))
    ensures r.Some? ==> (r.value.title.None? <==> b.title.None?) && (r.value.content.None? <==> b.content.None?)
                        && (r.value.tags.None? <==> b.tags.None?)
    ensures r.Some? && r.value.tags.Some? ==> b.tags == Some(StringArray(r.value.tags.value))
  {
    if OptionalStringMin(b.title, 3) && OptionalStringMin(b.content, 10) && OptionalStringList(b.tags)
    then Some(PostUpdate(
      if b.title.None? then None else Some(b.title.value.s),
      if b.content.None? then None else Some(b.content.value.s),
      TagsOf(b.tags)))
    else None
  }

  /** The JSON body a client sends for a typed create input. */
  function EncodeCreate(input: PostInput): PostBody {
    PostBody(Some(Str(input.title)), Some(Str(input.content)),
             if input.tags.None? then None else Some(StringArray(input.tags.value)),
             Some(Str(input.author)))
  }

  lemma {:induction false} StringsOfArray(xs: seq<string>)
    ensures Strings(StringArray(xs).items) == xs
  {
    var r := Strings(StringArray(xs).items);
    assert forall i :: 0 <= i < |xs| ==> r[i] == xs[i];
  }

  /** Every input meeting the length and id rules survives encoding and parsing unchanged. */
  lemma CreateRoundTrip(input: PostInput)
    requires |Text.Utf16(input.title)| >= 3 && |Text.Utf16(input.content)| >= 10 && IsObjectId(input.author)
    ensures ParseCreate(EncodeCreate(input)) == Some(input)
  {
    if input.tags.Some? {
      StringsOfArray(input.tags.value);
    }
  }

  /** Every accepted body is exactly the encoding of what it parses to. */
  lemma {:induction false} CreateParseEncode(b: PostBody)
    requires ParseCreate(b).Some?
    ensures EncodeCreate(ParseCreate(b).value) == b
  {
    if b.tags.Some? {
      var items := b.tags.value.items;
      var back := StringArray(Strings(items)).items;
      assert |back| == |items|;
      assert forall i :: 0 <= i < |items| ==> back[i] == items[i];
      assert back == items;
      assert StringArray(Strings(items)) == b.tags.value;
    }
  }

  /** The update schema accepts the empty body `{}`. */
  lemma UpdateAcceptsEmpty()
    ensures ParseUpdate(PostBody(None, None, None, None)) == Some(PostUpdate(None, None, None))
  {
  }

  /** The update schema places no constraint on `author`. */
  lemma UpdateIgnoresAuthor(b: PostBody, author: Option<Value>)
    ensures ParseUpdate(b.(author := author)) == ParseUpdate(b)
  {
  }

  /** Whatever the create schema accepts, the update schema accepts too. */
  lemma CreateAcceptedUpdateAccepted(b: PostBody)
    requires ParseCreate(b).Some?
    ensures ParseUpdate(b).Some?
  {
  }
}
