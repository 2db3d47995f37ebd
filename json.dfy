/** Request values as JSON delivers them, and JavaScript truthiness of optional fields. */
module Json {
  import opened Wrappers
  import Text

  /**
   * A JSON value. Numbers are modelled as integers (floating point is not
   * modelled); objects are not needed by the validators.
   */
  datatype Value = Str(s: string) | Num(n: int) | Bool(b: bool) | Null | Arr(items: seq<Value>)

  /**
   * `!field` is false: the field is present and not the empty string
   * (for string-valued fields, the only falsy string is "").
   */
  predicate Truthy(field: Option<string>) {
    field.Some? && field.value != ""
  }

  /**
   * zod's `z.string().min(n)`: present, a string, and at least `n` long as
   * JavaScript counts length, in UTF-16 code units.
   */
  predicate StringMin(v: Option<Value>, n: nat): (b: bool)
    ensures b ==> v.Some? && v.value.Str? && 2 * |v.value.s| >= n
    ensures v.Some? && v.value.Str? && |v.value.s| >= n ==> b
  {
    v.Some? && v.value.Str? && |Text.Utf16(v.value.s)| >= n
  }

  /** Two characters can meet a minimum of three: "\U{1F600}a" is three code units long. */
  lemma MinCountsCodeUnits()
    ensures StringMin(Some(Str("\U{1F600}a")), 3)
  {
    Text.Utf16LengthOfEmoji();
  }

  /** zod's `z.string().min(n).optional()`: absent, or as above. */
  predicate OptionalStringMin(v: Option<Value>, n: nat) {
    v.None? || StringMin(v, n)
  }

  /** The string of an optional string field, if present. */
  function StringOf(v: Option<Value>): (r: Option<string>)
    requires OptionalStringMin(v, 0)
    ensures r.None? <==> v.None?
    ensures r.Some? ==> v == Some(Str(r.value))
  {
    if v.None? then None else Some(v.value.s)
  }
}
