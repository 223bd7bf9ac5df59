/**
 * Parsed request bodies and query strings, and the field checks the input
 * schemas are built from. Every check reports all of its failures, each as
 * an issue naming the field, as the schema library does.
 */
module Json {
  import opened Wrappers

  /** Largest integer a double holds exactly (Number.MAX_SAFE_INTEGER). */
  const MAX_SAFE_INTEGER: int := 9007199254740991

  /** A JSON value. Numbers are reals: JSON has no NaN or infinity. */
  datatype Json =
    | JNull
    | JBool(b: bool)
    | JNumber(n: real)
    | JString(s: string)
    | JArray(items: seq<Json>)
    | JObject(fields: map<string, Json>)

  /** One validation failure: the field it concerns and what is wrong. */
  datatype Issue = Issue(path: string, message: string)

  /** The outcome of validating an input against a schema. */
  datatype Parsed<+T> = Valid(value: T) | Invalid(issues: seq<Issue>)

  /** The value under `key`, or None when the key is absent (an undefined field). */
  function Field(j: Json, key: string): (r: Option<Json>)
    requires j.JObject?
    ensures r.Some? <==> key in j.fields
    ensures r.Some? ==> r.value == j.fields[key]
  {
    if key in j.fields then Some(j.fields[key]) else None
  }

  /** A number with no fractional part, within the range doubles hold exactly. */
  predicate IsSafeInteger(n: real)
  {
    n == n.Floor as real && -MAX_SAFE_INTEGER <= n.Floor <= MAX_SAFE_INTEGER
  }

  /** The integer-format check: not an integer, or outside the safe range. */
  function SafeIntegerIssues(path: string, n: real): (issues: seq<Issue>)
    ensures issues == [] <==> IsSafeInteger(n)
    ensures |issues| <= 1
  {
    if n != n.Floor as real then [Issue(path, "Invalid input: expected int, received number")]
    else if n.Floor > MAX_SAFE_INTEGER then [Issue(path, "Too big: expected int to be <= " + "9007199254740991")]
    else if n.Floor < -MAX_SAFE_INTEGER then [Issue(path, "Too small: expected int to be >= " + "-9007199254740991")]
    else []
  }

  /**
   * A required integer field with a lower bound and, optionally, an upper
   * bound: a type failure alone, or every failed check of the number.
   */
  function IntegerIssues(path: string, v: Option<Json>, min: int, minMessage: string, max: Option<int>, maxMessage: string): (issues: seq<Issue>)
    ensures issues == [] <==>
              && v.Some? && v.value.JNumber? && IsSafeInteger(v.value.n)
              && v.value.n >= min as real && (max.Some? ==> v.value.n <= max.value as real)
    ensures v.Some? && v.value.JNumber? && v.value.n < min as real ==> Issue(path, minMessage) in issues
    ensures v.Some? && v.value.JNumber? && max.Some? && v.value.n > max.value as real ==> Issue(path, maxMessage) in issues
  {
    if v.None? || !v.value.JNumber? then [Issue(path, "Invalid input: expected number")]
    else
      var n := v.value.n;
      SafeIntegerIssues(path, n)
      + (if n < min as real then [Issue(path, minMessage)] else [])
      + (if max.Some? && n > max.value as real then [Issue(path, maxMessage)] else [])
  }

  /** A required string field with length bounds. */
  function StringIssues(path: string, v: Option<Json>, min: nat, minMessage: string, max: nat, maxMessage: string): (issues: seq<Issue>)
    ensures issues == [] <==> v.Some? && v.value.JString? && min <= |v.value.s| <= max
    ensures v.Some? && v.value.JString? && |v.value.s| < min ==> Issue(path, minMessage) in issues
  {
    if v.None? || !v.value.JString? then [Issue(path, "Invalid input: expected string")]
    else
      var s := v.value.s;
      (if |s| < min then [Issue(path, minMessage)] else [])
      + (if |s| > max then [Issue(path, maxMessage)] else [])
  }

  /** An optional string field: absent, or a string (null is not absent). */
  function OptionalStringIssues(path: string, v: Option<Json>): (issues: seq<Issue>)
    ensures issues == [] <==> v.None? || v.value.JString?
  {
    if v.None? || v.value.JString? then [] else [Issue(path, "Invalid input: expected string")]
  }

  /** An optional field restricted to the given options: absent, or one of them. */
  function OptionalEnumIssues(path: string, v: Option<Json>, options: seq<string>): (issues: seq<Issue>)
    ensures issues == [] <==> v.None? || (v.value.JString? && v.value.s in options)
  {
    if v.None? || (v.value.JString? && v.value.s in options) then [] else [Issue(path, "Invalid option")]
  }

  /** The integer a checked number field holds. */
  function IntegerOf(v: Option<Json>): int
    requires v.Some? && v.value.JNumber?
  {
    v.value.n.Floor
  }

  /** The text of a checked optional string field. */
  function OptionalStringOf(v: Option<Json>): (r: Option<string>)
    requires v.None? || v.value.JString?
    ensures r.None? <==> v.None?
    ensures r.Some? ==> r.value == v.value.s
  {
    if v.None? then None else Some(v.value.s)
  }
}
