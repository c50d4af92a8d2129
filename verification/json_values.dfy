/** Parsed JSON values and the values a `catch` block can receive, shared by the API routes. */
module JsonValues {
  import opened Wrappers

  /** A parsed JSON value; numbers keep their literal text. */
  datatype Json =
    | JNull
    | JBool(b: bool)
    | JNumber(literal: string)
    | JString(s: string)
    | JArray(items: seq<Json>)
    | JObject(fields: map<string, Json>)

  /** What a `catch` block receives. */
  datatype Thrown =
    | Nullish
    | Primitive
    | Object(name: Option<string>, hasErrors: bool)

  /** The value zod throws when parsing fails. */
  const ZodFailure := Object(Some("ZodError"), true)

  /** The value `request.json()` throws for a body that is not JSON. */
  const SyntaxFailure := Object(Some("SyntaxError"), false)

  predicate IsString(j: Json) {
    j.JString?
  }

  /** `z.array(z.string())`: the strings of an array holding only strings. */
  function StringItems(items: seq<Json>): (r: Option<seq<string>>)
    ensures r.Some? <==> forall i :: 0 <= i < |items| ==> IsString(items[i])
    ensures r.Some? ==> |r.value| == |items| && forall i :: 0 <= i < |items| ==> items[i] == JString(r.value[i])
  {
    if forall i :: 0 <= i < |items| ==> IsString(items[i]) then
      Some(seq(|items|, i requires 0 <= i < |items| => items[i].s))
    else None
  }

  /** `z.record(z.string())`: the string values of an object whose values are all strings. */
  function StringRecord(fields: map<string, Json>): (r: Option<map<string, string>>)
    ensures r.Some? <==> forall k :: k in fields ==> IsString(fields[k])
    ensures r.Some? ==> r.value.Keys == fields.Keys && forall k :: k in fields ==> fields[k] == JString(r.value[k])
  {
    if forall k :: k in fields ==> IsString(fields[k]) then
      Some(map k | k in fields :: fields[k].s)
    else None
  }

  /** The strings as a JSON array's items, in order. */
  function JsonStrings(xs: seq<string>): (r: seq<Json>)
    ensures |r| == |xs| && forall i :: 0 <= i < |xs| ==> r[i] == JString(xs[i])
  {
    seq(|xs|, i requires 0 <= i < |xs| => JString(xs[i]))
  }

  /** The strings as a JSON object's values, under the same keys. */
  function JsonRecord(m: map<string, string>): (r: map<string, Json>)
    ensures r.Keys == m.Keys && forall k :: k in m ==> r[k] == JString(m[k])
  {
    map k | k in m :: JString(m[k])
  }

  /** `z.array(z.string())` accepts an encoded string list and gives the list back. */
  lemma StringItemsRoundTrip(xs: seq<string>)
    ensures StringItems(JsonStrings(xs)) == Some(xs)
  {
    assert StringItems(JsonStrings(xs)).value == xs;
  }

  /** `z.record(z.string())` accepts an encoded string record and gives the record back. */
  lemma StringRecordRoundTrip(m: map<string, string>)
    ensures StringRecord(JsonRecord(m)) == Some(m)
  {
    assert StringRecord(JsonRecord(m)).value == m;
  }
}
