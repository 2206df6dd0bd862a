/**
 * The generic structured value that messages are converted to and from,
 * together with the three field accessors of the JSON object library that
 * the message codecs call (GetObjectField, GetArrayField, AsNumber).
 *
 * A double is modelled as a `real`: the codecs only copy numbers, they never
 * compute with them. The library's own reaction to a missing field or a
 * value of the wrong kind is not modelled; every such lookup is a decode
 * failure (`None`).
 */
module JsonValue {
  import opened Wrappers

  datatype Json =
    | Null
    | Bool(b: bool)
    | Number(n: real)
    | String(s: string)
    | Array(items: seq<Json>)
    | Object(fields: map<string, Json>)

  /** The body of a JSON object: its fields by name (field order is not modelled). */
  type JsonObject = map<string, Json>

  /** The object stored under `name`, if there is one. */
  function GetObjectField(obj: JsonObject, name: string): (r: Option<JsonObject>)
    ensures r.Some? <==> name in obj && obj[name].Object?
    ensures r.Some? ==> obj[name] == Object(r.value)
  {
    if name in obj && obj[name].Object? then Some(obj[name].fields) else None
  }

  /** The array stored under `name`, if there is one. */
  function GetArrayField(obj: JsonObject, name: string): (r: Option<seq<Json>>)
    ensures r.Some? <==> name in obj && obj[name].Array?
    ensures r.Some? ==> obj[name] == Array(r.value)
  {
    if name in obj && obj[name].Array? then Some(obj[name].items) else None
  }

  /** The number a value holds, if it is a number. */
  function AsNumber(v: Json): (r: Option<real>)
    ensures r.Some? <==> v.Number?
    ensures r.Some? ==> v == Number(r.value)
  {
    if v.Number? then Some(v.n) else None
  }
}
