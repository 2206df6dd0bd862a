/**
 * The codec contract of a nested message type (geometry_msgs/Pose,
 * std_msgs/Header). Those types are not part of this model, so a message
 * that contains one is generic in it and receives its codec as a value:
 * what its default constructor builds, its ToJsonObject, its GetFromJson
 * and its ToString.
 */
module NestedCodec {
  import opened Wrappers
  import opened JsonValue

  datatype Codec<!T> = Codec(
    default: T,
    toJson: T -> JsonObject,
    fromJson: JsonObject -> Option<T>,
    render: T -> string)

  /**
   * What a message's FromJson does for a nested field: it reads the object
   * stored under `name` and hands it to the nested type's GetFromJson.
   */
  function DecodeNested<T>(c: Codec<T>, obj: JsonObject, name: string): (r: Option<T>)
    ensures r.Some? ==> name in obj && obj[name].Object?
    ensures name in obj && obj[name].Object? ==> r == c.fromJson(obj[name].fields)
  {
    match GetObjectField(obj, name)
    case None => None
    case Some(o) => c.fromJson(o)
  }

  /** The round-trip law every message type is expected to satisfy. */
  ghost predicate RoundTrips<T(!new)>(c: Codec<T>)
  {
    forall x :: c.fromJson(c.toJson(x)) == Some(x)
  }
}
