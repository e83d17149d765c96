/**
 * JSON values as the packet codec sees them, and the JSON library it calls.
 *
 * The codec never inspects JSON syntax itself: it asks Foundation's
 * `NSJSONSerialization` whether a value is a valid JSON object, asks
 * `SocketIOUtilities.arrayToJSON` for the text of a value, and asks
 * `NSJSONSerialization.JSONObjectWithData` to parse received text. Those
 * three calls are the fields of `JsonLibrary`, passed to the codec as a value.
 */
module JsonValues {
  import opened Wrappers

  /** A closed JSON value; numbers are kept as integers. */
  datatype Json =
    | JNull
    | JBool(b: bool)
    | JNumber(n: int)
    | JString(str: string)
    | JArray(elements: seq<Json>)
    | JObject(members: map<string, Json>)

  /** The JSON capability the codec relies on. */
  datatype JsonLibrary = JsonLibrary(
    isValidJSONObject: Json -> bool,
    serialize: Json -> Option<string>,
    parse: string -> Option<Json>)

  /**
   * What a JSON library is expected to guarantee: a value it calls valid
   * serializes to a non-empty text that parses back to that value.
   */
  ghost predicate RoundTrips(lib: JsonLibrary) {
    forall j :: lib.isValidJSONObject(j) ==>
      && lib.serialize(j).Some?
      && lib.serialize(j).value != []
      && lib.parse(lib.serialize(j).value) == Some(j)
  }
}
