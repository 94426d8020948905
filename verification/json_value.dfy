/** Request-body values: what `express.json()` or `JSON.parse` can produce, and
    what the multipart and URL-encoded parsers produce (strings and arrays of
    strings). Numbers are kept as mathematical reals: only their truthiness
    matters to the handlers. */
module JsonValue {
  import opened JsText

  datatype Json =
    | JNull
    | JBool(b: bool)
    | JNumber(n: real)
    | JString(s: JsString)
    | JArray(items: seq<Json>)
    | JObject(members: seq<(JsString, Json)>)

  /** JavaScript truthiness: `null`, `false`, `0` and `""` are falsy; every
      array and object, even an empty one, is truthy. */
  function Truthy(v: Json): (b: bool)
    ensures !b <==> v == JNull || v == JBool(false) || v == JNumber(0.0) || v == JString([])
  {
    match v
    case JNull => false
    case JBool(b) => b
    case JNumber(n) => n != 0.0
    case JString(s) => |s| > 0
    case JArray(_) => true
    case JObject(_) => true
  }
}
