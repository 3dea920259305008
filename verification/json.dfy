/** A decoded JSON value, the dynamically typed `interface{}` that
    encoding/json produces. Numbers are kept as their literal text: no
    arithmetic is ever done on them. */
module Json {
  datatype Json =
    | JNull
    | JBool(b: bool)
    | JNumber(literal: string)
    | JString(s: string)
    | JArray(items: seq<Json>)
    | JObject(fields: map<string, Json>)
}
