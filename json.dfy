/** Values as Go's encoding/json decodes them into an `interface{}`. */
module Json {

  /** JSON null is Go's nil; a number is kept as its literal text (no arithmetic is done on it). */
  datatype JsonValue =
    | JNull
    | JBool(b: bool)
    | JNumber(literal: string)
    | JString(s: string)
    | JArr(items: seq<JsonValue>)
    | JObj(fields: map<string, JsonValue>)

  /** Go's `m[key]` on a `map[string]interface{}`: a missing key reads as nil, the value JSON null decodes to too.
      A nil map (an absent `data` or `previous`) is the empty map. */
  function Lookup(m: map<string, JsonValue>, key: string): JsonValue
  {
    if key in m then m[key] else JNull
  }

  /** Go's `m[key] != nil`: the key is there and its value is not null. */
  predicate Present(m: map<string, JsonValue>, key: string)
  {
    !Lookup(m, key).JNull?
  }

  /** `ref[key]` where `ref` is the result of a successful `.(map[string]interface{})` assertion on `v`. */
  function Member(v: JsonValue, key: string): JsonValue
  {
    if v.JObj? then Lookup(v.fields, key) else JNull
  }
}
