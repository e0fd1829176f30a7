/** Parsed JSON values. */
module Json {
  import opened Wrappers

  datatype Json =
    | JNull
    | JBool(flag: bool)
    | JNumber(text: string)
    | JString(value: string)
    | JArray(items: seq<Json>)
    | JObject(fields: map<string, Json>)

  /** A property read: `undefined` (None) when the value is not an object or has no such field. */
  function Field(v: Json, name: string): Option<Json> {
    if v.JObject? && name in v.fields then Some(v.fields[name]) else None
  }
}
