/** JSON documents as the tool sees them once parsed: an object is a mapping
    from string keys to values, and nothing else about the text matters. */
module JsonValues {

  datatype Option<+T> = None | Some(value: T)

  /** A parsed JSON value. Numbers keep their literal text, so that no
      floating-point arithmetic enters the model. */
  datatype Json =
    | JNull
    | JBool(b: bool)
    | JNumber(literal: string)
    | JString(s: string)
    | JArray(items: seq<Json>)
    | JObject(fields: map<string, Json>)
}
