/** JSON values as Foundation's `JSONSerialization` and Python's `json` module hand them over. */
module Json {
  import opened Wrappers

  /** A parsed JSON value; numbers are kept as reals. */
  datatype Json =
    | JNull
    | JBool(b: bool)
    | JNumber(n: real)
    | JString(s: string)
    | JArray(items: seq<Json>)
    | JObject(fields: map<string, Json>)

  /** Swift's `value as? [String: Any]`: the fields of a JSON object, nothing for any other value. */
  function AsObject(j: Option<Json>): (r: Option<map<string, Json>>)
    ensures r.Some? <==> j.Some? && j.value.JObject?
    ensures r.Some? ==> j.value == JObject(r.value)
  {
    match j
    case Some(JObject(fields)) => Some(fields)
    case _ => None
  }

  /** Swift's `fields[name] as? String`: the field's text when it is present and a string. */
  function StringField(fields: map<string, Json>, name: string): (r: Option<string>)
    ensures r.Some? <==> name in fields && fields[name].JString?
    ensures r.Some? ==> fields[name] == JString(r.value)
  {
    if name in fields && fields[name].JString? then Some(fields[name].s) else None
  }
}
