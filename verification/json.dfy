/** The value `JSONSerialization.jsonObject` hands back, after decoding.
    Dictionaries are `[String: Any]`, arrays are `[Any]`; the casts the app
    performs (`as? String`, `as? [Any]`, `as? [String: Any]`) become the
    lookups below, each of which fails on a value of any other shape. */
module Json {
  import opened Optional

  datatype Json =
    | Null
    | Bool(b: bool)
    | Number(n: int)
    | Str(s: string)
    | Array(items: seq<Json>)
    | Object(fields: map<string, Json>)

  /** `dict[key] as? String`: present only when the key is there and holds a string. */
  function StringField(fields: map<string, Json>, key: string): (r: Option<string>)
    ensures r.Some? ==> key in fields && fields[key] == Str(r.value)
    ensures r.None? <==> key !in fields || !fields[key].Str?
  {
    if key in fields && fields[key].Str? then Some(fields[key].s) else None
  }

  /** `dict[key] as? [Any]`: present only when the key is there and holds an array. */
  function ArrayField(fields: map<string, Json>, key: string): (r: Option<seq<Json>>)
    ensures r.Some? ==> key in fields && fields[key] == Array(r.value)
    ensures r.None? <==> key !in fields || !fields[key].Array?
  {
    if key in fields && fields[key].Array? then Some(fields[key].items) else None
  }
}
