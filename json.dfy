/** The part of JSON the controller reads and writes: strings, integers and objects. */
module Json {
  import opened Wrappers

  datatype Json = JNull | JInt(i: int) | JStr(s: string) | JObject(fields: map<string, Json>)

  /** `d[key]` when `d` is an object that has `key`. */
  function Field(d: Json, key: string): (r: Option<Json>)
    ensures r.Some? <==> d.JObject? && key in d.fields
  {
    if d.JObject? && key in d.fields then Some(d.fields[key]) else None
  }

  /** `d[p[0]][p[1]]...`, or None as soon as a step is missing. */
  function At(d: Json, path: seq<string>): (r: Option<Json>)
    ensures path == [] ==> r == Some(d)
  {
    if path == [] then Some(d)
    else match Field(d, path[0])
      case None => None
      case Some(e) => At(e, path[1..])
  }

  /** The string at `path`, or None when there is none. */
  function StrAt(d: Json, path: seq<string>): (r: Option<string>)
    ensures r.Some? <==> At(d, path).Some? && At(d, path).value.JStr?
    ensures r.Some? ==> At(d, path) == Some(JStr(r.value))
  {
    match At(d, path)
    case Some(JStr(s)) => Some(s)
    case _ => None
  }

  /** The integer at `path`, or None when there is none. */
  function IntAt(d: Json, path: seq<string>): (r: Option<int>)
    ensures r.Some? <==> At(d, path).Some? && At(d, path).value.JInt?
    ensures r.Some? ==> At(d, path) == Some(JInt(r.value))
  {
    match At(d, path)
    case Some(JInt(i)) => Some(i)
    case _ => None
  }
}
