/** JSON values as serde_json holds them: objects are maps, and `[key] = v` on a value that is
    neither an object nor null panics. */
module Json {
  import opened Wrappers

  datatype Json =
    Null | Bool(b: bool) | Num(n: string) | Str(s: string) | Arr(items: seq<Json>) | Obj(fields: map<string, Json>)

  /** `get(key)` */
  function Field(j: Json, key: string): Option<Json> {
    if j.Obj? && key in j.fields then Some(j.fields[key]) else None
  }

  /** `j[key] = v`; None is a panic. */
  function IndexAssign(j: Json, key: string, v: Json): Option<Json> {
    match j
    case Obj(fields) => Some(Obj(fields[key := v]))
    case Null => Some(Obj(map[key := v]))
    case _ => None
  }

  /** `get("messages").and_then(as_array)` */
  function Messages(j: Json): Option<seq<Json>> {
    match Field(j, "messages")
    case Some(Arr(items)) => Some(items)
    case _ => None
  }
}
