/** The JSON-like payloads that tasks carry and workers return. */
module Values {

  /** A field value of a task payload; the engine never inspects it, it only moves it around. */
  datatype Value =
    | Null
    | Bool(b: bool)
    | Int(i: int)
    | Str(s: string)
    | List(items: seq<Value>)

  /** A payload: field name to value (a Python `Dict[str, Any]`). */
  type Record = map<string, Value>
}
