/** The JSON-like values the dashboard's handlers put in their response dicts and its config. */
module Json {

  /** A Python/JSON value: `None`, a string, an integer, a boolean, a list or a dict. */
  datatype Value =
    | Null
    | Str(s: string)
    | Num(n: int)
    | Flag(b: bool)
    | Arr(items: seq<Value>)
    | Obj(fields: map<string, Value>)

  /** A Python dict with string keys, as returned by a handler or held in `app.config`. */
  type Dict = map<string, Value>
}
