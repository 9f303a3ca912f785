/** Decoded JSON values as the Python side sees them, and Python truthiness on them. */
module JsonValues {
  import opened Base

  datatype Json =
    | Null
    | Bool(b: bool)
    | Int(i: int)
    | Num(r: real)
    | Str(s: string)
    | Array(items: seq<Json>)
    | Object(fields: map<string, Json>)

  /** Python's `bool(v)`: `not v` holds exactly when this is false. */
  predicate Truthy(v: Json) {
    match v
    case Null => false
    case Bool(b) => b
    case Int(i) => i != 0
    case Num(r) => r != 0.0
    case Str(s) => s != ""
    case Array(items) => items != []
    case Object(fields) => fields != map[]
  }

  /** Python's `d.get(key)`: the value, or `None` when the key is missing. */
  function Get(d: map<string, Json>, key: string): Json {
    if key in d then d[key] else Null
  }

  /** A nullable text column rendered into a dict. */
  function OptStr(s: Option<string>): Json {
    match s
    case None => Null
    case Some(t) => Str(t)
  }

  /** Reads back a nullable text column; `None` when the value is neither null nor text. */
  function AsOptStr(v: Json): Option<Option<string>> {
    match v
    case Null => Some(None)
    case Str(t) => Some(Some(t))
    case _ => None
  }
}
