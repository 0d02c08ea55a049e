/** Values a Python program receives from JSON, a config file or a caller's dict. */
module PyValues {
  import opened Common

  datatype Py =
    | Null
    | Bool(b: bool)
    | Num(r: real)
    | Str(s: string)
    | List(items: seq<Py>)
    | Dict(entries: map<string, Py>)

  /** `bool(v)`. */
  predicate Truthy(v: Py) {
    match v
    case Null => false
    case Bool(b) => b
    case Num(r) => r != 0.0
    case Str(s) => s != ""
    case List(items) => items != []
    case Dict(entries) => entries != map[]
  }

  /** `entries.get(key)`. */
  function Get(entries: map<string, Py>, key: string): Py {
    if key in entries then entries[key] else Null
  }

  /** `float(v)` when `isinstance(v, (int, float))`; a bool is an int. */
  function AsNumber(v: Py): Option<real> {
    match v
    case Num(r) => Some(r)
    case Bool(b) => Some(if b then 1.0 else 0.0)
    case _ => None
  }
}
