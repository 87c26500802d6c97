/** The Python values the builder handles: what a YAML job list can hold,
    Python's truth test on them, and the exceptions the core raises or catches. */
module PyValues {
  import opened Common

  /** A value loaded from YAML or returned by the Foreman API
      (floating-point numbers are not modelled). */
  datatype Value =
    | Null
    | Bool(b: bool)
    | Int(i: int)
    | Str(s: string)
    | List(items: seq<Value>)
    | Mapping(entries: map<string, Value>)

  /** Python's `if v:` test: None, False, 0 and empty containers are false. */
  predicate Truthy(v: Value)
  {
    match v
    case Null => false
    case Bool(b) => b
    case Int(i) => i != 0
    case Str(s) => s != ""
    case List(items) => items != []
    case Mapping(entries) => entries != map[]
  }

  /** The exceptions that can leave `create_host`. */
  datatype Exception =
    | KeyError(key: string)              // `d[key]` on a dict without `key`
    | ValueError(text: string)           // `int(text)` on text that is no integer
    | ForemanException(message: string)  // raised by the Foreman client library
    | OtherError(message: string)        // anything else a client call raises

  /** `d[key]` on a dict with string keys. */
  function Get<V>(d: map<string, V>, key: string): (r: Result<V, Exception>)
    ensures r.Ok? <==> key in d
    ensures r.Ok? ==> r.value == d[key]
    ensures r.Err? ==> r.error == KeyError(key)
  {
    if key in d then Ok(d[key]) else Err(KeyError(key))
  }
}
