/** Python values, errors and the mutable dictionary, as the core uses them. */
module PyCore {

  datatype Option<+T> = None | Some(value: T)

  /** The Python exceptions the modelled code raises. */
  datatype PyError =
    | KeyError(key: string)
    | AttributeError
    | TypeError
    | ValueError(message: string)
    | IndexError
    | ZeroDivisionError

  datatype Result<+T> = Ok(value: T) | Raised(error: PyError)

  /** A JSON-like Python value (dictionary keys are strings). */
  datatype Value =
    | PyNone
    | Bool(b: bool)
    | Int(i: int)
    | Float(f: real)
    | Str(s: string)
    | List(items: seq<Value>)
    | Dict(entries: map<string, Value>)

  /** The number that `<` and `>` see in a value: bools compare as 0 and 1,
      every other non-numeric value makes the comparison raise TypeError. */
  function AsNumber(v: Value): (r: Option<real>)
    ensures r.Some? <==> (v.Bool? || v.Int? || v.Float?)
  {
    match v
    case Bool(b) => Some(if b then 1.0 else 0.0)
    case Int(i) => Some(i as real)
    case Float(f) => Some(f)
    case _ => None
  }

  /** Python truthiness: `None`, `False`, zero and empty containers are false. */
  predicate IsTruthy(v: Value) {
    match v
    case PyNone => false
    case Bool(b) => b
    case Int(i) => i != 0
    case Float(f) => f != 0.0
    case Str(s) => s != []
    case List(items) => items != []
    case Dict(entries) => entries != map[]
  }

  /** `d.get(key, default)`. */
  function Get(d: map<string, Value>, key: string, default: Value): (v: Value)
    ensures key in d ==> v == d[key]
    ensures key !in d ==> v == default
  {
    if key in d then d[key] else default
  }

  /** A Python `dict` that callers share and update in place. */
  /** What an in-place dictionary update leaves behind: the entries, and the exception that
      ended it, if one did. */
  datatype DictOutcome = DictOutcome(entries: map<string, Value>, error: Option<PyError>)

  class PyDict {
    var entries: map<string, Value>

    constructor (initial: map<string, Value>)
      ensures entries == initial
    {
      entries := initial;
    }
  }
}
