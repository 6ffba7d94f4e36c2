/** The dynamically typed values a Mongo document or a decoded JSON payload
    holds. A document itself is a `Record`: field name to value. */
module Values {

  datatype Value =
    | Null
    | Bool(b: bool)
    | Int(i: int)
    | Str(s: string)
    | List(items: seq<Value>)
    | Object(fields: map<string, Value>)
    | Bytes(data: seq<bv8>)

  type Record = map<string, Value>

  /** Python truthiness: `None`, `False`, `0` and empty containers are false */
  predicate Truthy(v: Value) {
    match v
    case Null => false
    case Bool(b) => b
    case Int(i) => i != 0
    case Str(s) => |s| > 0
    case List(xs) => |xs| > 0
    case Object(m) => |m| > 0
    case Bytes(d) => |d| > 0
  }

  /** Attribute read that yields `None` for a field the record lacks */
  function Get(r: Record, key: string): Value {
    if key in r then r[key] else Null
  }
}
