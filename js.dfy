/** JavaScript values as the course tables and the graph renderer see them. */
module Js {

  datatype Option<+T> = None | Some(value: T)

  /** A JavaScript value. `Undefined` is what a read of a missing property yields. */
  datatype Value =
    | Undefined
    | Null
    | Bool(b: bool)
    | Num(n: real)
    | Str(s: string)
    | Arr(items: seq<Value>)
    | Obj(props: map<string, Value>)

  /** JavaScript truthiness (NaN is not modelled: every `Num` other than 0 is truthy). */
  predicate Truthy(v: Value) {
    match v
    case Undefined => false
    case Null => false
    case Bool(b) => b
    case Num(n) => n != 0.0
    case Str(s) => s != ""
    case Arr(_) => true
    case Obj(_) => true
  }

  /** The property read `o[k]` on an object whose own properties are `props`. */
  function Get(props: map<string, Value>, k: string): Value {
    if k in props then props[k] else Undefined
  }

  /** The properties that the spread `{ ...v }` copies when `v` is a plain object;
      `undefined` and `null` spread to nothing. */
  function Spread(v: Value): map<string, Value> {
    if v.Obj? then v.props else map[]
  }
}
