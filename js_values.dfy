/**
 * JavaScript values as the core inspects them: `typeof`, truthiness, strict equality and
 * `in` on objects. Objects and functions are compared by identity, so each carries one;
 * an object's `fields` are the properties visible on it, its own and inherited ones.
 */
module JsValues {
  /** A JavaScript number: not-a-number, a finite value or an infinity. */
  datatype JsNumber = NaN | Finite(value: real) | PosInfinity | NegInfinity

  datatype JsValue =
    | Undefined
    | Null
    | Bool(b: bool)
    | Num(n: JsNumber)
    | Str(s: string)
    | Func(fid: nat)
    | Obj(oid: nat, fields: map<string, JsValue>)

  /** `typeof v`: `null` is an `'object'`. */
  function TypeOf(v: JsValue): string {
    match v
    case Undefined => "undefined"
    case Null => "object"
    case Bool(_) => "boolean"
    case Num(_) => "number"
    case Str(_) => "string"
    case Func(_) => "function"
    case Obj(_, _) => "object"
  }

  /** `!!v` */
  predicate Truthy(v: JsValue) {
    match v
    case Undefined => false
    case Null => false
    case Bool(b) => b
    case Num(n) => n.Finite? ==> n.value != 0.0
    case Str(s) => s != ""
    case Func(_) => true
    case Obj(_, _) => true
  }

  /** `a === b`: `NaN` equals nothing, objects and functions are equal only to themselves. */
  predicate StrictEquals(a: JsValue, b: JsValue) {
    match (a, b)
    case (Undefined, Undefined) => true
    case (Null, Null) => true
    case (Bool(x), Bool(y)) => x == y
    case (Num(x), Num(y)) => x != NaN && x == y
    case (Str(x), Str(y)) => x == y
    case (Func(x), Func(y)) => x == y
    case (Obj(x, _), Obj(y, _)) => x == y
    case _ => false
  }

  /** `key in v` for an object `v`. */
  predicate HasProperty(v: JsValue, key: string) {
    v.Obj? && key in v.fields
  }

  /** `v[key]`: `undefined` for a missing property or a value without properties. */
  function Property(v: JsValue, key: string): JsValue {
    if v.Obj? && key in v.fields then v.fields[key] else Undefined
  }

  function Digit(d: nat): char
    requires d < 10
  {
    "0123456789"[d]
  }

  /** `String(n)` for a non-negative integer: its decimal digits. */
  function NatString(n: nat): string {
    if n < 10 then [Digit(n)] else NatString(n / 10) + [Digit(n % 10)]
  }
}
