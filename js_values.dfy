/** JavaScript values as far as the browser runner inspects them: the option
    bag it destructures, the patterns it hands to `String.prototype.match`
    and the resolved console arguments it forwards. */
module JsValues {

  datatype Option<+T> = None | Some(value: T)

  datatype Result<+T, +E> = Success(value: T) | Failure(error: E)

  /** A JavaScript value. Numbers are finite reals; plain objects and
      functions are opaque because the runner never looks inside them. */
  datatype JsValue =
    | Undefined
    | Null
    | Bool(b: bool)
    | Num(n: real)
    | Str(s: string)
    | RegExp(source: string, flags: string)
    | Array(elems: seq<JsValue>)
    | Obj
    | Func

  /** The `typeof` operator. */
  function TypeOf(v: JsValue): (r: string)
    ensures r == "string" <==> v.Str?
    ensures r == "boolean" <==> v.Bool?
    ensures r == "function" <==> v.Func?
    ensures r == "object" <==> v.Null? || v.RegExp? || v.Array? || v.Obj?
  {
    match v
    case Undefined => "undefined"
    case Null => "object"
    case Bool(_) => "boolean"
    case Num(_) => "number"
    case Str(_) => "string"
    case RegExp(_, _) => "object"
    case Array(_) => "object"
    case Obj => "object"
    case Func => "function"
  }

  /** `Array.isArray`. */
  predicate IsArray(v: JsValue) {
    v.Array?
  }

  /** `Number.isInteger`: a number with no fractional part. */
  predicate IsInteger(v: JsValue) {
    v.Num? && v.n.Floor as real == v.n
  }

  /** JavaScript truthiness, as used by `if (x)`. */
  predicate Truthy(v: JsValue) {
    match v
    case Undefined => false
    case Null => false
    case Bool(b) => b
    case Num(n) => n != 0.0
    case Str(s) => s != ""
    case _ => true
  }

  /** `text.match(pattern)` taken as a truth value: whether the pattern (a
      RegExp, or any other value, which `match` compiles to one) matches the
      text. The regular-expression engine itself is not modelled, so every
      operation takes the matcher as a parameter; every pattern is taken to
      compile, where `new RegExp` would throw on an invalid string. */
  type Matcher = (string, JsValue) -> bool
}
