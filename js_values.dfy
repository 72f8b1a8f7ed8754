/** The few JavaScript notions both modelled files lean on: absent values,
    results of operations that can throw, and truthiness. */
module JsValues {

  datatype Option<+T> = None | Some(value: T)

  datatype Result<+T, +E> = Ok(value: T) | Err(error: E)

  /** A JavaScript value, as far as the modelled code inspects it.
      Numbers are reals; NaN is its own case because it is the one falsy
      number that is not zero. */
  datatype JsValue =
    | Undefined
    | Null
    | Bool(b: bool)
    | Num(n: real)
    | NaN
    | Str(s: string)

  /** ToBoolean: the test behind `if (v)` and `!v`. */
  predicate Truthy(v: JsValue)
  {
    match v
    case Undefined => false
    case Null => false
    case Bool(b) => b
    case Num(n) => n != 0.0
    case NaN => false
    case Str(s) => s != ""
  }

  /** `a || b`: the left operand when it is truthy, otherwise the right one. */
  function Or(a: JsValue, b: JsValue): (r: JsValue)
    ensures Truthy(r) <==> Truthy(a) || Truthy(b)
    ensures r == a || r == b
    ensures Truthy(a) ==> r == a
    ensures !Truthy(a) ==> r == b
  {
    if Truthy(a) then a else b
  }

  /** Truthiness of an optional string field: missing and empty are both falsy. */
  predicate Present(f: Option<string>)
  {
    f.Some? && f.value != ""
  }
}
