/**
 * The values a JSON request body can carry once parsed by the JSON body
 * parser, plus `undefined` for a property the body does not have, and the
 * JavaScript truthiness test that `!field` applies to them.
 */
module JsValues {

  /** A parsed JSON value as the handler sees it. JSON has no NaN, so a
      number is a finite value; `-0` and `0` are the same real. Arrays and
      objects are never inspected, only tested for truthiness. */
  datatype JsValue =
    | Undefined
    | Null
    | Bool(b: bool)
    | Num(x: real)
    | Str(s: string)
    | Composite

  /** JavaScript's ToBoolean: `undefined`, `null`, `false`, `0` and the
      empty string are falsy; every other value is truthy. */
  predicate Truthy(v: JsValue)
  {
    match v
    case Undefined => false
    case Null => false
    case Bool(b) => b
    case Num(x) => x != 0.0
    case Str(s) => s != ""
    case Composite => true
  }

  /** The falsy values are exactly `undefined`, `null`, `false`, `0` and
      the empty string. */
  lemma FalsyValues(v: JsValue)
    ensures !Truthy(v) <==> v == Undefined || v == Null || v == Bool(false) || v == Num(0.0) || v == Str("")
  {
  }

  /** `!v1 || !v2 || ...` is false exactly when every value is truthy. */
  predicate AllTruthy(vs: seq<JsValue>)
  {
    forall v :: v in vs ==> Truthy(v)
  }
}
