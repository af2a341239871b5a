/**
 * Parsed JSON as the Python `json` module hands it over: objects keep
 * their member order (a Python dict preserves insertion order), numbers
 * are exact reals (float rounding is outside the model). `json.loads`
 * never yields an object with a repeated member name (the last one wins),
 * so the objects that matter have distinct names; the datatype itself
 * does not exclude repeats, and a lookup finds the first.
 */
module JsonValues {

  datatype Value =
    | JNull
    | JBool(b: bool)
    | JNum(n: real)
    | JStr(s: string)
    | JArr(items: seq<Value>)
    | JObj(members: seq<(string, Value)>)

  /** Python truthiness: `not v` holds exactly when this is false. */
  predicate Truthy(v: Value) {
    match v
    case JNull => false
    case JBool(b) => b
    case JNum(n) => n != 0.0
    case JStr(s) => s != ""
    case JArr(items) => items != []
    case JObj(members) => members != []
  }

  /**
   * The falsy values are exactly these six: null, false, zero, and the
   * empty string, list and object.
   */
  lemma FalsyValues(v: Value)
    ensures !Truthy(v) <==>
      v == JNull || v == JBool(false) || v == JNum(0.0) || v == JStr("") || v == JArr([]) || v == JObj([])
  {
  }

  /**
   * `isinstance(v, (int, float))`: a Python bool is an int, so `true`
   * and `false` pass this test.
   */
  predicate IsIntOrFloat(v: Value) {
    v.JNum? || v.JBool?
  }

  /** The numeric value of an int or float, a bool counting as 0 or 1. */
  function NumericValue(v: Value): real
    requires IsIntOrFloat(v)
  {
    match v
    case JNum(n) => n
    case JBool(b) => if b then 1.0 else 0.0
  }
}
