/**
 * The JavaScript values a request body parsed by `express.json` can hold, with the two
 * coercions index.js relies on: truthiness (`if (x)`, `x || ''`, `!x`) and `String(x)`
 * (also what a template literal `${x}` produces).
 */
module JsValue {

  /**
   * A JSON value as JavaScript sees it, plus `undefined` for a missing property.
   * `Num` carries the text JavaScript's `String()` gives for the number; every zero
   * (also -0) has the text "0", and JSON cannot produce NaN.
   */
  datatype Json =
    | Undefined
    | Null
    | Bool(b: bool)
    | Num(text: string)
    | Str(s: string)
    | Arr(elems: seq<Json>)
    | Obj(fields: map<string, Json>)

  /** JavaScript truthiness: `undefined`, `null`, `false`, `0` and `""` are falsy. */
  predicate Truthy(v: Json) {
    match v
    case Undefined => false
    case Null => false
    case Bool(b) => b
    case Num(t) => t != "0"
    case Str(s) => s != ""
    case Arr(_) => true
    case Obj(_) => true
  }

  /**
   * Property access `v.key` for a key that Object.prototype does not define: an own field of
   * an object, `undefined` for everything else.
   */
  function Prop(v: Json, key: string): Json {
    match v
    case Obj(fields) => if key in fields then fields[key] else Undefined
    case _ => Undefined
  }

  /** `String(v)`: arrays are joined with "," (null and undefined elements become ""). */
  function ToJsString(v: Json): string
    decreases v, 1
  {
    match v
    case Undefined => "undefined"
    case Null => "null"
    case Bool(b) => if b then "true" else "false"
    case Num(t) => t
    case Str(s) => s
    case Arr(elems) => JoinElems(v, |elems|)
    case Obj(_) => "[object Object]"
  }

  /** `Array.prototype.join(",")` over the first `k` elements of the array `v`. */
  function JoinElems(v: Json, k: nat): string
    requires v.Arr? && k <= |v.elems|
    decreases v, 0, k
  {
    if k == 0 then ""
    else
      var e := v.elems[k - 1];
      assert e in v.elems;
      (if k == 1 then "" else JoinElems(v, k - 1) + ",")
      + (if e.Undefined? || e.Null? then "" else ToJsString(e))
  }
}
