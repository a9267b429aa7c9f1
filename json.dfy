/**
 * The values the request handlers manipulate after JSON.parse, and the three
 * JavaScript operations on them that the handlers rely on: property access,
 * strict equality (===), object spread ({...a, ...b}) and `+ 1`.
 */
module Json {

  /**
   * A JavaScript value as a handler sees it.
   * Undefined is a missing property or a form field the client did not send;
   * NaN is what parseInt gives for a non-numeric path segment and what
   * `undefined + 1` gives; Obj stands for any object or array, and `text` is
   * its string conversion (String(value)).
   */
  datatype Value =
    | Undefined
    | Null
    | Bool(b: bool)
    | Num(n: int)
    | NaN
    | Str(s: string)
    | Obj(text: string)

  /** A stored record (a user, a question or an answer): a plain object. */
  type Record = map<string, Value>

  /** Property access `r[key]`: undefined when the property is absent. */
  function Get(r: Record, key: string): Value
  {
    if key in r then r[key] else Undefined
  }

  /**
   * Strict equality `a === b`. NaN equals nothing, and two objects are equal
   * only when they are the same reference, which never happens between a
   * freshly parsed record and a request value.
   */
  function StrictEquals(a: Value, b: Value): (r: bool)
    ensures r ==> a == b
    ensures r <==> a == b && !a.NaN? && !a.Obj?
  {
    match a
    case NaN => false
    case Obj(_) => false
    case _ => a == b
  }

  /** Object spread `{...a, ...b}`. */
  function Spread(a: Record, b: Record): Record
  {
    a + b
  }

  /**
   * The spread has every property of `b`, and the properties of `a` that
   * `b` does not have.
   */
  lemma SpreadProperties(a: Record, b: Record)
    ensures Spread(a, b).Keys == a.Keys + b.Keys
    ensures forall k :: k in b ==> Spread(a, b)[k] == b[k]
    ensures forall k :: k in a && k !in b ==> Spread(a, b)[k] == a[k]
  {
  }

  /**
   * JavaScript `v + 1`: numeric addition after converting null, booleans and
   * undefined to numbers, string concatenation for strings and for objects
   * (after String()).
   */
  function PlusOne(v: Value): (r: Value)
    ensures v.Num? ==> r == Num(v.n + 1)
    ensures r.NaN? <==> v.Undefined? || v.NaN?
    ensures r.Str? <==> v.Str? || v.Obj?
  {
    match v
    case Undefined => NaN
    case Null => Num(1)
    case Bool(b) => Num(if b then 2 else 1)
    case Num(n) => Num(n + 1)
    case NaN => NaN
    case Str(s) => Str(s + "1")
    case Obj(text) => Str(text + "1")
  }
}
