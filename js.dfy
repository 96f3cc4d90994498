/**
 * The scalar values the frontend keeps in its form state and reads from
 * JSON, with JavaScript's truthiness. Python's truthiness agrees with it on
 * every value below, so the backend uses the same rule. JSON arrays and
 * objects are not values here; on those the two languages disagree (an
 * empty list is truthy in JavaScript and falsy in Python).
 */
module Js {
  import opened Wrappers

  /** A scalar JavaScript value as it occurs in form state and decoded JSON (NaN, arrays and objects are not modelled). */
  datatype Value = Undefined | Null | Bool(b: bool) | Num(n: real) | Str(s: string)

  /** `!!v`: false exactly for undefined, null, false, 0 and the empty string. */
  predicate Truthy(v: Value) {
    match v
    case Undefined => false
    case Null => false
    case Bool(b) => b
    case Num(n) => n != 0.0
    case Str(s) => s != ""
  }

  /** A plain object: property names to values. */
  type Object = map<string, Value>

  /** `o[key]`: a property that is absent reads as undefined. */
  function Get(o: Object, key: string): (v: Value)
    ensures key !in o ==> v == Undefined
    ensures key in o ==> v == o[key]
  {
    if key in o then o[key] else Undefined
  }

  /**
   * `parseFloat(text) || 0`, with `parsed` the outcome of parseFloat
   * (None for NaN): a non-numeric input and a zero both give 0.
   */
  function NumberOrZero(parsed: Option<real>): (r: real)
    ensures parsed.None? ==> r == 0.0
    ensures parsed.Some? ==> r == parsed.value
  {
    match parsed
    case None => 0.0
    case Some(n) => if n != 0.0 then n else 0.0
  }

  /** `response.items || []`: a response without the list yields the empty list. */
  function ListOrEmpty<T>(items: Option<seq<T>>): (r: seq<T>)
    ensures items.None? ==> r == []
    ensures items.Some? ==> r == items.value
  {
    items.GetOr([])
  }
}
