/**
 * Values as PHP hands them to the controllers: nullable values and PHP's
 * truthiness rules for the strings and integers the request layer produces.
 */
module Php {

  /** A PHP value that may be `null`. */
  datatype Option<+T> = None | Some(value: T)

  /** The outcome of a call that either returns a value or throws `error`. */
  datatype Result<+R, +E> = Success(value: R) | Failure(error: E)

  /** A string PHP treats as false in a boolean context (`!$s`, `empty($s)`). */
  predicate FalsyString(s: Option<string>) {
    s == None || s == Some("") || s == Some("0")
  }

  /** A string PHP treats as true in a boolean context. */
  predicate TruthyString(s: Option<string>) {
    !FalsyString(s)
  }

  /** An integer PHP treats as true in a boolean context. */
  predicate TruthyInt(n: Option<int>) {
    n.Some? && n.value != 0
  }

  /** `$a ?? $default`: the value unless it is `null`. */
  function Coalesce<T>(a: Option<T>, default: T): (r: T)
    ensures a.Some? ==> r == a.value
    ensures a.None? ==> r == default
  {
    match a
    case Some(v) => v
    case None => default
  }

}
