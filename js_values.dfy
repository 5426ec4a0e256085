/**
 * The handful of JavaScript value shapes the notes client relies on:
 * `null`/`undefined` versus a present value, strings with JavaScript
 * truthiness, and `Error` objects carrying a message.
 */
module JsValues {

  /** A value that may be absent (`null` or `undefined` in the source). */
  datatype Option<+T> = None | Some(value: T)

  /**
   * A field or argument that holds a string in the source but may also be
   * `undefined` or `null`; the difference matters where the source tests
   * `typeof x !== 'undefined'`.
   */
  datatype Value = Undefined | Null | Str(s: string)

  /** JavaScript truthiness: only a non-empty string is truthy. */
  predicate Truthy(v: Value) {
    v.Str? && v.s != ""
  }

  /** `v || fallback` for a string fallback: the string in `v` when truthy. */
  function Or(v: Value, fallback: string): (r: string)
    ensures Truthy(v) ==> r == v.s
    ensures !Truthy(v) ==> r == fallback
    ensures fallback != "" ==> r != ""
  {
    if Truthy(v) then v.s else fallback
  }

  /** An `Error` object; only its `message` is observed. */
  datatype Error = Error(message: string)
}
