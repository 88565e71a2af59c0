/**
 * The JavaScript values the server reads: environment variables, request
 * headers and JSON body fields. Each is either missing (`undefined`) or a
 * string, and the server only ever looks at them through `x || fallback`,
 * where the empty string counts as missing.
 */
module JsValues {

  /** A value that may be missing: `undefined` (or `null`) is `None`. */
  datatype Option<+T> = None | Some(value: T)

  /** JavaScript truthiness of a string-or-missing value. */
  predicate Truthy(v: Option<string>)
  {
    v.Some? && v.value != ""
  }

  /** `String(v || fallback)`: the value when it is truthy, the fallback otherwise. */
  function OrElse(v: Option<string>, fallback: string): (r: string)
    ensures Truthy(v) ==> r == v.value
    ensures !Truthy(v) ==> r == fallback
  {
    if v.Some? && v.value != "" then v.value else fallback
  }
}
