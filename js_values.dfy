/** Small pieces of JavaScript value semantics that both admin pages rely on:
    optional values (a JSON field that may be missing or null), truthiness of
    strings, and the `value || fallback` idiom used to pick an error message. */
module JsValues {

  /** A value that may be missing (`undefined` or `null` in the page's JSON). */
  datatype Option<+T> = None | Some(value: T)

  /** JavaScript truthiness of an optional string: a missing value and "" are falsy. */
  predicate Truthy(m: Option<string>) {
    m.Some? && m.value != ""
  }

  /** `m || fallback`: the message itself when it is truthy, the fallback otherwise.
      With a non-empty fallback the outcome is never the empty string, so an
      error chosen this way is always shown. */
  function OrElse(m: Option<string>, fallback: string): (r: string)
    ensures Truthy(m) ==> r == m.value
    ensures !Truthy(m) ==> r == fallback
    ensures fallback != "" ==> r != ""
  {
    if Truthy(m) then m.value else fallback
  }
}
