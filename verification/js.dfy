/** The few JavaScript value rules the review submission handler relies on:
    values that may be missing (`undefined` or `null`), the truthiness of a
    string, and the `||` fallback operator. */
module Js {

  /** A value that may be missing: `None` stands for `undefined` and `null`. */
  datatype Option<+T> = None | Some(value: T)

  /** The result of a `try` block: it completes with a value, or it throws an
      error object whose `message` may be missing. */
  datatype Outcome<+T> = Done(value: T) | Thrown(message: Option<string>)

  /** A string is truthy exactly when it is present and non-empty. */
  predicate Truthy(v: Option<string>) {
    v.Some? && v.value != ""
  }

  /** `v || null` on an optional string. */
  function OrNull(v: Option<string>): (r: Option<string>)
    ensures r.Some? ==> r == v
    ensures r != Some("")
    ensures Truthy(r) <==> Truthy(v)
  {
    if Truthy(v) then v else None
  }

  /** `v || fallback` on an optional string. */
  function OrElse(v: Option<string>, fallback: string): (r: string)
    ensures Truthy(v) <==> v == Some(r) && r != ""
    ensures !Truthy(v) ==> r == fallback
  {
    if Truthy(v) then v.value else fallback
  }

  /** The two fallbacks agree: `v || fallback` is the string `v || null`
      keeps, and the fallback exactly when `v || null` is null. */
  lemma OrElseAgreesWithOrNull(v: Option<string>, fallback: string)
    ensures OrNull(v).Some? ==> OrElse(v, fallback) == OrNull(v).value
    ensures OrNull(v).None? ==> OrElse(v, fallback) == fallback
    ensures OrNull(v).Some? ==> OrNull(v).value != ""
  {
  }
}
