/** Failure-carrying wrappers used throughout the model.

    The edge function reports every failure as a thrown `Error` whose message
    becomes the response text, so a failure here carries just that message.
 */
module Outcomes {

  /** An optional value: a JSON field that may be absent or `null`. */
  datatype Option<+T> = None | Some(value: T)

  /** The result of a step that either yields a value or throws with a message. */
  datatype Result<+T> = Success(value: T) | Failure(error: string) {

    predicate IsFailure() {
      Failure?
    }

    function PropagateFailure<U>(): Result<U>
      requires Failure?
    {
      Failure(error)
    }

    function Extract(): T
      requires Success?
    {
      value
    }
  }

  /** JavaScript truthiness of an optional string: absent, `null` and `''` are falsy. */
  predicate Truthy(s: Option<string>) {
    s.Some? && s.value != ""
  }

  /** JavaScript's `s || fallback` on an optional string. */
  function OrElse(s: Option<string>, fallback: string): string {
    if Truthy(s) then s.value else fallback
  }
}
