/** Failure-carrying datatypes shared by the adapter model: JavaScript's `undefined`
    and rejected promises are written with these instead of preconditions. */
module Wrappers {

  /** A value that may be absent (an omitted argument or option field). */
  datatype Option<+T> = None | Some(value: T)

  /** A settled promise: resolved with a value, or rejected with an error. */
  datatype Result<+R, +E> = Success(value: R) | Failure(error: E)

  /** A settled promise that carries no value when it resolves. */
  datatype Outcome<+E> = Pass | Fail(error: E)

  /** JavaScript truthiness of an optional string: absent and "" are both falsy. */
  predicate Truthy(s: Option<string>)
  {
    s.Some? && s.value != ""
  }

  /** `s || fallback` for an optional string. */
  function OrElse(s: Option<string>, fallback: string): string
  {
    if Truthy(s) then s.value else fallback
  }
}
