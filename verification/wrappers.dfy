/** Failure-carrying values used at the boundary between the plant store
    and its durable layer: an optional value, a pass/fail outcome of a
    durable call that returns nothing, and a value-or-error result of a
    durable call that returns something. */
module Wrappers {

  /** A value that may be absent (`null` or an omitted optional field). */
  datatype Option<+T> = None | Some(value: T)

  /** The settlement of a promise that resolves to nothing: it resolved
      (`Pass`) or it was rejected with an error (`Fail`). */
  datatype Outcome<+E> = Pass | Fail(error: E)

  /** The settlement of a promise that resolves to a value. */
  datatype Result<+T, +E> = Success(value: T) | Failure(error: E)
}
