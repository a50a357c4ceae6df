/** Failure-compatible wrappers shared by the whole model. */
module Wrappers {

  /** An optional value: `None` stands for a JavaScript property that is absent. */
  datatype Option<+T> = None | Some(value: T)

  /** The outcome of an operation that may throw. */
  datatype Result<+R, +E> = Success(value: R) | Failure(error: E)
}
