/** Optional values and success-or-refusal outcomes, shared by the other modules. */
module Wrappers {

  /** An optional value: `None` stands for Python's `None`. */
  datatype Option<+T> = None | Some(value: T)

  /** The outcome of an operation that either succeeds or is rejected with a reason. */
  datatype Result<+R, +E> = Ok(value: R) | Err(error: E)
}
