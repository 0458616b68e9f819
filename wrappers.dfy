/** Option and Result, standing for JavaScript's `null` and for an exception thrown part-way. */
module Wrappers {

  /** A value that may be absent (`null` in the viewer's state). */
  datatype Option<+T> = None | Some(value: T)

  /** The outcome of an operation that either completes or throws. */
  datatype Result<+T, +E> = Success(value: T) | Failure(error: E)
}
