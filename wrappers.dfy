/** Option and Result, the two shapes used for Java's nullable values and thrown exceptions. */
module Wrappers {

  /** `None` stands for Java's `null`. */
  datatype Option<+T> = None | Some(value: T)

  /** `Failure` stands for an exception that leaves the operation. */
  datatype Result<+R, +E> = Success(value: R) | Failure(error: E)
}
