/** Results and optional values shared by the model's modules. */
module Wrappers {

  /** A value that may be absent: a NULL column, a missing row, a lookup miss. */
  datatype Option<+T> = None | Some(value: T)

  /** Outcome of a call that can fail with an error of type E. */
  datatype Result<+T, +E> = Success(value: T) | Failure(error: E)
}
