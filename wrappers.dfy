/** Optional values and results, shared by the scenario model. */
module Wrappers {

  /** An optional value; `None` stands for Go's nil (no failpoint, no limit set). */
  datatype Option<+T> = None | Some(value: T)

  /** The outcome of an operation that can fail with an error of type `E`. */
  datatype Result<+T, +E> = Success(value: T) | Failure(error: E)
}
