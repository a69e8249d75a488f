/** Optional values and results with an error, as used by the rest of the model. */
module Wrappers {

  /** A cell that may be missing (NaN in a data frame) or a value that may be absent. */
  datatype Option<T> = None | Some(value: T)

  /** The outcome of an operation that can raise. */
  datatype Result<T, E> = Success(value: T) | Failure(error: E)
}
