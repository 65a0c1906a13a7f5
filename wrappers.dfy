/** Option and Result, for the null cells of the data frame and for the errors the pipeline raises. */
module Wrappers {
  datatype Option<+T> = None | Some(value: T)

  datatype Result<+T, +E> = Success(value: T) | Failure(error: E)
}
