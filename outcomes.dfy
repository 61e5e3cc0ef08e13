/** Optional values and results with an error, shared by the other modules. */
module Outcomes {
  datatype Option<T> = None | Some(value: T)

  datatype Result<T, E> = Success(value: T) | Failure(error: E)
}
