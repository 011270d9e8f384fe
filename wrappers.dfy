/** Optional values and success/failure results, in the shape of Swift's
    `Optional` and `Result<Success, Failure>`. */
module Wrappers {

  datatype Option<T> = None | Some(value: T)

  datatype Result<T, E> = Success(value: T) | Failure(error: E)
}
