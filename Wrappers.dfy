/** Optional values and success/failure results, as Swift's `Optional` and `Result` are used by the app. */
module Wrappers {

  /** Swift's `T?`: `nil` or a wrapped value. */
  datatype Option<+T> = None | Some(value: T)

  /** Swift's `Result<R, E>`: `.success(value)` or `.failure(error)`. */
  datatype Result<+R, +E> = Success(value: R) | Failure(error: E)
}
