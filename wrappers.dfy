/** Optional values and results with an error, as returned by the modelled operations. */
module Wrappers {

  /** `None` stands for JavaScript's `undefined` or a missing value. */
  datatype Option<+T> = None | Some(value: T)

  /** `Failure` stands for an exception thrown by the modelled code or by a library it calls. */
  datatype Result<+R, +E> = Success(value: R) | Failure(error: E)
}
