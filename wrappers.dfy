/** Optional values and success/failure outcomes shared by every component. */
module Wrappers {

  /** A value that may be absent: a missing JSON field, or one that is not of the expected type. */
  datatype Option<+T> = None | Some(value: T)

  /** The outcome of a step that can fail with an error of type `E`. */
  datatype Result<+R, +E> = Success(value: R) | Failure(error: E)
}
