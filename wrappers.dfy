/** Optional values and results with an error, as used by the extractors and the filesystem seam. */
module Wrappers {

  /** java.util.Optional: absent (None) or present (Some). */
  datatype Option<+T> = None | Some(value: T)

  /** The outcome of a call that may throw: its value, or the exception it raised. */
  datatype Result<+T, +E> = Success(value: T) | Failure(error: E)
}
