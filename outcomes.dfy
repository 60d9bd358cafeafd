/** Optional values and results with an error case, shared by every module. */
module Outcomes {

  datatype Option<+T> = None | Some(value: T)

  /** A computation that either yields a value or stops with an error, the way a
      Python function either returns or raises. */
  datatype Result<+T, +E> = Success(value: T) | Failure(error: E)
}
