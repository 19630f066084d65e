/** Optional values and error-carrying results used by the carving model. */
module Outcomes {

  /** A value that may be absent, as Python's `None` default arguments are. */
  datatype Option<+T> = None | Some(value: T)

  /** Either a computed value or the error that aborted the computation. */
  datatype Result<+T, +E> = Ok(value: T) | Err(error: E)
}
