/** Optional values and error results shared by the modules of the grade watcher. */
module Wrappers {

  /** Python's `Optional[T]`: `None` or a present value. */
  datatype Option<+T> = None | Some(value: T)

  /** An operation that either produces a value or raises (the exception's name is kept). */
  datatype Result<+T> = Success(value: T) | Failure(error: string)
}
