/** Optional values and results with a plain error string, as the runtime's
    `plainError` values are. */
module Wrappers {

  datatype Option<+T> = None | Some(value: T)

  datatype Result<+T> = Success(value: T) | Failure(error: string)
}
