/** Optional values and results with an error, used wherever the source
    returns `undefined`/`null` or bails out of a handler early. */
module Wrappers {

  datatype Option<+T> = None | Some(value: T)

  datatype Result<+T, +E> = Success(value: T) | Failure(error: E)
}
