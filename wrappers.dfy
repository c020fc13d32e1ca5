/** Optional values and results with an error, the shapes the source expresses with
  * `undefined`/`None` and with thrown exceptions. */
module Wrappers {

  datatype Option<+T> = None | Some(value: T)

  datatype Result<+T, +E> = Success(value: T) | Failure(error: E)
}
