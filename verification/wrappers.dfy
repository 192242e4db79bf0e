/** Optional values and results with an error, used for the parsers and for
    the error paths of the generator (missing output folder, bad sizes, the
    division by zero of the round-robin assignment). */
module Wrappers {

  datatype Option<+T> = None | Some(value: T)

  datatype Result<+R, +E> = Success(value: R) | Failure(error: E)
}
