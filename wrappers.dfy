/** Option and Result, used wherever the scripts return `None`, raise, or warn. */
module Wrappers {

  datatype Option<+T> = None | Some(value: T)

  datatype Result<+R, +E> = Success(value: R) | Failure(error: E)
}
