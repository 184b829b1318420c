/** The optional value used for a dictionary key that may be absent, and the outcome of a run that may abort. */
module Wrappers {

  datatype Option<+T> = None | Some(value: T)

  datatype Result<+R, +E> = Success(value: R) | Failure(error: E)
}
