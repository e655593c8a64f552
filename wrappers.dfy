/** The two failure-compatible wrappers the model uses: an optional value
    (for the source's nullable references) and a success-or-error result
    (for the exceptions the source catches). */
module Wrappers {

  datatype Option<+T> = None | Some(value: T)

  datatype Result<+T, +E> = Success(value: T) | Failure(error: E)
}
