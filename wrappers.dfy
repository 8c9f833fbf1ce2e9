/** Failure-compatible wrappers used throughout the model. `None` stands for
    Go's `nil` (an absent slice, a nil error), `Result` for a Go `(value, error)`
    pair of which exactly one half is meaningful. */
module Wrappers {

  datatype Option<+T> = None | Some(value: T)

  datatype Result<+T, +E> = Success(value: T) | Failure(error: E)
}
