/** Failure-carrying datatypes shared by the model: an optional value, and the
    outcome of a call that either returns a value or raises. */
module Wrappers {

  /** A value that may be absent; `None` plays Python's `None`. */
  datatype Option<+T> = None | Some(value: T)

  /** The outcome of a Python call: `Success` is a normal return, `Failure`
      carries what was raised. */
  datatype Result<+T, +E> = Success(value: T) | Failure(error: E)
}
