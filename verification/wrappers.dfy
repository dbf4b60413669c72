/** `Option` and `Result`, shared by the decoder and the output manager. */
module Wrappers {

  /** A JavaScript value that may be `undefined`: `None` stands for undefined. */
  datatype Option<+T> = None | Some(value: T)

  /** The outcome of an operation that may throw: `Failure` carries the fault. */
  datatype Result<+R, +E> = Success(value: R) | Failure(error: E)
}
