/** Option and Result types used by the readers and computes. A `Failure` plays the
    role of a thrown std::runtime_error. */
module Wrappers {

  datatype Option<+T> = None | Some(value: T)

  datatype Result<+T, +E> = Success(value: T) | Failure(error: E)
}
