/** Option and Result, the shapes every other module uses for "no value" and "raised". */
module Wrappers {

  datatype Option<+T> = None | Some(value: T)

  /** `Failure` stands for a Python exception escaping the call. */
  datatype Result<+R, +E> = Success(value: R) | Failure(error: E)
}
