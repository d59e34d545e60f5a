/** Failure-carrying results used for the Java exceptions of the model. */
module Wrappers {

  datatype Option<+T> = None | Some(value: T)

  /** `Err` stands for an exception thrown by the Java code. */
  datatype Result<+T, +E> = Ok(value: T) | Err(error: E)
}
