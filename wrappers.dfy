/** Option and Result: the model's stand-ins for C# null references and exceptions. */
module Wrappers {

  /** A possibly-null value. */
  datatype Option<+T> = None | Some(value: T)

  /** Either a normal return or the exception that ended the call. */
  datatype Result<+R, +E> = Success(value: R) | Failure(error: E)
}
