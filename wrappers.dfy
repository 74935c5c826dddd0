/** Option stands for a .NET reference that may be null; Result for a call that
    either returns a value or throws a domain exception. */
module Wrappers {

  datatype Option<+T> = None | Some(value: T)

  datatype Result<+R, +E> = Success(value: R) | Failure(error: E)
}
