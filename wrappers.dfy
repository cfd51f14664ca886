/** Option, Result and Outcome: the error paths of the modelled code
    (a C++ std::optional, a thrown JavaScript Error, a negative status). */
module Wrappers {

  datatype Option<+T> = None | Some(value: T)

  datatype Result<+T, +E> = Success(value: T) | Failure(error: E)

  datatype Outcome<+E> = Pass | Fail(error: E)
}
