/** Option and Result: stand-ins for Kotlin's nullable types and for the
    exceptions (ParseError, RuntimeError) the interpreter throws. */
module Wrappers {

  datatype Option<+T> = None | Some(value: T)

  datatype Result<+T, +E> = Ok(value: T) | Err(error: E)
}
