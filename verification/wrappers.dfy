/** Option and Result values, standing in for the out-parameter / exception
    style of the program (TryParse returning false, a thrown exception). */
module Wrappers {

  datatype Option<+T> = None | Some(value: T)

  datatype Result<+T, +E> = Ok(value: T) | Err(error: E)
}
