/** Success-or-failure values for operations that can reject their input. */
module Wrappers {

  datatype Result<+T, +E> = Ok(value: T) | Err(error: E)
}
