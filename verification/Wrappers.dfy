/** Absent values and fallible results, shared by all modules. */
module Wrappers {
  datatype Option<+T> = None | Some(value: T)

  datatype Fallible<+T, +E> = Ok(value: T) | Err(failure: E)
}
