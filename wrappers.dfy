/** Option and Result, used for the values the program may fail to obtain. */
module Wrappers {

  datatype Option<+T> = None | Some(value: T)

  /** `Err` stands for a path on which the program prints a reason and exits with status 1. */
  datatype Result<+T, +E> = Ok(value: T) | Err(error: E)
}
