/** Shared result types. Strings throughout the project are byte strings:
    one `char` stands for one byte of the Go string. */
module Wrappers {

  datatype Option<+T> = None | Some(value: T)

  datatype Result<+T, +E> = Ok(value: T) | Err(error: E)
}
