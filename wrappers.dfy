/** Failure-carrying result types shared by all modules. `Err` carries the
    name of the exception class the original raises (ValueError, ...). */
module Wrappers {

  datatype Option<+T> = None | Some(value: T)

  datatype Result<+T> = Ok(value: T) | Err(error: string)
}
