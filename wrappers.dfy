/// Optional values and error results, standing in for Swift optionals and
/// throwing initialisers.
module Wrappers {
  datatype Option<T> = None | Some(value: T)

  datatype Result<T> = Ok(value: T) | Err(message: string)
}
