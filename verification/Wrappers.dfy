/** Result types shared by the components. */
module Wrappers {

  datatype Option<+T> = None | Some(value: T)

  /** Either a value or the error the operation raises. */
  datatype Result<+T, +E> = Ok(value: T) | Err(error: E)
}
