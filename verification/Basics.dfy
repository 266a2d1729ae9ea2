/** Results and options shared by every module. */
module Basics {

  datatype Option<+T> = None | Some(value: T)

  /** A call that either answers or is refused. */
  datatype Result<+T, +E> = Ok(value: T) | Err(error: E)
}
