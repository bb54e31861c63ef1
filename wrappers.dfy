/** Option and Result values shared by the client-side and server-side models. */
module Wrappers {

  /** A value that may be missing (`null` / `None` in the source). */
  datatype Option<+T> = None | Some(value: T)

  /** The outcome of an operation that may raise an error instead of returning. */
  datatype Result<+R, +E> = Ok(value: R) | Err(error: E)
}
