/** Option and Result, the shapes used for Java's null and exceptions and for TypeScript's undefined. */
module Wrappers {

  datatype Option<+T> = None | Some(value: T)

  datatype Result<+R, +E> = Ok(value: R) | Err(error: E)
}
