/** `Option` and `Result` types shared by the master and the chunk server. */
module Wrappers {

  /** An optional value; Rust's `Option`. */
  datatype Option<+T> = None | Some(value: T)

  /** A value or an error; used where the source panics instead of returning. */
  datatype Result<+T, +E> = Ok(value: T) | Err(error: E)
}
