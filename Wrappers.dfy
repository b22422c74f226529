/** Option stands for a Java reference that may be null; Result stands for a
    computation that may end in one of the runtime exceptions the engine throws. */
module Wrappers {
  datatype Option<+T> = None | Some(value: T)

  datatype Result<+T, +E> = Ok(value: T) | Err(error: E)
}
