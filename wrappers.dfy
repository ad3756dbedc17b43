/** Failure-carrying result types shared by the loader and the evaluator. */
module Wrappers {

  datatype Option<+T> = None | Some(value: T)

  /** Either a value or the error that a Python routine would have raised. */
  datatype Result<+T, +E> = Ok(value: T) | Err(error: E)
}
