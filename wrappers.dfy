/** Failure-carrying result types shared by the schema models. */
module Wrappers {

  datatype Option<+T> = None | Some(value: T)

  /** Pass, or the error a pre-save step hands to `next(err)`. */
  datatype Outcome<+E> = Pass | Fail(error: E)
}
