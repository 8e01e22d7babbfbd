/** Optional values and pass/fail outcomes used throughout the model. */
module Wrappers {

  /** A value that may be absent: the model's reading of an optional
      TypeScript property (`Field?: T`), where `None` is `undefined`. */
  datatype Option<+T> = None | Some(value: T)

  /** The outcome of a check that either passes or fails with an error value. */
  datatype Outcome<+E> = Pass | Fail(error: E)
}
