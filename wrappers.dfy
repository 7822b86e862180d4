/** Option and pass/fail outcomes shared by the modules of this model. */
module Wrappers {

  /** An optional value: Python's `None` or a present value. */
  datatype Option<+T> = None | Some(value: T)

  /** The outcome of a routine that either returns normally or raises `error`. */
  datatype Outcome<+E> = Pass | Fail(error: E)
}
