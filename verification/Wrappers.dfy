/** The result of an operation that may yield nothing. */
module Wrappers {
  datatype Option<+T> = None | Some(value: T)
}
