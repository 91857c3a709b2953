/** Option and Result types shared by the other modules. */
module Wrappers {

  /** A value that may be absent: a missing (NaN) sample, a date outside the calendar's range. */
  datatype Option<+T> = None | Some(value: T)

  /** The outcome of a step that the source may abort with an exception or a failed assertion. */
  datatype Result<+T, +E> = Success(value: T) | Failure(error: E)
}
