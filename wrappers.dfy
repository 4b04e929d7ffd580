/** Option and Result datatypes shared by the modules of this model. */
module Wrappers {

  /** A value that may be absent; an absent clause slot is the `noop` placeholder. */
  datatype Option<+T> = None | Some(value: T)

  /** The outcome of a checked construction: the built value, or the diagnostic
      that the library raises at compile time. */
  datatype Result<+R, +E> = Success(value: R) | Failure(error: E)
}
