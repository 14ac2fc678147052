/** Failure-carrying wrappers shared by the whole model. */
module Base {

  /** A value that may be missing: an optional JSON key, an unset variable. */
  datatype Option<+T> = None | Some(value: T)

  /** The outcome of a parse: the typed value, or the reasons it was refused. */
  datatype Result<+R, +E> = Success(value: R) | Failure(error: E)
}
