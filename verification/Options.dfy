/** The value-or-nothing type and the result type shared by the modules. */
module Options {
  datatype Option<+T> = None | Some(value: T)

  /** An operation's data, or an error whose text is not modelled. */
  datatype Result<+T> = Success(data: T) | Failure
}
