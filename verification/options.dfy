/** A value that may be missing, for the source's null results and failures. */
module Options {
  datatype Option<+T> = None | Some(value: T)
}
