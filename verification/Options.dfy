/** A value that may be missing: SQL NULL, Python's None, a row that is not there. */
module Options {
  datatype Option<+T> = None | Some(value: T)
}
