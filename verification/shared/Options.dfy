/** A value that may be absent: SQL NULL, Python None, a missing JSON member. */
module Options {

  datatype Option<+T> = None | Some(value: T)
}
