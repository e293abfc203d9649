/** A value that may be absent: a missing row, a missing file, no error. */
module Options {
  datatype Option<+T> = None | Some(value: T)
}
