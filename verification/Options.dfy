/** The optional value used where the source has a zero value, a missing row or a nil. */
module Options {
  datatype Option<+T> = None | Some(value: T)
}
