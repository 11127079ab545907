/** A value or the lack of one. */
module Options {
  datatype Option<+T> = None | Some(value: T)
}
