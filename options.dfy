/** The usual optional value, standing in for Python's `None`. */
module Options {
  datatype Option<+T> = None | Some(value: T)
}
