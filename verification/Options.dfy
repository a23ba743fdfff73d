/** The usual optional value, for the source's `T | undefined`. */
module Options {
  datatype Option<+T> = None | Some(value: T)
}
