/** The usual optional value, used where the source has `null` or `undefined`. */
module Options {
  datatype Option<+T> = None | Some(value: T)
}
