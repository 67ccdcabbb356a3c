/** A value that may be absent: null and undefined in the modelled code. */
module Options {
  datatype Option<+T> = None | Some(value: T)
}
