/** A value that may be missing: an absent field, a failed read, a lookup without a hit. */
module Options {
  datatype Option<+T> = None | Some(value: T)
}
