/** Values that may be missing, and outcomes that may be errors. */
module Options {
  datatype Option<+T> = None | Some(value: T)
}
