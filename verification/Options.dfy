/** A value that may be missing: a nullable column, or a lookup without a hit. */
module Options {
  datatype Option<+T> = None | Some(value: T)
}
