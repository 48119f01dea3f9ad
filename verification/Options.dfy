/** A value that may be absent; the source writes NULL for the absent one. */
module Options {
  datatype Option<+T> = None | Some(value: T)
}
