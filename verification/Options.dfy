/** A value that may be absent: `null`, `undefined` or SQL NULL in the source. */
module Options {
  datatype Option<+T> = None | Some(value: T)
}
