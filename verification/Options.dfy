/** A value that may be absent: SQL NULL, a lookup that finds nothing, a parse that fails. */
module Options {
  datatype Option<+T> = None | Some(value: T)
}
