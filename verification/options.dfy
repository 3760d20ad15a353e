/** A value or nothing: nullable columns and lookups. */
module Options {
  datatype Option<+T> = None | Some(value: T)
}
