/** An optional value, for the source's "value and error" and "value and ok" results. */
module Options {
  datatype Option<+T> = None | Some(value: T)
}
