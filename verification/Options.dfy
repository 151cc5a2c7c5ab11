/** An optional value, for lookups and for results that may be absent. */
module Options {
  datatype Option<+T> = None | Some(value: T)
}
