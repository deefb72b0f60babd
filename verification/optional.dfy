/** A value that an engine query may or may not produce. */
module Optional {
  datatype Option<T> = None | Some(value: T)
}
