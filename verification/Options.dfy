/** A value or none, for Go's nil pointers and "found" results. */
module Options {
  datatype Option<T> = None | Some(value: T)
}
