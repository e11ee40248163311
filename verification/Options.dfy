/** Optional values, for Go's nil and (value, ok) results. */
module Options {
  datatype Option<+T> = None | Some(value: T)
}
