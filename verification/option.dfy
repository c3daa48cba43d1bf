/** A value that may be absent, as an optional property or `undefined` is in the source. */
module Optional {
  datatype Option<T> = None | Some(value: T)
}
