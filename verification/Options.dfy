/** A value or nothing: null pointers and failing calls. */
module Options {
  datatype Option<T> = None | Some(value: T)
}
