/** A value that may be missing: a pointer that may be NULL, or what a call reports when it has nothing. */
module Options {
  datatype Option<T> = None | Some(value: T)
}
