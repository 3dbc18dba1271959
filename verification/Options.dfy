/** A value that may be missing: the null pointers and failures of the code. */
module Options {
  datatype Option<T> = None | Some(value: T)
}
