/** A value that may be missing: a null pointer, a failed search, an error without a code. */
module Options {

  datatype Option<T> = None | Some(value: T)
}
