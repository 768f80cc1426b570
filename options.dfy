/** A value the script may not have: Python's `None` or a present value. */
module Options {
  datatype Option<T> = None | Some(value: T)
}
