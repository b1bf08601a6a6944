/** A value or nothing: Python's `None`, a missing row, a failed lookup. */
module Options {
  datatype Option<+T> = None | Some(value: T)
}
