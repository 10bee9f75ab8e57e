/** Python's `None`-or-value. */
module Optional {
  datatype Option<+T> = None | Some(value: T)
}
