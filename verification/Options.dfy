/** A value that may be absent, such as a timer that is not set or a nil pointer. */
module Options {
  datatype Option<+T> = None | Some(value: T)
}
