/** The result of a parse that may fail. */
module Optional {
  datatype Option<+T> = None | Some(value: T)
}
