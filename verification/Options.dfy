/** The one wrapper every component uses. */
module Options {
  datatype Option<+T> = None | Some(value: T)
}
