/** An optional value, for the source's null, undefined and thrown cases. */
module Options {
  datatype Option<+T> = None | Some(value: T)
}
