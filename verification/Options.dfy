/** An optional value: the source's "value, ok" pairs and nil pointers. */
module Options {
  datatype Option<+T> = None | Some(value: T)
}
