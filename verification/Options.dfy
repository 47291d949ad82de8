/** The usual optional value, standing for nil pointers and null results. */
module Options {
  datatype Option<+T> = None | Some(value: T)
}
