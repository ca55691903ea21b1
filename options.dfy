/** An optional value: a value that may be missing, like `null` in the components. */
module Options {

  datatype Option<+T> = None | Some(value: T)
}
