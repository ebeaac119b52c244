/** The optional value that stands for the operator's nil pointers. */
module Options {
  datatype Option<+T> = None | Some(value: T)
}
