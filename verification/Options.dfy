/** The one wrapper type the rest of the model shares. */
module Options {
  datatype Option<+T> = None | Some(value: T)
}
