/** The optional value shared by the screens' models. */
module Options {
  datatype Option<T> = None | Some(value: T)
}
