/** The optional value used by the parsers of the model. */
module Optional {
  datatype Option<T> = None | Some(value: T)
}
