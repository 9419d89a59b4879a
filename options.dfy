/** The usual optional-value wrapper, shared by the model's modules. */
module Options {
  datatype Option<T> = None | Some(value: T)
}
