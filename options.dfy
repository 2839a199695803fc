/** The optional value used by the recognizers of the model. */
module Options {

  datatype Option<+T> = None | Some(value: T)
}
