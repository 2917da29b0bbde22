/** The optional values that several components use. */
module Options {

  datatype Option<+T> = None | Some(value: T)
}
