/** The optional value used for parses and directory listings that may fail. */
module Options {

  datatype Option<+T> = None | Some(value: T)
}
