/** The optional values of the records: a field that may be absent. */
module Options {

  datatype Option<+T> = None | Some(value: T)
}
