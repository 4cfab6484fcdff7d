/** The optional value used for JavaScript's `null`/`undefined` fields. */
module Options {

  datatype Option<+T> = None | Some(value: T)
}
