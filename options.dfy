/** The optional value used wherever the application tests a value that may be
    `null` or `undefined`. */
module Options {

  datatype Option<+T> = None | Some(value: T)
}
