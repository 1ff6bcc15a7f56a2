/** The optional value of a JavaScript property that may be `undefined`. */
module Options {

  datatype Option<+T> = None | Some(value: T)
}
