/** The optional value used for absent JSON keys, `None`, `null` and `undefined`. */
module Options {
  datatype Option<+T> = None | Some(value: T)
}
