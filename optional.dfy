/** The usual Some/None datatype: `None` stands for JavaScript's `undefined`. */
module Optional {
  datatype Option<+T> = None | Some(value: T)
}
