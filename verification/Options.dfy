/** A value that may be absent, as `null` and `undefined` express it. */
module Options {

  datatype Option<+T> = None | Some(value: T)
}
