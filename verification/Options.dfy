/** A value that may be missing: None in Python. */
module Options {

  datatype Option<+T> = None | Some(value: T)
}
