/** A value that may be absent: Python's None and SQL's NULL. */
module Options {

  datatype Option<+T> = None | Some(value: T)
}
