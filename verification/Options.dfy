/** A value that may be absent: a nil pointer, an empty setting, a lookup that finds nothing. */
module Options {

  datatype Option<+T> = None | Some(value: T)
}
