/** Java's nullable references, as a value that is either absent or present. */
module Options {

  datatype Option<+T> = None | Some(value: T)
}
