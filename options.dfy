/** The optional value used wherever the source has `T | null`. */
module Options {
  datatype Option<+T> = None | Some(value: T)
}
