/** The optional value used where the source has `T | null` or `T | undefined`. */
module Options {
  datatype Option<T> = None | Some(value: T)
}
