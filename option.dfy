/** The optional value both crates use (`Option` in the source). */
module Options {
  datatype Option<T> = None | Some(value: T)
}
