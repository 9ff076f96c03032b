/** The optional value used wherever the source has `undefined`, a failed parse or an absent slot. */
module Optional {
  datatype Option<T> = None | Some(value: T)
}
