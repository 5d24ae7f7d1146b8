/** The optional value used wherever the source has a nullable cell or an optional field. */
module Optional {
  datatype Option<+T> = None | Some(value: T)
}
