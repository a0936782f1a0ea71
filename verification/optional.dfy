/** The optional value used across the model for "may be absent" results. */
module Optional {
  datatype Option<+T> = None | Some(value: T)
}
