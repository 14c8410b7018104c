module Optional {
  /** A value that may be missing; stands for the null pointers and lookups that find nothing. */
  datatype Option<+T> = None | Some(value: T)
}
