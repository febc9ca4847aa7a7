/** The Some/None datatype that stands for a C pointer that may be NULL. */
module Optional {
  datatype Option<+T> = None | Some(value: T)
}
