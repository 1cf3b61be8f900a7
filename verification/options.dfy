/** The Some/None type used for absent files, absent digests and optional columns. */
module Options {
  datatype Option<+T> = None | Some(value: T)
}
