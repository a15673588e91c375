/** Small shared datatypes. */
module Common {

  /** An optional value, as the source's `Option` (a file extension, a digit). */
  datatype Option<+T> = None | Some(value: T)
}
