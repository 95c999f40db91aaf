/** Small shared vocabulary: an optional value. */
module Common {

  /** Some(v) or nothing. */
  datatype Option<T> = None | Some(value: T)
}
