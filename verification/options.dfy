/** The optional value the lexer's cursor primitives and sub-scanners return. */
module Options {

  /** Rust's `Option<T>`: a value, or nothing. */
  datatype Option<+T> = None | Some(value: T)
}
