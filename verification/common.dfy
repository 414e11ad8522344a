/** Small shared datatypes and character classes. */
module Common {

  /** A value that may be absent: JavaScript's `null` / `undefined` where the source uses it. */
  datatype Option<+T> = None | Some(value: T)

  /** The class `[a-z0-9]`. */
  predicate IsLowerAlnum(c: char) {
    ('a' <= c <= 'z') || ('0' <= c <= '9')
  }
}
