/** Small shared vocabulary: an optional value, as Python's `None`-or-value,
    truthiness, and ASCII decimal digits. */
module Common {

  datatype Option<T> = None | Some(value: T)

  /** Python truthiness of an optional string: present and non-empty. */
  predicate Truthy(s: Option<string>) {
    s.Some? && s.value != ""
  }

  /** Python truthiness of an optional int: present and non-zero. */
  predicate TruthyInt(x: Option<int>) {
    x.Some? && x.value != 0
  }

  /** An ASCII decimal digit, as MySQL's number parsing and the ASCII reading
      of a regular expression's `\d` both take it. */
  predicate IsDigit(c: char) {
    '0' <= c <= '9'
  }
}
