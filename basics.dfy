/** Small definitions shared by the other modules. */
module Basics {

  /** An optional value: `None` stands for "no value" (an empty result or a thrown exception). */
  datatype Option<+T> = None | Some(value: T)

  /** `isspace` in the classic "C" locale: space, \t, \n, \v, \f and \r. */
  predicate IsSpace(c: char)
  {
    c == ' ' || c == '\t' || c == '\n' || c == '\U{0B}' || c == '\U{0C}' || c == '\r'
  }
}
