/** Value types shared by the Python back end and the JavaScript front end. */
module Common {

  datatype Option<T> = None | Some(value: T)

  /** A scalar as it travels in JSON between the two halves and sits in a
      JavaScript variable: `undefined` (a missing key), `null` / Python `None`,
      an integer, a string or a boolean. */
  datatype Scalar = Undefined | Null | Int(i: int) | Str(s: string) | Bool(b: bool)

  /** JavaScript truthiness (and Python truthiness for the values both share). */
  predicate Falsy(v: Scalar) {
    v == Undefined || v == Null || v == Int(0) || v == Str("") || v == Bool(false)
  }
}
