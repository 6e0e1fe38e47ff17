/** What several components share. */
module Common {

  datatype Option<T> = None | Some(value: T)

  type Byte = b: int | 0 <= b < 256

  /** A connection, numbered as it was made. */
  type Conn = nat

  function Min(a: int, b: int): int {
    if a <= b then a else b
  }
}
