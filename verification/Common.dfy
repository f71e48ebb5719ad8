/** What several modules share. */
module Common {

  datatype Option<T> = None | Some(value: T)

  type Bytes = seq<bv8>

  function Min(a: int, b: int): int {
    if a < b then a else b
  }
}
