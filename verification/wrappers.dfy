/** Small helper types shared by the other modules. */
module Wrappers {

  /** Python's `None` or a present value; `.string` of a table cell is one of these. */
  datatype Option<+T> = None | Some(value: T)

  function Min(a: int, b: int): int
  {
    if a <= b then a else b
  }
}
