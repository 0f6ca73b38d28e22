/** What several modules share. */
module Basics {

  type Byte = bv8

  datatype Option<+T> = None | Some(value: T)

  function Min(a: int, b: int): int { if b < a then b else a }
}
