/** Option, the shape of "maybe a value" the model needs, and two small helpers. */
module Wrappers {

  /** A value that may be absent: JavaScript's `undefined`/`null`, a missing key. */
  datatype Option<+T> = None | Some(value: T)

  function Min(a: int, b: int): int { if a <= b then a else b }

  function Max(a: int, b: int): int { if a >= b then a else b }
}
