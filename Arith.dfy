/** Integer minimum and maximum, shared by the length statements of the other modules. */
module Arith {

  function Min(a: int, b: int): int { if a <= b then a else b }

  function Max(a: int, b: int): int { if a >= b then a else b }
}
