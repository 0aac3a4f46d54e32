/** Types and small functions shared by all modules. */
module Prelude {

  datatype Option<+T> = None | Some(value: T)

  const U32_COUNT: int := 0x1_0000_0000

  type U32 = x: int | 0 <= x < U32_COUNT

  function Abs(x: int): nat {
    if x >= 0 then x else -x
  }

  function Min(a: int, b: int): int {
    if a <= b then a else b
  }

  function Max(a: int, b: int): int {
    if a <= b then b else a
  }
}
