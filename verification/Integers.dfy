/** C++ integer operators that differ from Dafny's. */
module Integers {

  /** Division rounding toward zero. */
  function TruncDiv(x: int, y: int): int
    requires y > 0
  {
    if x >= 0 then x / y else -((-x) / y)
  }

  /** The remainder that goes with `TruncDiv`; it has the sign of `x`. */
  function TruncMod(x: int, y: int): int
    requires y > 0
  {
    if x >= 0 then x % y else -((-x) % y)
  }

  /** static_cast<int8_t>. */
  function Int8(x: int): (r: int)
    ensures -128 <= r < 128 && (-128 <= x < 128 ==> r == x)
  {
    (x + 128) % 256 - 128
  }

  function Abs(x: int): nat {
    if x < 0 then -x else x
  }
}
