/** Integer division as C++ defines it: the quotient is truncated toward zero
    and the remainder takes the sign of the dividend. */
module CInt {
  function Quo(a: int, b: int): int
    requires b > 0
  {
    if a >= 0 then a / b else -(-a / b)
  }

  function Rem(a: int, b: int): int
    requires b > 0
  {
    if a >= 0 then a % b else -(-a % b)
  }
}
