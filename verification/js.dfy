/** The few JavaScript notions the other modules share: absent values, numbers that may
    be non-finite, and the arithmetic helpers of `Math`. Finite numbers are exact reals. */
module Js {
  datatype Option<+T> = None | Some(value: T)

  /** A JavaScript number. `NaN` also stands for a missing (undefined) operand of `Number(..)`. */
  datatype Num = NaN | PosInf | NegInf | Fin(value: real)

  function Finite(n: Num): Option<real> {
    if n.Fin? then Some(n.value) else None
  }

  function Max(a: real, b: real): real {
    if a < b then b else a
  }

  function Min(a: real, b: real): real {
    if b < a then b else a
  }

  function Abs(a: real): real {
    if a < 0.0 then -a else a
  }

  function MaxInt(a: int, b: int): int {
    if a < b then b else a
  }

  function MinInt(a: int, b: int): int {
    if b < a then b else a
  }

  /** `Math.round`: the nearest integer, halves upwards. */
  function Round(x: real): (n: int)
    ensures x - 0.5 < n as real <= x + 0.5
  {
    (x + 0.5).Floor
  }
}
