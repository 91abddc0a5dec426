/** Status codes, throttle states and event priorities shared by the resource,
    event and system components. The header that declares them (defs.h) is not
    part of this model: the priorities are given concrete values here, and the
    only fact the rest of the model relies on is that High ranks above Low. */
module Defs {

  /** Result codes of a conversion or storage attempt. */
  datatype Status = StatusOk | StatusEmpty | StatusInsufficient | StatusCapacity

  /** A system's throttle state: it scales the processing time, and Terminate
      ends the system's thread loop. */
  datatype Throttle = Standard | Slow | Fast | Terminate

  /** Event priority for a conversion failure (input shortage). */
  const PriorityHigh: int := 2

  /** Event priority for a storage failure (output overflow). */
  const PriorityLow: int := 1

  /** C's `/` on int: the quotient truncated toward zero. */
  function CDiv(a: int, b: int): (q: int)
    requires b > 0
    ensures a >= 0 ==> 0 <= a - q * b < b
    ensures a < 0 ==> -b < a - q * b <= 0
  {
    if a >= 0 then a / b else -((-a) / b)
  }

  function Min(a: int, b: int): int { if a <= b then a else b }

  function Max(a: int, b: int): int { if a >= b then a else b }
}
