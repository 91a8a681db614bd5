/** Small arithmetic shared by the send loops. */
module Arith {
  /** `cmp::min` on sizes. */
  function Min(a: nat, b: nat): (m: nat)
    ensures m <= a && m <= b && (m == a || m == b)
  {
    if a <= b then a else b
  }
}
