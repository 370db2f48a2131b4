/** Small arithmetic shared by the other modules. */
module Util {

  /** The larger of two naturals. */
  function Max(a: nat, b: nat): (m: nat)
    ensures m >= a && m >= b
    ensures m == a || m == b
  {
    if a < b then b else a
  }
}
