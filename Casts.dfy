/** The numeric conversions the frame elements use when they carry integers through
    a vector of doubles. */
module Casts {

  /** The C conversion `(int)x`: truncation toward zero (not Dafny's floor). */
  function Trunc(x: real): (n: int)
    ensures x >= 0.0 ==> n as real <= x < n as real + 1.0
    ensures x < 0.0 ==> n as real - 1.0 < x <= n as real
  {
    if x >= 0.0 then x.Floor else -((-x).Floor)
  }

  /** An integer stored as a double converts back to itself. */
  lemma TruncOfInt(n: int)
    ensures Trunc(n as real) == n
  {
  }
}
