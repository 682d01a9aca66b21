/** What every module shares: an absent value, and Go's conversion of a real number to an integer. */
module Base {
  datatype Option<+T> = None | Some(value: T)

  /** int(...) of a float and IntPart of a decimal: the fraction is dropped, towards zero. */
  function Truncate(x: real): (n: int)
    ensures x >= 0.0 ==> n as real <= x < n as real + 1.0
    ensures x < 0.0 ==> n as real - 1.0 < x <= n as real
  {
    if x >= 0.0 then x.Floor else -((-x).Floor)
  }

  /** A product of two variables under a name, so that proofs can treat it as one number. */
  function Times(x: real, y: real): (p: real) {
    x * y
  }
}
