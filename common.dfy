/** Small value types and the real-number helpers (absolute value, the two
    rounding rules JavaScript uses) shared by the other modules. */
module Common {

  datatype Option<+T> = None | Some(value: T)

  function Abs(x: real): (r: real)
    ensures r >= 0.0
    ensures r == x || r == -x
  {
    if x < 0.0 then -x else x
  }

  function Min(a: real, b: real): (r: real)
    ensures r <= a && r <= b
    ensures r == a || r == b
  {
    if a <= b then a else b
  }

  function Max(a: real, b: real): (r: real)
    ensures r >= a && r >= b
    ensures r == a || r == b
  {
    if a >= b then a else b
  }

  /** `Math.round(x)`: the nearest integer, halves rounded up (towards +infinity). */
  function RoundHalfUp(x: real): (n: int)
    ensures x - 0.5 < n as real <= x + 0.5
  {
    (x + 0.5).Floor
  }

  /** `x.toFixed(0)` read back as a number: the nearest integer, halves
      rounded away from zero (toFixed works on the magnitude and then
      puts the sign back). */
  function RoundHalfAwayFromZero(x: real): (n: int)
    ensures x >= 0.0 ==> x - 0.5 < n as real <= x + 0.5
    ensures x < 0.0 ==> x - 0.5 <= n as real < x + 0.5
  {
    if x >= 0.0 then RoundHalfUp(x) else -RoundHalfUp(-x)
  }
}
