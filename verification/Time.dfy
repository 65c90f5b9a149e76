/** Microsecond time points and durations, and the C++ arithmetic on them. */
module Time {

  /** A time point or a duration in microseconds.  Invalid stands for the reserved value
      9223372036854775807, which no computation on valid readings is meant to reach. */
  datatype Reading = Invalid | Us(us: int)

  datatype Option<T> = None | Some(value: T)

  /** The difference of two readings, never computed on the reserved value. */
  function Diff(a: Reading, b: Reading): Reading {
    if a.Invalid? || b.Invalid? then Invalid else Us(a.us - b.us)
  }

  /** Integer division that truncates toward zero. */
  function TruncDiv(a: int, b: int): int
    requires b > 0
  {
    if a >= 0 then a / b else -(-a / b)
  }

  /** The remainder that goes with TruncDiv; it has the sign of a. */
  function TruncRem(a: int, b: int): int
    requires b > 0
  {
    a - TruncDiv(a, b) * b
  }

  /** Conversion of a double to an integer: truncation toward zero. */
  function Trunc(x: real): int {
    if x >= 0.0 then x.Floor else -((-x).Floor)
  }

  function Abs(x: int): int {
    if x >= 0 then x else -x
  }

  function AbsR(x: real): real {
    if x >= 0.0 then x else -x
  }

  lemma TruncRemRange(a: int, b: int)
    requires b > 0
    ensures -b < TruncRem(a, b) < b
    ensures a >= 0 ==> TruncRem(a, b) == a % b
    ensures a <= 0 ==> TruncRem(a, b) <= 0
  {
    if a < 0 {
      assert -a == (-a / b) * b + -a % b;
    } else {
      assert a == (a / b) * b + a % b;
    }
  }

  /** Multiplying by a nonnegative factor keeps order. */
  lemma MulMono(x: real, y: real, z: real)
    requires x <= y && 0.0 <= z
    ensures x * z <= y * z
  {
  }

  lemma MulNonneg(x: real, y: real)
    requires 0.0 <= x && 0.0 <= y
    ensures 0.0 <= x * y
  {
    MulMono(0.0, x, y);
  }
}
