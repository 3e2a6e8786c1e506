/** Shared wrapper types and the integer conventions of the source language. */
module Base {

  /** Python's `None` versus a present value. */
  datatype Option<+T> = None | Some(value: T) {
    function GetOr(default: T): T {
      match this
      case Some(v) => v
      case None => default
    }
  }

  /** Outcome of decoding a persisted value: the source returns `None` (Null),
      builds the object (Ok), or raises or builds an object whose field types
      this model cannot express (Fail). */
  datatype Decoded<+T> = Null | Ok(value: T) | Fail

  /** A grid coordinate `(x, y)`. */
  type Pos = (int, int)

  function Max(a: int, b: int): (r: int)
    ensures r >= a && r >= b && (r == a || r == b)
  {
    if a >= b then a else b
  }

  function Min(a: int, b: int): (r: int)
    ensures r <= a && r <= b && (r == a || r == b)
  {
    if a <= b then a else b
  }

  function MaxReal(a: real, b: real): (r: real)
    ensures r >= a && r >= b && (r == a || r == b)
  {
    if a >= b then a else b
  }

  function Abs(a: int): (r: nat)
    ensures r == a || r == -a
  {
    if a >= 0 then a else -a
  }

  /** Python's `int(a / b)` for a positive divisor: division truncating
      toward zero (Dafny's own `/` rounds toward negative infinity here). */
  function TruncDiv(a: int, b: int): (r: int)
    requires b > 0
    ensures a >= 0 ==> r == a / b
    ensures a < 0 ==> r == -((-a) / b)
  {
    if a >= 0 then a / b else -((-a) / b)
  }

  /** Python's `int(x)` on a float: the integer part, truncating toward zero.
      Float arithmetic is modelled by exact rationals; the source only
      multiplies small integers and halves by 0.5, 1.2, 1.5, 1.6 and 1.8,
      whose rounding never crosses an integer at these magnitudes. */
  function TruncReal(x: real): (r: int)
    ensures x >= 0.0 ==> r as real <= x < r as real + 1.0
    ensures x < 0.0 ==> r as real - 1.0 < x <= r as real
  {
    if x >= 0.0 then x.Floor else -((-x).Floor)
  }

  /** Python's `seq[k]` with negative indices counting from the end. */
  predicate PyIndexOk(n: nat, k: int) {
    -(n as int) <= k < n
  }

  function PyIndex(n: nat, k: int): (r: nat)
    requires PyIndexOk(n, k)
    ensures r < n
    ensures k >= 0 ==> r == k
    ensures k < 0 ==> r == n + k
  {
    if k >= 0 then k else n + k
  }

  /** `s.pop(i)`: `s` without its element at `i`, order kept. */
  function RemoveAt<T>(s: seq<T>, i: nat): (r: seq<T>)
    requires i < |s|
    ensures |r| == |s| - 1
    ensures forall k :: 0 <= k < i ==> r[k] == s[k]
    ensures forall k :: i <= k < |r| ==> r[k] == s[k + 1]
    ensures multiset(r) + multiset{s[i]} == multiset(s)
  {
    assert s == s[..i] + [s[i]] + s[i + 1..];
    s[..i] + s[i + 1..]
  }

  function Sum(s: seq<int>): int {
    if |s| == 0 then 0 else Sum(s[..|s| - 1]) + s[|s| - 1]
  }
}
