/**
 * Python runtime behaviour that the modelled code relies on: an exception
 * becomes an `Err` result, and the numeric operators whose meaning differs
 * from Dafny's (`//` rounds toward negative infinity, `int(x)` truncates
 * toward zero) are written out.
 */
module Runtime {

  datatype Option<T> = None | Some(value: T)

  /** The Python exceptions the modelled code can raise. */
  datatype Exception =
    | NotImplementedError
    | AssertionError
    | ZeroDivisionError
    | IndexError
    | NameError(name: string)
    | AttributeError(name: string)
    | UnboundLocalError(name: string)
    | ValueError
    | RuntimeError
    | TypeError

  datatype Result<T> = Ok(value: T) | Err(error: Exception)

  function Min(a: int, b: int): int { if a <= b then a else b }

  function Max(a: int, b: int): int { if a >= b then a else b }

  /** Python's `a // b` on integers, which rounds toward negative infinity. */
  function FloorDiv(a: int, b: int): (q: int)
    requires b != 0
    ensures b > 0 ==> q * b <= a < q * b + b
    ensures b < 0 ==> q * b + b < a <= q * b
  {
    if b > 0 then a / b else -a / -b
  }

  /** Python's `int(x)` on a float: truncation toward zero. */
  function Trunc(x: real): (n: int)
    ensures 0.0 <= x ==> n as real <= x < n as real + 1.0
    ensures x < 0.0 ==> n as real - 1.0 < x <= n as real
  {
    if x >= 0.0 then x.Floor else -((-x).Floor)
  }

  /** The product of two non-negative numbers is non-negative. */
  lemma MulNonneg(x: real, y: real)
    requires 0.0 <= x && 0.0 <= y
    ensures 0.0 <= x * y
  {
  }

  /** The same for integers. */
  lemma MulNonnegInt(x: int, y: int)
    requires 0 <= x && 0 <= y
    ensures 0 <= x * y
  {
  }

  /** Scaling a whole number by a factor of at least 1 and truncating does not go below it. */
  lemma TruncOfStretch(n: nat, ratio: real)
    requires 1.0 <= ratio
    ensures n <= Trunc(n as real * ratio)
  {
    var x := n as real;
    MulNonneg(x, ratio - 1.0);
    assert x * ratio == x + x * (ratio - 1.0);
  }

  /** `math.ceil`, which torch's `.ceil()` computes for the values used here. */
  function Ceil(x: real): (n: int)
    ensures x <= n as real < x + 1.0
  {
    if x == x.Floor as real then x.Floor else x.Floor + 1
  }

  /** `x.frac()` of torch for a non-negative `x`: the part after the point. */
  function Frac(x: real): (f: real)
    requires 0.0 <= x
    ensures 0.0 <= f < 1.0
    ensures f == 0.0 <==> x == x.Floor as real
  {
    x - x.Floor as real
  }
}
