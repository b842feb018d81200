/** Number helpers standing in for JavaScript's `Math.max`, `Math.min` and for
    division, which in JavaScript does not fail on a zero divisor. */
module Numbers {

  /** The outcome of a JavaScript division `a / b` of finite numbers: a finite
      value, or one of `Infinity`, `-Infinity`, `NaN` when `b` is zero. */
  datatype Quotient = Finite(value: real) | NonFinite

  function Divide(a: real, b: real): (q: Quotient)
    ensures q.Finite? <==> b != 0.0
    ensures q.Finite? ==> q.value * b == a
  {
    if b == 0.0 then NonFinite else Finite(a / b)
  }

  function MaxReal(a: real, b: real): real {
    if a >= b then a else b
  }

  function MinReal(a: real, b: real): real {
    if a <= b then a else b
  }

  function MaxInt(a: int, b: int): int {
    if a >= b then a else b
  }

  function MinInt(a: int, b: int): int {
    if a <= b then a else b
  }

  /** `Math.max(lo, Math.min(hi, v))`: `v` brought into `[lo, hi]`. */
  function ClampInt(lo: int, hi: int, v: int): (r: int)
    requires lo <= hi
    ensures lo <= r <= hi
    ensures lo <= v <= hi ==> r == v
    ensures v < lo ==> r == lo
    ensures v > hi ==> r == hi
  {
    MaxInt(lo, MinInt(hi, v))
  }

  /** The same clamp on reals. */
  function ClampReal(lo: real, hi: real, v: real): (r: real)
    requires lo <= hi
    ensures lo <= r <= hi
    ensures lo <= v <= hi ==> r == v
    ensures v < lo ==> r == lo
    ensures v > hi ==> r == hi
  {
    MaxReal(lo, MinReal(hi, v))
  }
}
