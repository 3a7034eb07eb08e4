/** Minimum and maximum on reals, the two comparisons the plugin uses on
    its 32-bit floats (NaN handling is not modelled). */
module RealOps {

  function Min(a: real, b: real): (r: real)
    ensures r <= a && r <= b
    ensures r == a || r == b
  {
    if a <= b then a else b
  }

  function Max(a: real, b: real): (r: real)
    ensures r >= a && r >= b
    ensures r == a || r == b
  {
    if a >= b then a else b
  }
}
