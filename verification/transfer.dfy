/**
 The per-sample transfer curve of complex_clip: a symmetric hard clip at
 the effective threshold `t`, renormalised so the clip point maps to `gain`.
 Samples and parameters are real numbers.
 */
module Transfer {

  import opened RealOps

  /** The effective clip point: one third of the stored threshold. */
  function Effective(threshold: real): (t: real)
    ensures threshold > 0.0 ==> 0.0 < t < threshold
    ensures t * 3.0 == threshold
  {
    threshold / 3.0
  }

  /** Clamping into the closed interval [-t, t]. */
  function Clamp(x: real, t: real): (c: real)
    requires t >= 0.0
    ensures -t <= c <= t
    ensures -t <= x <= t ==> c == x
    ensures x > t ==> c == t
    ensures x < -t ==> c == -t
  {
    if x < -t then -t else if x > t then t else x
  }

  /** An independent statement of the same curve: clamp the sample into
      [-t, t], then map [-t, t] linearly onto [-gain, gain]. */
  function ClampThenScale(x: real, t: real, gain: real): (r: real)
    requires t > 0.0
  {
    Clamp(x, t) / t * gain
  }

  /** The curve as the plugin evaluates it: non-negative samples are capped
      from above at `t`, negative ones from below at `-t`, then the result
      is divided by `t` and scaled by `gain`. The division needs `t != 0`.
      For a positive clip point the sign split is immaterial: the curve is
      the clamp-then-scale curve below. */
  function Clip(x: real, t: real, gain: real): (r: real)
    requires t != 0.0
    ensures t > 0.0 ==> r == ClampThenScale(x, t, gain)
  {
    SignSplitIsClamp(x, t);
    if x >= 0.0 then Min(x, t) / t * gain
    else Max(x, -t) / t * gain
  }

  /** For a positive clip point, capping a non-negative sample at `t` and a
      negative one at `-t` is the same as clamping it into [-t, t]. */
  lemma SignSplitIsClamp(x: real, t: real)
    ensures t > 0.0 && x >= 0.0 ==> Min(x, t) == Clamp(x, t)
    ensures t > 0.0 && x < 0.0 ==> Max(x, -t) == Clamp(x, t)
  {
  }

  /** Dividing a value of [-t, t] by t lands in [-1, 1]. */
  lemma DivideIntoUnit(c: real, t: real)
    requires t > 0.0 && -t <= c <= t
    ensures -1.0 <= c / t <= 1.0
  {
    var u := c / t;
    assert u * t == c;
    assert (1.0 - u) * t == t - c >= 0.0;
    assert (1.0 + u) * t == t + c >= 0.0;
  }

  /** A quotient is the one number that multiplies back to the dividend. */
  lemma QuotientUnique(a: real, t: real, q: real)
    requires t != 0.0 && q * t == a
    ensures a / t == q
  {
    var d := a / t;
    assert d * t == a;
    assert (d - q) * t == 0.0;
  }

  /** Scaling a value of [-1, 1] by a non-negative gain lands in [-gain, gain]. */
  lemma ScaleUnit(u: real, gain: real)
    requires -1.0 <= u <= 1.0 && gain >= 0.0
    ensures -gain <= u * gain <= gain
  {
    if u >= 0.0 {
      assert u * gain <= 1.0 * gain;
    } else {
      assert (-u) * gain <= 1.0 * gain;
    }
  }

  /** Dividing by a positive t and scaling by a non-negative gain keep order. */
  lemma DivideScaleMonotone(a: real, b: real, t: real, gain: real)
    requires t > 0.0 && gain >= 0.0 && a <= b
    ensures a / t * gain <= b / t * gain
  {
    var ua, ub := a / t, b / t;
    assert ua * t == a && ub * t == b;
    assert (ub - ua) * t == b - a >= 0.0;
    assert (ub - ua) * gain >= 0.0;
  }

  /** Inside [-t, t] the curve is the straight line through the origin
      that maps t to gain. */
  lemma LinearRegion(x: real, t: real, gain: real)
    requires t > 0.0
    requires -t <= x <= t
    ensures Clip(x, t, gain) == x / t * gain
  {
  }

  /** At or beyond the clip point the curve is flat at +gain or -gain. */
  lemma Saturation(x: real, t: real, gain: real)
    requires t > 0.0
    ensures x >= t ==> Clip(x, t, gain) == gain
    ensures x <= -t ==> Clip(x, t, gain) == -gain
  {
    assert t / t == 1.0;
    assert -t / t == -1.0;
  }

  /** The output never leaves [-gain, gain], whatever the input. */
  lemma Bounded(x: real, t: real, gain: real)
    requires t > 0.0 && gain >= 0.0
    ensures -gain <= Clip(x, t, gain) <= gain
  {
    DivideIntoUnit(Clamp(x, t), t);
    ScaleUnit(Clamp(x, t) / t, gain);
  }

  /** The sign of the input survives: non-negative in, non-negative out;
      negative in, non-positive out. */
  lemma SignPreserved(x: real, t: real, gain: real)
    requires t > 0.0 && gain >= 0.0
    ensures x >= 0.0 ==> Clip(x, t, gain) >= 0.0
    ensures x < 0.0 ==> Clip(x, t, gain) <= 0.0
    ensures x == 0.0 ==> Clip(x, t, gain) == 0.0
  {
    if x >= 0.0 {
      DivideScaleMonotone(0.0, Clamp(x, t), t, gain);
    } else {
      DivideScaleMonotone(Clamp(x, t), 0.0, t, gain);
    }
  }

  /** The curve is odd: mirroring the input mirrors the output. */
  lemma Odd(x: real, t: real, gain: real)
    requires t > 0.0
    ensures Clip(-x, t, gain) == -Clip(x, t, gain)
  {
    var c := Clamp(x, t);
    assert Clamp(-x, t) == -c;
    var u := c / t;
    assert u * t == c;
    QuotientUnique(-c, t, -u);
    assert (-(c / t)) * gain == -((c / t) * gain);
  }

  /** The curve never decreases as the input grows. */
  lemma Monotone(x: real, y: real, t: real, gain: real)
    requires t > 0.0 && gain >= 0.0
    requires x <= y
    ensures Clip(x, t, gain) <= Clip(y, t, gain)
  {
    var cx, cy := Clamp(x, t), Clamp(y, t);
    assert cx <= cy;
    DivideScaleMonotone(cx, cy, t, gain);
  }

  /** The worked example of the default store (threshold 1.0, gain 0.5):
      0.5 and 1.5 both lie past the effective clip point 1/3 and map to 0.5,
      and -2.0 lies past -1/3 and maps to -0.5. */
  lemma DefaultExample()
    ensures Clip(0.5, Effective(1.0), 0.5) == 0.5
    ensures Clip(1.5, Effective(1.0), 0.5) == 0.5
    ensures Clip(-2.0, Effective(1.0), 0.5) == -0.5
  {
    var t := Effective(1.0);
    Saturation(0.5, t, 0.5);
    Saturation(1.5, t, 0.5);
    Saturation(-2.0, t, 0.5);
  }

  /** With the default store, 1/6, half the effective clip point, lies in
      the linear region and maps to half the gain, 0.25. */
  lemma DefaultExampleLinear()
    ensures Clip(1.0 / 6.0, Effective(1.0), 0.5) == 0.25
  {
    var t := Effective(1.0);
    LinearRegion(1.0 / 6.0, t, 0.5);
    assert (1.0 / 6.0) / t == 0.5;
  }
}
