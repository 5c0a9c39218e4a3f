/** Ground-crossing interpolation: where, within one step, a path that falls
    through the ground plane y = 0 actually meets it. */
module GroundContact {

  /** The fraction of the step at which the straight line from height `yPrev`
      to height `y` reaches zero, guarded against a zero denominator. */
  function CrossingFraction(yPrev: real, y: real): real {
    var denom := yPrev - y;
    if denom != 0.0 then yPrev / denom else 0.0
  }

  /** When the step starts on or above the ground and ends below it, the
      fraction lies in [0, 1), is 0 exactly when the step starts on the ground,
      and interpolating the two heights with it gives exactly zero. */
  lemma CrossingFractionBounds(yPrev: real, y: real)
    requires 0.0 <= yPrev && y < 0.0
    ensures 0.0 <= CrossingFraction(yPrev, y) < 1.0
    ensures CrossingFraction(yPrev, y) == 0.0 <==> yPrev == 0.0
    ensures yPrev + CrossingFraction(yPrev, y) * (y - yPrev) == 0.0
  {
    var denom := yPrev - y;
    var alpha := yPrev / denom;
    assert denom > 0.0;
    assert alpha * denom == yPrev;
  }

  /** Moving back to a fraction in [0, 1) of a positive step from the start
      of a step that ends at time `t` gives a time no earlier than the start,
      strictly before `t`, and at the start only for the fraction 0. */
  lemma BacktrackWithinStep(t: real, dt: real, alpha: real)
    requires 0.0 <= alpha < 1.0 && dt > 0.0
    ensures t - dt <= t - dt + alpha * dt < t
    ensures t - dt + alpha * dt == t - dt <==> alpha == 0.0
  {
    assert (1.0 - alpha) * dt > 0.0;
    if alpha > 0.0 {
      assert alpha * dt > 0.0;
    }
  }

  /** A step with no net change of height falls back to the fraction 0, the
      start of the step. */
  lemma CrossingFractionLevel(yPrev: real, y: real)
    requires yPrev == y
    ensures CrossingFraction(yPrev, y) == 0.0
  {
  }

  /** Linear interpolation from `a` (at fraction 0) to `b` (at fraction 1). */
  function Lerp(a: real, b: real, alpha: real): real {
    a + alpha * (b - a)
  }

  /** For a fraction in [0, 1] the interpolated value lies between the two
      ends, and the fraction 0 gives the first end. */
  lemma LerpBetween(a: real, b: real, alpha: real)
    requires 0.0 <= alpha <= 1.0
    ensures (a <= Lerp(a, b, alpha) <= b) || (b <= Lerp(a, b, alpha) <= a)
    ensures alpha == 0.0 ==> Lerp(a, b, alpha) == a
  {
    var d := b - a;
    if d >= 0.0 {
      assert 0.0 <= alpha * d <= d by {
        assert (1.0 - alpha) * d >= 0.0;
      }
    } else {
      assert d <= alpha * d <= 0.0 by {
        assert (1.0 - alpha) * (-d) >= 0.0;
      }
    }
  }
}
