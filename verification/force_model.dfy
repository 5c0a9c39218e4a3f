/** The force model of the trajectory integrator: the acceleration acting on the
    projectile, from gravity and an optional drag term, at a given velocity. */
module ForceModel {

  /** `np.sign` on a real number: -1, 0 or 1. */
  function Sign(v: real): real {
    if v > 0.0 then 1.0 else if v < 0.0 then -1.0 else 0.0
  }

  /** The absolute value of a real number. */
  function Abs(v: real): real {
    if v < 0.0 then -v else v
  }

  /** The written drag term `sign(v) * |v|` is `v` itself. */
  lemma SignTimesAbs(v: real)
    ensures Sign(v) * Abs(v) == v
  {
    if v < 0.0 {
      assert Sign(v) == -1.0 && Abs(v) == -v;
    }
  }

  /** An acceleration vector. */
  datatype Accel = Accel(ax: real, ay: real)

  /** Acceleration at velocity (vx, vy) under gravity `g`, with the drag term
      `-c * sign(v) * |v|` on each axis when `includeDrag` holds. */
  function Acceleration(vx: real, vy: real, g: real, c: real, includeDrag: bool): Accel {
    if includeDrag then
      Accel(-c * Sign(vx) * Abs(vx), -g - c * Sign(vy) * Abs(vy))
    else
      Accel(0.0, -g)
  }

  /** Without drag only gravity acts. With drag, the written term
      `-c * sign(v) * |v|` is linear in the velocity, so it vanishes on an axis
      whose velocity component is zero. */
  lemma AccelerationIsLinear(vx: real, vy: real, g: real, c: real, includeDrag: bool)
    ensures var a := Acceleration(vx, vy, g, c, includeDrag);
            if includeDrag then a.ax == -c * vx && a.ay == -g - c * vy
            else a.ax == 0.0 && a.ay == -g
    ensures vx == 0.0 ==> Acceleration(vx, vy, g, c, includeDrag).ax == 0.0
    ensures vy == 0.0 ==> Acceleration(vx, vy, g, c, includeDrag).ay == -g
  {
    SignTimesAbs(vx);
    SignTimesAbs(vy);
    assert -c * Sign(vx) * Abs(vx) == -c * (Sign(vx) * Abs(vx));
    assert -g - c * Sign(vy) * Abs(vy) == -g - c * (Sign(vy) * Abs(vy));
  }

  /** With a non-negative drag coefficient, the drag term never points along
      the velocity: on each axis its product with the velocity component is at
      most zero. */
  lemma DragOpposesMotion(vx: real, vy: real, g: real, c: real)
    requires c >= 0.0
    ensures Acceleration(vx, vy, g, c, true).ax * vx <= 0.0
    ensures (Acceleration(vx, vy, g, c, true).ay + g) * vy <= 0.0
  {
    AccelerationIsLinear(vx, vy, g, c, true);
    var a := Acceleration(vx, vy, g, c, true);
    assert a.ax * vx == -(c * (vx * vx));
    assert (a.ay + g) * vy == -(c * (vy * vy));
    assert vx * vx >= 0.0 && vy * vy >= 0.0;
  }
}
