/** The integrator as the program writes it: one loop that updates the
    position, velocity, clock and bounce count in place and appends to the
    trajectory, with early exits at the bounce limit and at rest. */
module Integrator {
  import opened ForceModel
  import opened GroundContact
  import opened Simulation
  import opened RunProperties

  /** The semi-implicit Euler step: the acceleration at the current velocity
      updates the velocity, the new velocity moves the position, and the clock
      advances by `dt`. It computes exactly the fields of `Advance` other than
      the bounce count, which the step leaves alone. */
  method Step(p: Params, x0: real, y0: real, vx0: real, vy0: real, t0: real)
      returns (x: real, y: real, vx: real, vy: real, t: real)
    ensures var r := Advance(p, State(x0, y0, vx0, vy0, t0, 0));
            x == r.x && y == r.y && vx == r.vx && vy == r.vy && t == r.t
  {
    var a := Acceleration(vx0, vy0, p.g, p.dragCoeff, p.includeAirResistance);
    vx := vx0 + a.ax * p.dt;
    vy := vy0 + a.ay * p.dt;
    x := x0 + vx * p.dt;
    y := y0 + vy * p.dt;
    t := t0 + p.dt;
  }

  /** The ground-crossing response after a step from (xPrev, yPrev) that
      ended below the ground: back to the crossing point, reflect and damp the
      velocity, count the bounce. It computes exactly `Bounce` at the crossing
      fraction of the step. */
  method ResolveCrossing(p: Params, xPrev: real, yPrev: real,
                         x0: real, y0: real, vx0: real, vy0: real, t0: real, bounces0: int)
      returns (x: real, y: real, vx: real, vy: real, t: real, bounces: int)
    ensures State(x, y, vx, vy, t, bounces) ==
            Bounce(p, xPrev, State(x0, y0, vx0, vy0, t0, bounces0), CrossingFraction(yPrev, y0))
  {
    var alpha := CrossingFraction(yPrev, y0);
    x := Lerp(xPrev, x0, alpha);
    y := 0.0;
    t := t0 - p.dt + alpha * p.dt;
    vy := -vy0 * p.restitution;
    vx := vx0 * (1.0 - p.groundFriction);
    bounces := bounces0 + 1;
  }

  /** One pass of the loop body from the loop variables (x, y, vx, vy, t,
      bounces): the step, the crossing response, the points appended to the
      trajectory and whether the loop breaks. It does exactly what `Iterate`
      describes. */
  method Pass(p: Params, x0: real, y0: real, vx0: real, vy0: real, t0: real, bounces0: int,
              trajectory0: seq<Point>)
      returns (x: real, y: real, vx: real, vy: real, t: real, bounces: int,
               trajectory: seq<Point>, stop: bool)
    ensures var step := Iterate(p, State(x0, y0, vx0, vy0, t0, bounces0));
            State(x, y, vx, vy, t, bounces) == step.next &&
            trajectory == trajectory0 + step.emitted &&
            stop == step.stop
  {
    var xPrev, yPrev := x0, y0;
    x, y, vx, vy, t := Step(p, x0, y0, vx0, vy0, t0);
    bounces := bounces0;
    assert State(x, y, vx, vy, t, bounces) == Advance(p, State(x0, y0, vx0, vy0, t0, bounces0)) by {
      var r0 := Advance(p, State(x0, y0, vx0, vy0, t0, 0));
      var r := Advance(p, State(x0, y0, vx0, vy0, t0, bounces0));
      assert r.x == r0.x && r.y == r0.y && r.vx == r0.vx && r.vy == r0.vy && r.t == r0.t;
    }
    trajectory := trajectory0;

    if y < 0.0 && vy < 0.0 {
      x, y, vx, vy, t, bounces := ResolveCrossing(p, xPrev, yPrev, x, y, vx, vy, t, bounces);
      if bounces >= p.maxBounces {
        trajectory := trajectory + [(x, y)];
        return x, y, vx, vy, t, bounces, trajectory, true;
      }

      if Abs(vy) < RestSpeed && Abs(vx) < RestSpeed {
        trajectory := trajectory + [(x, y)];
      }
    }

    trajectory := trajectory + [(x, y)];
    stop := y == 0.0 && Abs(vy) < RestSpeed && Abs(vx) < RestSpeed;
  }

  /** The integrator loop, `simulate_projectile` with the initial velocity
      components given directly. It returns the recorded trajectory and the
      final clock, which are exactly those of `Simulate`: the trajectory
      starts at the launch point, holds at least one more point, never goes
      below the ground, and the clock ends between 0 and one step past the
      ceiling. */
  method SimulateProjectile(p: Params, h0: real, vx0: real, vy0: real)
      returns (trajectory: seq<Point>, t: real)
    requires p.dt > 0.0 && h0 >= 0.0
    ensures trajectory == Simulate(p, h0, vx0, vy0).points
    ensures t == Simulate(p, h0, vx0, vy0).final.t
    ensures |trajectory| >= 2 && trajectory[0] == (0.0, h0)
    ensures forall i :: 0 <= i < |trajectory| ==> trajectory[i].1 >= 0.0
    ensures 0.0 <= t <= MaxTime + p.dt
  {
    var x, y, vx, vy := 0.0, h0, vx0, vy0;
    t := 0.0;
    trajectory := [(x, y)];
    var bounces := 0;
    ghost var whole := Simulate(p, h0, vx0, vy0);

    while t <= MaxTime
      invariant y >= 0.0
      invariant whole.points == trajectory + RunFrom(p, State(x, y, vx, vy, t, bounces)).points
      invariant whole.final == RunFrom(p, State(x, y, vx, vy, t, bounces)).final
      decreases BounceBudget(p, State(x, y, vx, vy, t, bounces)),
                TimeBudget(p, State(x, y, vx, vy, t, bounces))
    {
      ghost var prev := State(x, y, vx, vy, t, bounces);
      IterateFacts(p, prev);
      var stop;
      x, y, vx, vy, t, bounces, trajectory, stop := Pass(p, x, y, vx, vy, t, bounces, trajectory);
      if stop {
        break;
      }
      IterateProgress(p, prev);
    }
    SimulateTrajectory(p, h0, vx0, vy0);
    SimulateTermination(p, h0, vx0, vy0);
  }
}
