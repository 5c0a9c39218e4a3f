/** The trajectory integrator `simulate_projectile`: a fixed-step,
    semi-implicit Euler integration of a point projectile with ground bounces.

    The functions below describe one pass of the integrator's loop (`Iterate`)
    and the whole run (`RunFrom`, `Simulate`); they are the specification
    against which the loop itself, `Integrator.SimulateProjectile`, is proved. */
module Simulation {
  import opened ForceModel
  import opened GroundContact

  /** The time ceiling of the loop, in seconds. */
  const MaxTime: real := 30.0

  /** Both speed components below this threshold count as being at rest. */
  const RestSpeed: real := 0.05

  /** The configuration of one run; the launch itself (height and initial
      velocity) is passed separately. */
  datatype Params = Params(
    g: real,
    dragCoeff: real,
    includeAirResistance: bool,
    dt: real,
    restitution: real,
    groundFriction: real,
    maxBounces: int)

  /** The integrator's loop variables. */
  datatype State = State(x: real, y: real, vx: real, vy: real, t: real, bounces: int)

  /** A recorded trajectory point (x, y). */
  type Point = (real, real)

  function Position(s: State): Point {
    (s.x, s.y)
  }

  /** The configuration `simulate_projectile` falls back on when it is given
      only the gravity: drag coefficient 0 with the drag switch on, a step of
      0.01 s, restitution 0.6, ground friction 0.05 and at most 20 bounces.
      With a zero coefficient the drag switch has no effect on the
      acceleration (`ForceModel.AccelerationIsLinear`). */
  function DefaultParams(g: real): Params {
    Params(g, 0.0, true, 0.01, 0.6, 0.05, 20)
  }

  /** The state before the first step, for a launch from height `h0` with
      initial velocity (vx0, vy0). */
  function Launch(h0: real, vx0: real, vy0: real): State {
    State(0.0, h0, vx0, vy0, 0.0, 0)
  }

  predicate NearRest(s: State) {
    Abs(s.vy) < RestSpeed && Abs(s.vx) < RestSpeed
  }

  /** The resting exit: exactly on the ground and nearly still. */
  predicate AtRest(s: State) {
    s.y == 0.0 && NearRest(s)
  }

  /** A step that ends below the ground while still falling. */
  predicate IsCrossing(s: State) {
    s.y < 0.0 && s.vy < 0.0
  }

  /** One semi-implicit Euler step: the acceleration at the current velocity
      updates the velocity, the updated velocity moves the position, and the
      clock advances by `dt`; the bounce count is untouched. */
  function Advance(p: Params, s: State): State {
    var a := Acceleration(s.vx, s.vy, p.g, p.dragCoeff, p.includeAirResistance);
    var vx := s.vx + a.ax * p.dt;
    var vy := s.vy + a.ay * p.dt;
    State(s.x + vx * p.dt, s.y + vy * p.dt, vx, vy, s.t + p.dt, s.bounces)
  }

  /** The velocity is updated from the acceleration at the start of the step,
      the position then moves with the updated velocity, so that over one step
      the displacement is `v * dt + a * dt * dt` rather than the explicit-Euler
      `v * dt`; the clock advances by exactly `dt`. */
  lemma AdvanceIsSemiImplicit(p: Params, s: State)
    ensures var a := Acceleration(s.vx, s.vy, p.g, p.dragCoeff, p.includeAirResistance);
            var r := Advance(p, s);
            r.vx == s.vx + a.ax * p.dt && r.vy == s.vy + a.ay * p.dt &&
            r.x == s.x + s.vx * p.dt + a.ax * p.dt * p.dt &&
            r.y == s.y + s.vy * p.dt + a.ay * p.dt * p.dt &&
            r.t == s.t + p.dt && r.bounces == s.bounces
  {
  }

  /** Without drag, whether switched off or with a zero coefficient, the
      horizontal velocity is constant and the vertical one drops by `g * dt`
      per step. */
  lemma AdvanceWithoutDrag(p: Params, s: State)
    requires !p.includeAirResistance || p.dragCoeff == 0.0
    ensures Advance(p, s).vx == s.vx
    ensures Advance(p, s).vy == s.vy - p.g * p.dt
    ensures Advance(p, s).x == s.x + s.vx * p.dt
  {
    AccelerationIsLinear(s.vx, s.vy, p.g, p.dragCoeff, p.includeAirResistance);
  }

  /** From a state on or above the ground, a step that ends below the ground
      ends falling: the crossing test always fires then. */
  lemma BelowGroundIsCrossing(p: Params, s: State)
    requires p.dt > 0.0 && s.y >= 0.0 && Advance(p, s).y < 0.0
    ensures IsCrossing(Advance(p, s))
  {
    var r := Advance(p, s);
    assert r.y == s.y + r.vy * p.dt;
    assert r.vy * p.dt < 0.0;
  }

  /** The ground-crossing response to a step from abscissa `xPrev` that ended
      at `moved`, given the fraction `alpha` of the step at which the path met
      the ground:
      position and time are moved back along the step to that point, the
      vertical velocity is reflected and scaled by the restitution, the
      horizontal velocity loses the friction share, and the bounce is
      counted. */
  function Bounce(p: Params, xPrev: real, moved: State, alpha: real): State {
    State(Lerp(xPrev, moved.x, alpha), 0.0,
          moved.vx * (1.0 - p.groundFriction), -moved.vy * p.restitution,
          moved.t - p.dt + alpha * p.dt, moved.bounces + 1)
  }

  /** For a fraction in [0, 1), the bounce puts the projectile exactly on the
      ground, between the two sampled abscissas, at a time within the step
      (at its start exactly for the fraction 0), with the reflected and damped
      velocity, one bounce later. */
  lemma BounceResponse(p: Params, xPrev: real, moved: State, alpha: real)
    requires p.dt > 0.0 && 0.0 <= alpha < 1.0
    ensures Bounce(p, xPrev, moved, alpha).y == 0.0
    ensures Bounce(p, xPrev, moved, alpha).bounces == moved.bounces + 1
    ensures Bounce(p, xPrev, moved, alpha).vy == -moved.vy * p.restitution
    ensures Bounce(p, xPrev, moved, alpha).vx == moved.vx * (1.0 - p.groundFriction)
    ensures var x := Bounce(p, xPrev, moved, alpha).x;
            (xPrev <= x <= moved.x) || (moved.x <= x <= xPrev)
    ensures moved.t - p.dt <= Bounce(p, xPrev, moved, alpha).t < moved.t
    ensures Bounce(p, xPrev, moved, alpha).t == moved.t - p.dt <==> alpha == 0.0
  {
    LerpBetween(xPrev, moved.x, alpha);
    BacktrackWithinStep(moved.t, p.dt, alpha);
    assert Bounce(p, xPrev, moved, alpha).t == moved.t - p.dt + alpha * p.dt;
  }

  /** What one pass of the loop does: the state it leaves, the points it
      appends to the trajectory, and whether it breaks out of the loop. */
  datatype StepResult = StepResult(next: State, emitted: seq<Point>, stop: bool)

  /** One pass of the loop body. */
  function Iterate(p: Params, s: State): StepResult {
    var moved := Advance(p, s);
    if IsCrossing(moved) then
      var b := Bounce(p, s.x, moved, CrossingFraction(s.y, moved.y));
      if b.bounces >= p.maxBounces then
        StepResult(b, [Position(b)], true)
      else
        var extra := if NearRest(b) then [Position(b)] else [];
        StepResult(b, extra + [Position(b)], AtRest(b))
    else
      StepResult(moved, [Position(moved)], AtRest(moved))
  }

  /** An unfolding step for `GroundHop`: it only restates the crossing branch
      of `Iterate` for a known post-step state, so that a proof about a
      particular pass need not unfold `Iterate` itself. */
  lemma IterateOnCrossing(p: Params, s: State, moved: State)
    requires Advance(p, s) == moved && IsCrossing(moved)
    ensures var b := Bounce(p, s.x, moved, CrossingFraction(s.y, moved.y));
            Iterate(p, s) ==
              if b.bounces >= p.maxBounces then StepResult(b, [Position(b)], true)
              else StepResult(b, (if NearRest(b) then [Position(b)] else []) + [Position(b)], AtRest(b))
  {
  }

  /** Every pass appends the new position, once, or twice when a crossing
      below the bounce limit ends near rest (and then the loop breaks); the
      state stays on or above the ground; the clock does not go back and
      advances by at most `dt`, and by exactly `dt` when no bounce is counted;
      a crossing counts exactly one bounce, and one that reaches the limit
      appends its point once and breaks; the loop breaks exactly on the bounce
      limit or at rest on the ground. */
  lemma IterateFacts(p: Params, s: State)
    requires p.dt > 0.0 && s.y >= 0.0
    ensures var r := Iterate(p, s);
            r.next.y >= 0.0 &&
            1 <= |r.emitted| <= 2 &&
            (forall i :: 0 <= i < |r.emitted| ==> r.emitted[i] == Position(r.next)) &&
            s.t <= r.next.t <= s.t + p.dt &&
            (r.next.bounces == s.bounces || r.next.bounces == s.bounces + 1) &&
            (r.next.bounces == s.bounces ==> r.next.t == s.t + p.dt) &&
            (r.next.bounces == s.bounces + 1 ==> r.next.y == 0.0) &&
            (r.next.bounces == s.bounces + 1 && r.next.bounces >= p.maxBounces ==>
               r.stop && |r.emitted| == 1) &&
            (|r.emitted| == 2 <==>
               r.next.bounces == s.bounces + 1 && r.next.bounces < p.maxBounces &&
               NearRest(r.next)) &&
            (|r.emitted| == 2 ==> r.stop) &&
            (r.stop <==> (r.next.bounces == s.bounces + 1 && r.next.bounces >= p.maxBounces) ||
                         AtRest(r.next))
  {
    var moved := Advance(p, s);
    AdvanceIsSemiImplicit(p, s);
    if IsCrossing(moved) {
      CrossingFractionBounds(s.y, moved.y);
      BounceResponse(p, s.x, moved, CrossingFraction(s.y, moved.y));
    } else if moved.y < 0.0 {
      BelowGroundIsCrossing(p, s);
    }
  }

  /** The bounce response on the default configuration: a pre-bounce velocity
      (10, -10) leaves the ground as (9.5, 6), whatever the crossing
      fraction. */
  lemma DefaultBounceResponse(g: real, xPrev: real, moved: State, alpha: real)
    requires moved.vx == 10.0 && moved.vy == -10.0
    ensures var b := Bounce(DefaultParams(g), xPrev, moved, alpha);
            b.vx == 9.5 && b.vy == 6.0
  {
  }

  /** The vertical speed a hop in place leaves with: what is left of an
      upward speed `vy` after one step of gravity, reflected and damped. */
  function HopSpeed(p: Params, vy: real): real {
    (p.g * p.dt - vy) * p.restitution
  }

  /** Without drag (switched off or with a zero coefficient), a pass from
      the ground whose upward speed is below what gravity removes in one step
      is a hop in place: the step falls through
      the ground from height 0, so the crossing fraction is 0, the position
      and the clock are moved back to the start of the step, the vertical
      speed left over after the step is reflected and damped, and one bounce
      is counted. */
  lemma GroundHop(p: Params, s: State)
    requires !p.includeAirResistance || p.dragCoeff == 0.0
    requires p.dt > 0.0
    requires s.y == 0.0 && 0.0 <= s.vy < p.g * p.dt
    ensures var b := State(s.x, 0.0, s.vx * (1.0 - p.groundFriction),
                           HopSpeed(p, s.vy), s.t, s.bounces + 1);
            var step := Iterate(p, s);
            step.next == b &&
            step.emitted == (if b.bounces < p.maxBounces && NearRest(b) then [Position(b), Position(b)]
                             else [Position(b)]) &&
            step.stop == (b.bounces >= p.maxBounces || NearRest(b))
  {
    var moved := Advance(p, s);
    AdvanceWithoutDrag(p, s);
    AdvanceIsSemiImplicit(p, s);
    assert moved.vy < 0.0;
    assert moved.y == moved.vy * p.dt;
    assert moved.y < 0.0;
    IterateOnCrossing(p, s, moved);
    assert CrossingFraction(s.y, moved.y) == 0.0;
  }

  /** Without drag (switched off or with a zero coefficient), a launch from
      the ground at rest does not stop on its first pass when the first hop
      leaves at or above the rest threshold: it hops in place twice, the second hop leaving below the threshold,
      records the launch point four times and stops at rest without the clock
      having moved. */
  lemma RestingLaunchSettles(p: Params)
    requires !p.includeAirResistance || p.dragCoeff == 0.0
    requires p.dt > 0.0 && p.maxBounces > 2
    requires 0.0 <= p.restitution
    requires RestSpeed <= HopSpeed(p, 0.0) < p.g * p.dt
    requires HopSpeed(p, HopSpeed(p, 0.0)) < RestSpeed
    ensures Simulate(p, 0.0, 0.0, 0.0).points == [(0.0, 0.0), (0.0, 0.0), (0.0, 0.0), (0.0, 0.0)]
    ensures Simulate(p, 0.0, 0.0, 0.0).final ==
            State(0.0, 0.0, 0.0, HopSpeed(p, HopSpeed(p, 0.0)), 0.0, 2)
  {
    var s0 := Launch(0.0, 0.0, 0.0);
    var v1 := HopSpeed(p, 0.0);
    var v2 := HopSpeed(p, v1);
    var s1 := State(0.0, 0.0, 0.0, v1, 0.0, 1);
    var s2 := State(0.0, 0.0, 0.0, v2, 0.0, 2);
    GroundHop(p, s0);
    assert Iterate(p, s0).next == s1;
    assert !Iterate(p, s0).stop;
    assert 0.0 <= v2 by {
      assert p.g * p.dt - v1 > 0.0;
    }
    GroundHop(p, s1);
    assert Iterate(p, s1).next == s2 && Iterate(p, s1).stop;
    assert RunFrom(p, s1) == Run([(0.0, 0.0), (0.0, 0.0)], s2);
    assert RunFrom(p, s0).points == [(0.0, 0.0), (0.0, 0.0), (0.0, 0.0)];
  }

  /** Under Earth gravity with the default configuration (zero drag), a
      launch from the ground at rest meets the conditions of
      `RestingLaunchSettles`: the first hop leaves at 9.81 * 0.01 * 0.6 =
      0.05886, above the rest threshold, and the second at
      (0.0981 - 0.05886) * 0.6 = 0.023544, below it. The run records (0, 0)
      four times and ends at rest with the clock at 0 and two bounces. */
  lemma EarthRestingLaunch()
    ensures Simulate(DefaultParams(9.81), 0.0, 0.0, 0.0).points == [(0.0, 0.0), (0.0, 0.0), (0.0, 0.0), (0.0, 0.0)]
    ensures Simulate(DefaultParams(9.81), 0.0, 0.0, 0.0).final == State(0.0, 0.0, 0.0, 0.023544, 0.0, 2)
  {
    var p := DefaultParams(9.81);
    assert HopSpeed(p, 0.0) == 0.05886;
    assert HopSpeed(p, 0.05886) == 0.023544;
    RestingLaunchSettles(p);
  }

  /** How many more bounces the run may count before the limit stops it. */
  function BounceBudget(p: Params, s: State): nat {
    if s.bounces < p.maxBounces then p.maxBounces - s.bounces else 0
  }

  /** How many more steps of length `dt` fit before the clock passes the
      ceiling. */
  function TimeBudget(p: Params, s: State): nat
    requires p.dt > 0.0
  {
    if s.t <= MaxTime then ((MaxTime - s.t) / p.dt).Floor + 1 else 0
  }

  /** A non-negative span holds a non-negative number of steps, and removing
      one step from it removes one from that number. */
  lemma StepsShift(span: real, dt: real)
    requires span >= 0.0 && dt > 0.0
    ensures span / dt >= 0.0
    ensures (span - dt) / dt == span / dt - 1.0
  {
    assert (span - dt) / dt == span / dt - dt / dt;
  }

  /** A step that advances the clock by `dt` from within the ceiling uses up
      one step of the time budget. */
  lemma TimeBudgetShrinks(p: Params, s: State, s': State)
    requires p.dt > 0.0 && s.t <= MaxTime && s'.t == s.t + p.dt
    ensures TimeBudget(p, s') < TimeBudget(p, s)
  {
    var q := (MaxTime - s.t) / p.dt;
    StepsShift(MaxTime - s.t, p.dt);
    assert TimeBudget(p, s) == q.Floor + 1;
    if s'.t <= MaxTime {
      assert MaxTime - s'.t == (MaxTime - s.t) - p.dt;
      assert TimeBudget(p, s') == (q - 1.0).Floor + 1;
    }
  }

  /** Every pass of the loop that does not break makes progress: it uses up
      a bounce of the budget, or else leaves the bounce count alone and uses up
      a step of the time budget. */
  lemma IterateProgress(p: Params, s: State)
    requires p.dt > 0.0 && s.y >= 0.0 && s.t <= MaxTime
    requires !Iterate(p, s).stop
    ensures BounceBudget(p, Iterate(p, s).next) < BounceBudget(p, s) ||
            (BounceBudget(p, Iterate(p, s).next) == BounceBudget(p, s) &&
             TimeBudget(p, Iterate(p, s).next) < TimeBudget(p, s))
  {
    IterateFacts(p, s);
    var next := Iterate(p, s).next;
    if next.bounces == s.bounces {
      TimeBudgetShrinks(p, s, next);
    }
  }

  /** The points a run appends and the state it ends in. */
  datatype Run = Run(points: seq<Point>, final: State)

  /** The rest of a run from loop state `s`: nothing when the clock is past the
      ceiling, otherwise one pass and, unless it breaks, the run from there. */
  function RunFrom(p: Params, s: State): Run
    requires p.dt > 0.0 && s.y >= 0.0
    decreases BounceBudget(p, s), TimeBudget(p, s)
  {
    if s.t > MaxTime then Run([], s)
    else
      var step := Iterate(p, s);
      if step.stop then Run(step.emitted, step.next)
      else
        IterateFacts(p, s);
        IterateProgress(p, s);
        var rest := RunFrom(p, step.next);
        Run(step.emitted + rest.points, rest.final)
  }

  /** The whole run: the trajectory starting with the launch point, and the
      final state (whose clock is the returned time). */
  function Simulate(p: Params, h0: real, vx0: real, vy0: real): Run
    requires p.dt > 0.0 && h0 >= 0.0
  {
    var rest := RunFrom(p, Launch(h0, vx0, vy0));
    Run([(0.0, h0)] + rest.points, rest.final)
  }
}
