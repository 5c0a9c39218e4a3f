# physicsflight trajectory integrator in Dafny

This project models `simulate_projectile`, the trajectory integrator of the
physicsflight projectile simulator (`app/simulation.py`). The integrator
launches a point projectile from height `h0` with an initial velocity. It
steps time in fixed increments `dt` with a semi-implicit Euler scheme, under
gravity `g` and an optional drag term `-c * sign(v) * |v|` on each axis. A
step that falls through the ground plane `y = 0` is handled by moving back
along the step to the crossing point. The projectile then bounces: the
vertical speed is reflected and scaled by the restitution, the horizontal
speed loses the ground-friction share, and the bounce is counted. The loop
stops in one of three ways:

- the clock passes the 30-second ceiling;
- the bounce count reaches `max_bounces`;
- the projectile is exactly on the ground with both speed components below
  0.05.

It returns the recorded `(x, y)` points and the final clock.

The project has five modules:

- `ForceModel` (`force_model.dfy`) holds the acceleration, with `Sign` and
  `Abs` standing in for `np.sign` and `abs`.
- `GroundContact` (`ground_contact.dfy`) holds the crossing fraction `alpha`
  with its zero-denominator guard, and the linear interpolation.
- `Simulation` (`simulation.dfy`) is the specification. It defines the loop
  variables as a `State` and one pass of the loop as the function
  `Iterate`, made of `Advance` (the Euler step) and `Bounce` (the crossing
  response). It defines the whole run as `RunFrom` / `Simulate`, which
  terminate on the measure (bounces left before the limit, steps left before
  the ceiling). It also proves what one pass does.
- `RunProperties` (`run_properties.dfy`) proves, by induction over the
  passes, what a whole run does.
- `Integrator` (`integrator.dfy`) holds the loop itself, written
  imperatively:
  - `Step` is the Euler update, proved against `Advance`;
  - `ResolveCrossing` is the crossing branch, proved against `Bounce`;
  - `Pass` is one execution of the loop body, proved against `Iterate`, with
    the bounce-limit `break` as an early return;
  - `SimulateProjectile` is the `while t <= MAX_TIME` loop, proved against
    `Simulate`.

All arithmetic is over `real`. The initial velocity components are inputs:
the launch angle and the trigonometry are not modelled.
`Simulation.DefaultParams` holds the defaults of `simulate_projectile`'s own
signature (`app/simulation.py:8-13`): drag coefficient 0 with the drag switch
on, `dt = 0.01`, restitution 0.6, ground friction 0.05 and at most 20
bounces. With a zero drag coefficient the drag switch has no effect on the
acceleration (`ForceModel.AccelerationIsLinear`).

The only preconditions are `dt > 0` and `h0 >= 0`:

- `dt > 0` is what makes the loop terminate;
- `h0 >= 0` is what keeps the trajectory above the ground.

Every other input is unconstrained, as in the source. A `max_bounces` of 0 or
less stops the run at the first crossing.

Some consequences of the code as written, which the model keeps:

- The time ceiling is `MAX_TIME = 30` seconds (`app/simulation.py:30`).
- Only the `(x, y)` points are recorded (`app/simulation.py:28`), and the
  result is the pair of the trajectory and the final clock
  (`app/simulation.py:79`).
- The acceleration is computed once per pass, at the start of the step
  (`app/simulation.py:36-41`).
- A crossing below the bounce limit that ends near rest appends the crossing
  point twice before the loop breaks (`app/simulation.py:71-74`).
  `Simulation.IterateFacts` states exactly when this happens.
- Without drag, each pass from the ground with a small upward speed is a
  hop in place (`Simulation.GroundHop`). The step falls through the ground
  from height 0, so the crossing fraction is 0, and the clock is moved back
  to where it was. So under Earth gravity and the default configuration, a
  launch from the ground at rest does not stop on its first pass
  (`Simulation.EarthRestingLaunch`):
  - the first pass leaves at a vertical speed of 9.81 · 0.01 · 0.6 =
    0.05886, above the 0.05 rest threshold, and records (0, 0) once;
  - the second pass leaves at (0.0981 - 0.05886) · 0.6 = 0.023544, below
    the threshold, so it records (0, 0) twice and breaks;
  - the run returns four points (0, 0) and the clock 0, with two bounces
    counted.

## Model

| member | source | states |
|---|---|---|
| ForceModel.AccelerationIsLinear | app/simulation.py:36-41 | Without drag the acceleration is (0, -g). With drag it is (-c·vx, -g - c·vy), because `sign(v)·abs(v) = v`. So each drag component is 0 when that velocity component is 0. |
| ForceModel.SignTimesAbs | app/simulation.py:37-38 | `sign(v) * abs(v)` equals `v` for every real `v`. |
| ForceModel.DragOpposesMotion | app/simulation.py:37-38 | For a non-negative drag coefficient, the drag on each axis has a product with that velocity component of at most 0: drag never pushes along the motion. |
| GroundContact.CrossingFractionBounds | app/simulation.py:56-58 | For a step from `y_prev >= 0` to `y < 0`: `alpha` lies in [0, 1), and is 0 exactly when `y_prev = 0`. Interpolating the two heights with `alpha` gives exactly 0, so `alpha` locates the true crossing. |
| GroundContact.CrossingFractionLevel | app/simulation.py:57-58 | A zero denominator (equal heights) falls back to `alpha = 0`. |
| GroundContact.LerpBetween | app/simulation.py:59 | For `alpha` in [0, 1], the interpolated abscissa lies between `x_prev` and the post-step `x`, and `alpha = 0` gives `x_prev`. |
| GroundContact.BacktrackWithinStep | app/simulation.py:61 | For `alpha` in [0, 1), the rewound time `t - dt + alpha·dt` lies in [t - dt, t), and equals t - dt exactly when `alpha = 0`. |
| Simulation.AdvanceIsSemiImplicit | app/simulation.py:43-53 | One step computes the velocity from the acceleration at the start of the step, then moves the position with the updated velocity: displacement `v·dt + a·dt²`. The clock advances by exactly `dt` and the bounce count is unchanged. |
| Simulation.AdvanceWithoutDrag | app/simulation.py:36-53 | Without drag (switched off, or a zero coefficient), `vx` is constant, `vy` drops by `g·dt` and `x` advances by `vx·dt`. |
| Simulation.BelowGroundIsCrossing | app/simulation.py:52-56 | From `y_prev >= 0` with `dt > 0`, a step that ends below the ground ends with `vy < 0`. So the crossing test always fires and the `denom = 0` fallback is unreachable there. |
| Simulation.BounceResponse | app/simulation.py:59-66 | For `alpha` in [0, 1), a bounce puts `y` at exactly 0 and `x` between `x_prev` and the post-step `x`. The time lies in [t_prev, t_prev + dt), at t_prev exactly for `alpha = 0`. It sets `vy := -vy·restitution` and `vx := vx·(1 - ground_friction)`, and adds exactly one bounce. |
| Simulation.DefaultBounceResponse | app/simulation.py:63-64 | With the default restitution 0.6 and friction 0.05, a pre-bounce velocity (10, -10) leaves as (9.5, 6.0) exactly. |
| Simulation.IterateFacts | app/simulation.py:35-77 | One pass from `y >= 0`, see (a)-(f) below the table. |
| Simulation.GroundHop | app/simulation.py:35-77 | Without drag, a pass from `y = 0` with `0 <= vy < g·dt` crosses at `alpha = 0`: it stays at the same `x` and the same clock, leaves at `vy' = (g·dt - vy)·restitution` with `vx` damped, and counts one bounce. It records the point twice and breaks if it ends near rest below the limit. It records it once otherwise, and breaks at the limit or at rest. |
| Simulation.RestingLaunchSettles | app/simulation.py:22-79 | Without drag, a launch from the ground at rest whose first hop leaves at or above 0.05 and whose second hop leaves below it (limit above 2) returns four points (0, 0), the clock 0 and two bounces. |
| Simulation.EarthRestingLaunch | app/simulation.py:22-79 | Under Earth gravity (app/constants.py:4) with the default configuration, a launch from the ground at rest returns four points (0, 0). It ends with clock 0, `vx = 0`, `vy = 0.023544` and two bounces. |
| Simulation.TimeBudgetShrinks | app/simulation.py:53 | Advancing the clock by `dt` from within the ceiling strictly lowers the number of steps left before the loop condition fails. |
| Simulation.IterateProgress | app/simulation.py:53-66 | A pass that does not break either adds a bounce below the limit, or leaves the bounce count alone and advances the clock by `dt`. So the lexicographic measure decreases and the loop terminates. |
| RunProperties.RunFromAboveGround | app/simulation.py:56-74 | From `y >= 0`, every point a run appends has `y >= 0`, and so does its final state. |
| RunProperties.RunFromClock | app/simulation.py:53-61 | Over a run the clock never decreases. Starting at most one step past the ceiling, the run ends at most one step past it. |
| RunProperties.RunFromBounces | app/simulation.py:66-69 | The bounce count never decreases over a run. From below the limit it ends at most at the limit; from at or above it, at most one more. |
| RunProperties.RunFromExit | app/simulation.py:67-77 | A run ends with the clock past the ceiling, with the bounce limit reached, or at rest on the ground. |
| RunProperties.RunFromEndsAtFinal | app/simulation.py:68-77 | A run that makes a pass appends at least one point, and its last point is the position of its final state. |
| RunProperties.SimulateTrajectory | app/simulation.py:28-74 | The trajectory starts with (0, h0) and has at least two points. Every point has `y >= 0`, and the last point is the final position. |
| RunProperties.SimulateTermination | app/simulation.py:30-77 | The returned clock lies in [0, 30 + dt]. Bounces end between 0 and `max_bounces` (at most 1 when `max_bounces < 1`). The run stops on the ceiling, the limit or at rest. With `max_bounces >= 1`, a run that neither times out nor rests ends with exactly `max_bounces` bounces. |
| Integrator.Step | app/simulation.py:36-53 | The force model and the in-place updates of `vx`, `vy`, `x`, `y` and `t` compute exactly those five fields of one `Advance` step. The properties of that step are in `Simulation.AdvanceIsSemiImplicit`. |
| Integrator.ResolveCrossing | app/simulation.py:57-66 | The in-place updates of the crossing branch compute exactly `Bounce` at the guarded crossing fraction. The properties of the response are in `Simulation.BounceResponse`. |
| Integrator.Pass | app/simulation.py:36-77 | One execution of the loop body leaves exactly the state, the appended points and the break decision that `Iterate` describes. It updates the loop variables and appends to the trajectory. The bounce-limit `break` is an early return. |
| Integrator.SimulateProjectile | app/simulation.py:22-79 | The loop returns exactly the trajectory and final clock of `Simulate`. The trajectory starts at (0, h0), has at least two points and never goes below the ground. The clock ends in [0, 30 + dt]. |

`Simulation.IterateFacts` states what one pass from `y >= 0` does:

- (a) The new state has `y >= 0`.
- (b) The pass appends one or two points, all equal to the new position.
- (c) The clock does not go back and advances by at most `dt`. It advances by
  exactly `dt` when no bounce is counted.
- (d) A bounce adds exactly one and lands on `y = 0`. At the limit it appends
  once and breaks.
- (e) Two points are appended exactly when a crossing below the limit ends
  near rest, and then the loop breaks.
- (f) The loop breaks exactly on the limit or at rest.

## Left out

- The launch angle conversion and `np.cos` / `np.sin` (`app/simulation.py:16-20`) are not modelled. The initial velocity components are inputs of the model.
- IEEE floating-point rounding is not modelled: arithmetic is over exact reals. So no accuracy claims are made against the analytic range, apex or flight time. The exact comparisons `y == 0.0` and the 0.05 thresholds are kept as written.
- The conversion of the trajectory to a NumPy array (`app/simulation.py:79`) is left out. The model returns a sequence of pairs.
- `vx_prev` and `vy_prev` (`app/simulation.py:44`) are assigned but never read, so the model has no counterpart.
- The Streamlit page in `main.py` is user-interface code outside the integrator. It reads the sliders, calls the integrator twice (with and without drag) and draws the curves.
- The gravity and drag tables in `app/constants.py` are literal data and are not modelled. Every entry has `g >= 0` and drag coefficient `>= 0`, which is all `ForceModel.DragOpposesMotion` assumes.
- Integrator.SimulateProjectile: requires `dt > 0` and `h0 >= 0`, which the source does not check. With `dt <= 0` the source loop need not terminate, and with `h0 < 0` the first point is below the ground. These inputs are outside the model.
