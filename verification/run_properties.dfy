/** Properties of a whole run of the integrator loop, proved by induction over
    the passes of the loop (`RunFrom`) and then stated for a run from the
    launch (`Simulate`). */
module RunProperties {
  import opened ForceModel
  import opened Simulation

  /** Every point a run appends lies on or above the ground, and so does the
      state it ends in. */
  lemma {:induction false} RunFromAboveGround(p: Params, s: State)
    requires p.dt > 0.0 && s.y >= 0.0
    ensures RunFrom(p, s).final.y >= 0.0
    ensures forall i :: 0 <= i < |RunFrom(p, s).points| ==> RunFrom(p, s).points[i].1 >= 0.0
    decreases BounceBudget(p, s), TimeBudget(p, s)
  {
    if s.t <= MaxTime {
      var step := Iterate(p, s);
      IterateFacts(p, s);
      if !step.stop {
        IterateProgress(p, s);
        RunFromAboveGround(p, step.next);
      }
    }
  }

  /** The clock never runs backwards over a run, and a run that starts at most
      one step past the ceiling ends at most one step past it. */
  lemma {:induction false} RunFromClock(p: Params, s: State)
    requires p.dt > 0.0 && s.y >= 0.0 && s.t <= MaxTime + p.dt
    ensures s.t <= RunFrom(p, s).final.t <= MaxTime + p.dt
    decreases BounceBudget(p, s), TimeBudget(p, s)
  {
    if s.t <= MaxTime {
      var step := Iterate(p, s);
      IterateFacts(p, s);
      if !step.stop {
        IterateProgress(p, s);
        RunFromClock(p, step.next);
      }
    }
  }

  /** The bounce count never decreases over a run. A run that starts below
      the limit ends at most at the limit; one that starts at or above it
      counts at most the one bounce that stops it. */
  lemma {:induction false} RunFromBounces(p: Params, s: State)
    requires p.dt > 0.0 && s.y >= 0.0
    ensures s.bounces <= RunFrom(p, s).final.bounces
    ensures RunFrom(p, s).final.bounces <=
              if s.bounces < p.maxBounces then p.maxBounces else s.bounces + 1
    decreases BounceBudget(p, s), TimeBudget(p, s)
  {
    if s.t <= MaxTime {
      var step := Iterate(p, s);
      IterateFacts(p, s);
      if !step.stop {
        IterateProgress(p, s);
        RunFromBounces(p, step.next);
      }
    }
  }

  /** A run ends in one of the three ways the loop can stop: the clock past
      the ceiling, the bounce limit reached, or at rest on the ground. */
  lemma {:induction false} RunFromExit(p: Params, s: State)
    requires p.dt > 0.0 && s.y >= 0.0
    ensures var f := RunFrom(p, s).final;
            f.t > MaxTime || f.bounces >= p.maxBounces || AtRest(f)
    decreases BounceBudget(p, s), TimeBudget(p, s)
  {
    if s.t <= MaxTime {
      var step := Iterate(p, s);
      IterateFacts(p, s);
      if !step.stop {
        IterateProgress(p, s);
        RunFromExit(p, step.next);
      }
    }
  }

  /** A run that makes at least one pass appends at least one point, and its
      last point is the position of the state it ends in. */
  lemma {:induction false} RunFromEndsAtFinal(p: Params, s: State)
    requires p.dt > 0.0 && s.y >= 0.0 && s.t <= MaxTime
    ensures |RunFrom(p, s).points| >= 1
    ensures RunFrom(p, s).points[|RunFrom(p, s).points| - 1] == Position(RunFrom(p, s).final)
    decreases BounceBudget(p, s), TimeBudget(p, s)
  {
    var step := Iterate(p, s);
    IterateFacts(p, s);
    if !step.stop {
      IterateProgress(p, s);
      if step.next.t <= MaxTime {
        RunFromEndsAtFinal(p, step.next);
      }
    }
  }

  /** The trajectory of a whole run starts at the launch point, holds at
      least one point after it, ends at the final position, and never goes
      below the ground. */
  lemma SimulateTrajectory(p: Params, h0: real, vx0: real, vy0: real)
    requires p.dt > 0.0 && h0 >= 0.0
    ensures var r := Simulate(p, h0, vx0, vy0);
            |r.points| >= 2 && r.points[0] == (0.0, h0) &&
            r.points[|r.points| - 1] == Position(r.final) &&
            forall i :: 0 <= i < |r.points| ==> r.points[i].1 >= 0.0
  {
    var s := Launch(h0, vx0, vy0);
    RunFromAboveGround(p, s);
    RunFromEndsAtFinal(p, s);
  }

  /** A whole run returns a clock between 0 and one step past the ceiling,
      counts no more bounces than the limit (or the single bounce that stops
      a run with a limit below one), and stops for one of the three reasons.
      In particular, a run that neither times out nor comes to rest stops
      with exactly the bounce limit. */
  lemma SimulateTermination(p: Params, h0: real, vx0: real, vy0: real)
    requires p.dt > 0.0 && h0 >= 0.0
    ensures var f := Simulate(p, h0, vx0, vy0).final;
            0.0 <= f.t <= MaxTime + p.dt &&
            0 <= f.bounces <= (if p.maxBounces >= 1 then p.maxBounces else 1) &&
            (f.t > MaxTime || f.bounces >= p.maxBounces || AtRest(f)) &&
            (p.maxBounces >= 1 && f.t <= MaxTime && !AtRest(f) ==> f.bounces == p.maxBounces)
  {
    var s := Launch(h0, vx0, vy0);
    RunFromClock(p, s);
    RunFromBounces(p, s);
    RunFromExit(p, s);
  }
}
