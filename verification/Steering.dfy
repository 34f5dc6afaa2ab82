/** What a tracking command of src/control.cpp makes the vehicle do: the circle it steers, the speed it asks for and how
    hard it brakes. */
module Steering {
  import opened Control
  import opened Guidance
  import opened Reals
  import RouteFollowing

  // ------------------------------------------------------- the circle through the target

  /** The cross product of the heading and the line of sight: positive if the target is to the left. */
  function Cross(t: Trig, heading: real, dx: real, dy: real): real {
    Times(t.cos(heading), dy) - Times(t.sin(heading), dx)
  }

  /** The wheels at this angle turn towards a target at (dx, dy) and distance d, on the circle through it: the curvature
      tan(steer) / wheelbase is twice the cross product over the squared distance. */
  ghost predicate Circles(t: Trig, wheelbase: real, heading: real, dx: real, dy: real, d: real, steer: real) {
    var cross := Cross(t, heading, dx, dy);
    && t.cos(steer) > 0.0
    && Times(Sqr(d), t.sin(steer)) == Times(Times(2.0 * wheelbase, cross), t.cos(steer))
    && (steer > 0.0 <==> cross > 0.0) && (steer < 0.0 <==> cross < 0.0)
  }

  lemma SightLine(t: Trig, heading: real, dx: real, dy: real, d: real)
    requires Periodic(t) && Subtracts(t) && Directs(t) && d == Length2(t, dx, dy) && Sqr(dx) + Sqr(dy) > 0.0
    ensures Times(d, t.sin(Normalize(t.atan2(dy, dx) - heading))) == Cross(t, heading, dx, dy)
  {
    var a := t.atan2(dy, dx);
    NormalizedDirection(t, a - heading);
    assert DifferenceLaw(t, a, heading) && DirectionLaw(t, dy, dx);
    Spread(d, t.sin(a), t.cos(a), t.sin(heading), t.cos(heading));
  }

  lemma Spread(d: real, sa: real, ca: real, sh: real, ch: real)
    ensures Times(d, Times(sa, ch) - Times(ca, sh)) == Times(ch, Times(d, sa)) - Times(sh, Times(d, ca))
  {
  }

  lemma WheelAngle(t: Trig, wheelbase: real, s: real, d: real, cross: real)
    requires ExactRoots(t) && Directs(t) && wheelbase > 0.0 && d > 0.0 && Times(d, s) == cross
    ensures var steer := t.atan2(2.0 * Times(wheelbase, s), d);
            && t.cos(steer) > 0.0 && Times(Sqr(d), t.sin(steer)) == Times(Times(2.0 * wheelbase, cross), t.cos(steer))
            && (steer > 0.0 <==> cross > 0.0) && (steer < 0.0 <==> cross < 0.0)
  {
    var y := 2.0 * Times(wheelbase, s);
    var steer, l := t.atan2(y, d), Length2(t, d, y);
    SqrPositive(d);
    SqrNonnegative(y);
    assert DirectionLaw(t, y, d);
    assert l >= 0.0;
    Forward(l, t.cos(steer), d);
    Tangent(l, t.sin(steer), t.cos(steer), y, d);
    Curves(wheelbase, s, d, cross, y, t.sin(steer), t.cos(steer));
    Signs(wheelbase, s, d);
  }

  lemma Forward(l: real, c: real, d: real)
    requires l >= 0.0 && d > 0.0 && Times(l, c) == d
    ensures c > 0.0 && l > 0.0
  {
    if c <= 0.0 {
      TimesNonnegative(l, -c);
      TimesNegates(l, c);
    }
  }

  lemma Tangent(l: real, s: real, c: real, y: real, d: real)
    requires l > 0.0 && Times(l, c) == d && Times(l, s) == y
    ensures Times(d, s) == Times(y, c)
  {
  }

  lemma Curves(wheelbase: real, s: real, d: real, cross: real, y: real, sine: real, cosine: real)
    requires Times(d, s) == cross && y == 2.0 * Times(wheelbase, s) && Times(d, sine) == Times(y, cosine)
    ensures Times(Sqr(d), sine) == Times(Times(2.0 * wheelbase, cross), cosine)
  {
    assert Times(Sqr(d), sine) == Times(d, Times(d, sine));
    assert Times(d, Times(y, cosine)) == Times(Times(d, y), cosine);
    assert Times(d, y) == Times(2.0 * wheelbase, Times(d, s));
  }

  lemma Signs(wheelbase: real, s: real, d: real)
    requires wheelbase > 0.0 && d > 0.0
    ensures (2.0 * Times(wheelbase, s) > 0.0 <==> Times(d, s) > 0.0) &&
             (2.0 * Times(wheelbase, s) < 0.0 <==> Times(d, s) < 0.0)
  {
    if s > 0.0 {
      TimesPositive(wheelbase, s);
      TimesPositive(d, s);
    } else if s < 0.0 {
      TimesPositive(wheelbase, -s);
      TimesPositive(d, -s);
      TimesNegates(wheelbase, s);
      TimesNegates(d, s);
    }
  }

  lemma PursuitCircles(t: Trig, c: Config, p: Pose, target: Point) returns (dx: real, dy: real, d: real, steer: real)
    requires ExactRoots(t) && Periodic(t) && Subtracts(t) && Directs(t) && ValidConfig(c)
    ensures dx == target.x - p.at.x && dy == target.y - p.at.y && d == Length2(t, dx, dy)
    ensures steer == DesiredSteering(t, c, p, target)
    ensures if d > 0.00001 then Circles(t, c.wheelbase, p.heading, dx, dy, d, steer) else steer == 0.0
  {
    dx, dy := target.x - p.at.x, target.y - p.at.y;
    d, steer := Length2(t, dx, dy), DesiredSteering(t, c, p, target);
    if d > 0.00001 {
      PositiveLength(t, dx, dy);
      SightLine(t, p.heading, dx, dy, d);
      WheelAngle(t, c.wheelbase, t.sin(Normalize(t.atan2(dy, dx) - p.heading)), d, Cross(t, p.heading, dx, dy));
    }
  }

  lemma PositiveLength(t: Trig, dx: real, dy: real)
    requires ExactRoots(t) && Length2(t, dx, dy) > 0.0
    ensures Sqr(dx) + Sqr(dy) > 0.0
  {
    SqrNonnegative(dx);
    SqrNonnegative(dy);
    SqrPositive(Length2(t, dx, dy));
  }

  // ------------------------------------------------------- the limits

  /** The command goes from the previous angle towards the wished one, all the way unless range or rate stop it. */
  predicate Approaches(c: Config, previous: real, wished: real, steer: real, dt: real) {
    && (previous <= wished ==> previous <= steer <= wished) && (previous >= wished ==> previous >= steer >= wished)
    && (|| steer == wished || Abs(steer) == c.maxSteering
        || steer == previous + Times(c.maxSteeringRate, dt) || steer == previous - Times(c.maxSteeringRate, dt))
  }

  lemma LimitedApproaches(c: Config, wished: real, previous: real, dt: real)
    requires ValidConfig(c) && Abs(previous) <= c.maxSteering && dt > 0.0
    ensures Approaches(c, previous, wished, Limited(c, wished, previous, dt), dt)
  {
    TimesPositive(c.maxSteeringRate, dt);
  }

  /** Main result on steering: with a route to follow, a tracking command turns the wheels from the previous angle
      towards the one that drives the circle through the target ahead, on the target's side, all the way unless range or
      rate stop it. */
  lemma TrackingSteers(t: Trig, c: Config, s: Controller, p: Pose, dt: real)
    returns (dx: real, dy: real, d: real, wished: real)
    requires ExactRoots(t) && Periodic(t) && Subtracts(t) && Directs(t) && ValidConfig(c) && Sane(c, s)
    requires dt > 0.0 && s.routeValid && !ControlStep(t, c, s, p, dt, false).0.routeComplete
    ensures var target := RouteFollowing.Step(t, c, s.route, s.tracker, p).0.target;
            dx == target.x - p.at.x && dy == target.y - p.at.y && d == Length2(t, dx, dy)
    ensures if d > 0.00001 then Circles(t, c.wheelbase, p.heading, dx, dy, d, wished) else wished == 0.0
    ensures var (command, s') := ControlStep(t, c, s, p, dt, false);
            && command.valid && !command.safeStop && Approaches(c, s.steering, wished, command.steering, dt)
            && s'.steering == command.steering
  {
    var progress := RouteFollowing.Step(t, c, s.route, s.tracker, p).0;
    dx, dy, d, wished := PursuitCircles(t, c, p, progress.target);
    LimitedApproaches(c, wished, s.steering, dt);
  }

  // ------------------------------------------------------- speed and memory

  /** Main result on the integral: over a positive interval it moves by the error times the interval, or to its limit;
      it stands still only without an error, at its limit, or if moving would ask for more than the actuator gives in
      the direction of the error. The output at a limit means that at least as much is asked for. */
  lemma IntegralMoves(c: Config, integral: real, target: real, measured: real, dt: real)
    requires ValidConfig(c) && Abs(integral) <= c.integralLimit && dt > 0.0
    ensures var (out, next) := PiStep(c, integral, target, measured, dt);
            var error := Clamp(target, 0.0, c.maxSpeed) - measured;
            var moved := Clamp(integral + Times(error, dt), -c.integralLimit, c.integralLimit);
            && (next != integral ==> next == integral + Times(error, dt) || Abs(next) == c.integralLimit)
            && (next == integral ==>
                  || error == 0.0
                  || (error > 0.0 && (integral == c.integralLimit ||
                                      Times(c.kp, error) + Times(c.ki, moved) > c.maxAcceleration))
                  || (error < 0.0 && (integral == -c.integralLimit ||
                                      Times(c.kp, error) + Times(c.ki, moved) < -c.maxDeceleration)))
            && (out == c.maxAcceleration ==> Times(c.kp, error) + Times(c.ki, next) >= c.maxAcceleration)
            && (out == -c.maxDeceleration ==> Times(c.kp, error) + Times(c.ki, next) <= -c.maxDeceleration)
  {
    var error := Clamp(target, 0.0, c.maxSpeed) - measured;
    if error > 0.0 {
      TimesPositive(error, dt);
    } else if error < 0.0 {
      TimesPositive(-error, dt);
      TimesNegates(error, dt);
    }
  }

  /** What a step asks for besides the steering: on the way the speed of the route and the acceleration of the speed
      controller for it; at the end of the route, without one, or without an interval nothing, with the memory cleared.
      */
  lemma TrackingDrives(t: Trig, c: Config, s: Controller, p: Pose, dt: real)
    requires ExactRoots(t) && ValidConfig(c) && Sane(c, s)
    ensures var (command, s') := ControlStep(t, c, s, p, dt, false);
            if dt > 0.0 && s.routeValid then
              var (progress, tracker) := RouteFollowing.Step(t, c, s.route, s.tracker, p);
              && s'.tracker == tracker && command.targetSpeed == progress.speed
              && command.routeComplete == progress.complete && command.valid
              && if progress.complete then
                   command.steering == command.acceleration == s'.integral == s'.steering == 0.0
                 else
                   (command.acceleration, s'.integral) == PiStep(c, s.integral, progress.speed, p.speed, dt)
            else
              && !command.valid && !command.safeStop && s'.tracker == s.tracker
              && command.steering == command.acceleration == command.targetSpeed == s'.integral == s'.steering == 0.0
  {
  }

  /** Main result on stopping: a forced stop brakes with all there is against the motion until the vehicle is slower
      than the tolerance, and clears the memory; route and progress stay. */
  lemma StopBrakes(t: Trig, c: Config, s: Controller, p: Pose, dt: real)
    requires ValidConfig(c) && Sane(c, s)
    ensures var (command, s') := ControlStep(t, c, s, p, dt, true);
            && (p.speed > c.finalSpeedTolerance ==> command.acceleration == -c.maxDeceleration)
            && (p.speed < -c.finalSpeedTolerance ==> command.acceleration == c.maxDeceleration)
            && (Abs(p.speed) <= c.finalSpeedTolerance ==> command.acceleration == 0.0)
            && command.safeStop && command.valid && !command.routeComplete
            && s' == s.(integral := 0.0, steering := 0.0)
  {
  }
}
