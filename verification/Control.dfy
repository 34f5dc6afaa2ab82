/** The speed controller and the control system of src/control.cpp in exact arithmetic. */
module Control {
  import opened Guidance
  import opened Reals
  import opened RouteFollowing

  // ------------------------------------------------------- the speed controller

  /** SpeedPiController::step: the command and the new integral. */
  function PiStep(c: Config, integral: real, target: real, measured: real, dt: real): (real, real) {
    if dt <= 0.0 then (0.0, integral)
    else
      var error := Clamp(target, 0.0, c.maxSpeed) - measured;
      var candidate := Clamp(integral + Times(error, dt), -c.integralLimit, c.integralLimit);
      var wished := Times(c.kp, error) + Times(c.ki, candidate);
      var next := if (wished <= c.maxAcceleration || error < 0.0) && (wished >= -c.maxDeceleration || error > 0.0)
                  then candidate else integral;
      (Clamp(Times(c.kp, error) + Times(c.ki, next), -c.maxDeceleration, c.maxAcceleration), next)
  }

  /** Main result on the speed controller: output and integral stay in their limits, the integral moves only
      with the error, and a command at a limit never winds the integral further into it. */
  lemma PiKeeps(c: Config, integral: real, target: real, measured: real, dt: real)
    requires ValidConfig(c) && Abs(integral) <= c.integralLimit
    ensures var (out, next) := PiStep(c, integral, target, measured, dt);
            var error := Clamp(target, 0.0, c.maxSpeed) - measured;
            && -c.maxDeceleration <= out <= c.maxAcceleration && Abs(next) <= c.integralLimit
            && (dt > 0.0 && -c.maxDeceleration < out < c.maxAcceleration ==>
                out == Times(c.kp, error) + Times(c.ki, next))
            && (error >= 0.0 ==> next >= integral) && (error <= 0.0 ==> next <= integral)
            && (next > integral ==> Times(c.kp, error) + Times(c.ki, next) <= c.maxAcceleration)
            && (next < integral ==> Times(c.kp, error) + Times(c.ki, next) >= -c.maxDeceleration)
  {
    if dt > 0.0 {
      var error := Clamp(target, 0.0, c.maxSpeed) - measured;
      if error >= 0.0 {
        TimesNonnegative(error, dt);
      }
      if error <= 0.0 {
        TimesNonnegative(-error, dt);
        TimesNegates(error, dt);
      }
    }
  }

  class SpeedPiController {
    var config: Config
    var integral: real

    ghost predicate Valid()
      reads this
    {
      ValidConfig(config) && Abs(integral) <= config.integralLimit
    }

    constructor (c: Config)
      requires ValidConfig(c)
      ensures Valid() && config == c && integral == 0.0
    {
      config, integral := c, 0.0;
    }

    method Reset()
      requires Valid()
      modifies this`integral
      ensures Valid() && integral == 0.0
    {
      integral := 0.0;
    }

    method Step(target: real, measured: real, dt: real) returns (out: real)
      requires Valid()
      modifies this`integral
      ensures Valid() && (out, integral) == PiStep(config, old(integral), target, measured, dt)
    {
      PiKeeps(config, integral, target, measured, dt);
      if dt <= 0.0 {
        return 0.0;
      }
      var error := Clamp(target, 0.0, config.maxSpeed) - measured;
      var candidate := Clamp(integral + Times(error, dt), -config.integralLimit, config.integralLimit);
      var wished := Times(config.kp, error) + Times(config.ki, candidate);
      var saturatedHigh, saturatedLow := wished > config.maxAcceleration, wished < -config.maxDeceleration;
      if (!saturatedHigh || error < 0.0) && (!saturatedLow || error > 0.0) {
        integral := candidate;
      }
      return Clamp(Times(config.kp, error) + Times(config.ki, integral), -config.maxDeceleration,
                   config.maxAcceleration);
    }
  }

  // ------------------------------------------------------- the control system

  datatype Command = Command(steering: real, acceleration: real, targetSpeed: real, valid: bool, safeStop: bool,
                             routeComplete: bool)

  const NEUTRAL := Command(0.0, 0.0, 0.0, false, false, false)

  /** The state of the control system. */
  datatype Controller = Controller(route: Route, routeValid: bool, tracker: Tracker, integral: real, steering: real)

  const IDLE := Controller([], false, Tracker(0, false), 0.0, 0.0)

  ghost predicate Sane(c: Config, s: Controller) {
    && (s.routeValid ==> ValidRoute(c, s.route) && Reachable(s.route, s.tracker))
    && Abs(s.integral) <= c.integralLimit && Abs(s.steering) <= c.maxSteering
  }

  function SafeStopCommand(c: Config, speed: real): Command {
    Command(0.0,
            if Abs(speed) > c.finalSpeedTolerance then (if speed > 0.0 then -c.maxDeceleration else c.maxDeceleration)
            else 0.0,
            0.0, true, true, false)
  }

  /** Pure pursuit towards the target. */
  function DesiredSteering(t: Trig, c: Config, p: Pose, target: Point): real {
    var distance := Distance(t, p.at, target);
    if distance > 0.00001 then
      var headingError := Normalize(t.atan2(target.y - p.at.y, target.x - p.at.x) - p.heading);
      t.atan2(2.0 * Times(c.wheelbase, t.sin(headingError)), distance)
    else 0.0
  }

  /** The steering limits: range, rate, range again. */
  function Limited(c: Config, desired: real, previous: real, dt: real): real {
    var change := Times(c.maxSteeringRate, dt);
    var ranged := Clamp(desired, -c.maxSteering, c.maxSteering);
    Clamp(Clamp(ranged, previous - change, previous + change), -c.maxSteering, c.maxSteering)
  }

  function Quiet(s: Controller): Controller {
    s.(integral := 0.0, steering := 0.0)
  }

  /** ControlSystem::step */
  function ControlStep(t: Trig, c: Config, s: Controller, p: Pose, dt: real, stop: bool): (Command, Controller)
    requires ValidConfig(c) && (s.routeValid ==> s.tracker.active < |s.route|)
  {
    if stop then (SafeStopCommand(c, p.speed), Quiet(s))
    else if dt <= 0.0 || !s.routeValid then (NEUTRAL, Quiet(s))
    else
      var (progress, tracker) := RouteFollowing.Step(t, c, s.route, s.tracker, p);
      if progress.complete then (Command(0.0, 0.0, progress.speed, true, false, true), Quiet(s.(tracker := tracker)))
      else
        var steering := Limited(c, DesiredSteering(t, c, p, progress.target), s.steering, dt);
        var (out, integral) := PiStep(c, s.integral, progress.speed, p.speed, dt);
        (Command(steering, out, progress.speed, true, false, false),
         s.(tracker := tracker, integral := integral, steering := steering))
  }

  /** Main result on control: every command keeps the actuator limits, a tracking command turns the wheels no
      faster than the rate limit, and a safe stop commands zero steering and speed and never speeds up. */
  lemma ControlKeeps(t: Trig, c: Config, s: Controller, p: Pose, dt: real, stop: bool)
    requires ExactRoots(t) && ValidConfig(c) && Sane(c, s)
    ensures var (command, s') := ControlStep(t, c, s, p, dt, stop);
            && Sane(c, s') && s'.route == s.route && s'.routeValid == s.routeValid
            && Abs(command.steering) <= c.maxSteering && 0.0 <= command.targetSpeed <= c.maxSpeed
            && (!stop ==> -c.maxDeceleration <= command.acceleration <= c.maxAcceleration && !command.safeStop)
            && (command.valid && !stop && !command.routeComplete ==>
                  Abs(command.steering - s.steering) <= Times(c.maxSteeringRate, dt) && s'.steering == command.steering)
            && (stop ==> command.safeStop && command.steering == 0.0 && command.targetSpeed == 0.0 &&
                         Times(command.acceleration, p.speed) <= 0.0)
  {
    if stop {
      Opposes(c, p.speed);
    } else if dt > 0.0 && s.routeValid {
      RouteFollowing.StepKeeps(t, c, s.route, s.tracker, p);
      TimesNonnegative(c.maxSteeringRate, dt);
      var progress := RouteFollowing.Step(t, c, s.route, s.tracker, p).0;
      PiKeeps(c, s.integral, progress.speed, p.speed, dt);
    }
  }

  lemma Opposes(c: Config, speed: real)
    requires ValidConfig(c)
    ensures Times(SafeStopCommand(c, speed).acceleration, speed) <= 0.0
  {
    if Abs(speed) > c.finalSpeedTolerance {
      if speed > 0.0 {
        TimesPositive(c.maxDeceleration, speed);
        TimesNegates(c.maxDeceleration, speed);
      } else {
        TimesPositive(c.maxDeceleration, -speed);
        TimesNegates(c.maxDeceleration, -speed);
      }
    } else {
      ZeroTimes(speed);
    }
  }

  /** set_route: the integral and the steering memory are cleared even if the route is refused. */
  function WithRoute(c: Config, s: Controller, points: Route): (Controller, bool) {
    if ValidRoute(c, points)
    then (Quiet(s.(route := points, routeValid := true, tracker := Tracker(0, false))), true)
    else (Quiet(s), false)
  }

  /** reset: progress and memory are cleared, the route stays. */
  function Restarted(s: Controller): Controller {
    Quiet(s.(tracker := Tracker(0, false)))
  }

  class ControlSystem {
    const config: Config
    const route: RouteManager
    const speed: SpeedPiController
    var previousSteering: real

    ghost predicate Valid()
      reads this, route, route.waypoints, speed
    {
      && route.Valid() && speed.Valid() && route.config == config && speed.config == config
      && Abs(previousSteering) <= config.maxSteering
    }

    ghost function View(): Controller
      requires route.waypoints.Length == MAXIMUM_WAYPOINTS && route.count <= MAXIMUM_WAYPOINTS
      reads this, route, route.waypoints, speed
    {
      Controller(route.Current(), route.routeValid, Tracker(route.active, route.latched), speed.integral,
                 previousSteering)
    }

    constructor (c: Config)
      requires ValidConfig(c)
      ensures Valid() && fresh(route) && fresh(route.waypoints) && fresh(speed) && config == c && !route.routeValid
    {
      config := c;
      route := new RouteManager(c);
      speed := new SpeedPiController(c);
      previousSteering := 0.0;
    }

    method SetRoute(points: Route) returns (ok: bool)
      requires Valid()
      modifies this`previousSteering, speed`integral, route`count, route`active, route`routeValid, route`latched,
               route.waypoints
      ensures Valid() && (View(), ok) == WithRoute(config, old(View()), points)
    {
      speed.Reset();
      previousSteering := 0.0;
      ok := route.SetRoute(points);
    }

    method Reset()
      requires Valid()
      modifies this`previousSteering, speed`integral, route`active, route`latched
      ensures Valid() && View() == Restarted(old(View()))
    {
      route.ResetProgress();
      speed.Reset();
      previousSteering := 0.0;
    }

    /** step */
    method Step(t: Trig, p: Pose, dt: real, stop: bool) returns (command: Command)
      requires Valid() && ExactRoots(t)
      modifies this`previousSteering, speed`integral, route`active, route`latched
      ensures Valid() && (command, View()) == ControlStep(t, config, old(View()), p, dt, stop)
    {
      ControlKeeps(t, config, View(), p, dt, stop);
      if stop {
        speed.Reset();
        previousSteering := 0.0;
        return SafeStopCommand(config, p.speed);
      }
      if dt <= 0.0 || !route.routeValid {
        speed.Reset();
        previousSteering := 0.0;
        return NEUTRAL;
      }
      var progress := route.Update(t, p);
      if progress.complete {
        speed.Reset();
        previousSteering := 0.0;
        return Command(0.0, 0.0, progress.speed, true, false, true);
      }
      previousSteering := Limited(config, DesiredSteering(t, config, p, progress.target), previousSteering, dt);
      var out := speed.Step(progress.speed, p.speed, dt);
      return Command(previousSteering, out, progress.speed, true, false, false);
    }
  }
}
