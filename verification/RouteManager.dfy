/** The route manager of src/control.cpp over whole runs of poses: waypoint progress never goes back, and
    the final stop stays. */
module RouteFollowing {
  import opened Guidance
  import opened Reals

  datatype Tracker = Tracker(active: nat, latched: bool)

  datatype Progress = Progress(valid: bool, complete: bool, active: nat, target: Point, speed: real, distance: real)

  const NO_PROGRESS := Progress(false, false, 0, Point(0.0, 0.0), 0.0, 0.0)

  function AcceptanceRadius(c: Config, w: Waypoint): real {
    if w.radius > 0.0 then w.radius else c.acceptanceRadius
  }

  function FinalRadius(c: Config, w: Waypoint): real {
    if w.radius > 0.0 then w.radius else c.finalTolerance
  }

  /** The while loop over accepted waypoints. */
  function Advance(t: Trig, c: Config, route: Route, active: nat, p: Point): (r: nat)
    requires active < |route|
    ensures active <= r < |route|
    ensures r + 1 < |route| ==> Distance(t, p, route[r].at) > AcceptanceRadius(c, route[r])
    ensures forall i :: active <= i < r ==> Distance(t, p, route[i].at) <= AcceptanceRadius(c, route[i])
    decreases |route| - active
  {
    if active + 1 < |route| && Distance(t, p, route[active].at) <= AcceptanceRadius(c, route[active])
    then Advance(t, c, route, active + 1, p) else active
  }

  function Min(a: real, b: real): real {
    if a < b then a else b
  }

  /** The speed on the final leg, before the stop. */
  function ApproachSpeed(t: Trig, c: Config, route: Route, distance: real): real
    requires route != [] && ValidConfig(c)
  {
    var last := route[|route| - 1];
    var approach := if last.speed <= c.finalSpeedTolerance && |route| > 1 then route[|route| - 2].speed else last.speed;
    var braking := t.root(2.0 * Times(c.maxDeceleration, distance));
    var linear := Times(c.maxSpeed, Clamp((distance - FinalRadius(c, last)) / c.slowdownDistance, 0.0, 1.0));
    Clamp(approach, 0.0, Min(braking, linear))
  }

  /** update on a valid route */
  function Step(t: Trig, c: Config, route: Route, s: Tracker, p: Pose): (Progress, Tracker)
    requires s.active < |route| && ValidConfig(c)
  {
    var active := Advance(t, c, route, s.active, p.at);
    var last := route[|route| - 1];
    var distance := Distance(t, p.at, last.at);
    var near := distance <= FinalRadius(c, last);
    var latched := s.latched || (active == |route| - 1 && near);
    var complete := near && Abs(p.speed) <= c.finalSpeedTolerance;
    var stop := complete || (active == |route| - 1 && latched);
    (Progress(true, complete, active,
              if stop then last.at else Lookahead(t, c, route, active, p.at),
              if stop then 0.0
              else if active == |route| - 1 then ApproachSpeed(t, c, route, distance) else route[active].speed,
              distance),
     Tracker(active, latched))
  }

  /** An update, field by field. */
  lemma StepIs(t: Trig, c: Config, route: Route, s: Tracker, p: Pose, progress: Progress, s': Tracker)
    requires s.active < |route| && ValidConfig(c) && progress.valid
    requires s'.active == progress.active == Advance(t, c, route, s.active, p.at)
    requires progress.distance == Distance(t, p.at, route[|route| - 1].at)
    requires var near := progress.distance <= FinalRadius(c, route[|route| - 1]);
             && s'.latched == (s.latched || (s'.active == |route| - 1 && near))
             && progress.complete == (near && Abs(p.speed) <= c.finalSpeedTolerance)
    requires var stop := progress.complete || (s'.active == |route| - 1 && s'.latched);
             && progress.target == (if stop then route[|route| - 1].at else Lookahead(t, c, route, s'.active, p.at))
             && progress.speed == (if stop then 0.0
                                   else if s'.active == |route| - 1 then ApproachSpeed(t, c, route, progress.distance)
                                   else route[s'.active].speed)
    ensures (progress, s') == Step(t, c, route, s, p)
  {
  }

  /** A tracker a run can reach. */
  predicate Reachable(route: Route, s: Tracker) {
    s.active < |route| && (s.latched ==> s.active == |route| - 1)
  }

  lemma ApproachBounds(t: Trig, c: Config, route: Route, distance: real)
    requires ExactRoots(t) && ValidConfig(c) && ValidRoute(c, route) && distance >= 0.0
    ensures var v := ApproachSpeed(t, c, route, distance);
            && 0.0 <= v <= c.maxSpeed && Sqr(v) <= 2.0 * Times(c.maxDeceleration, distance)
            && (distance <= FinalRadius(c, route[|route| - 1]) ==> v == 0.0)
  {
    var v, last := ApproachSpeed(t, c, route, distance), route[|route| - 1];
    var budget := 2.0 * Times(c.maxDeceleration, distance);
    TimesNonnegative(c.maxDeceleration, distance);
    var braking := t.root(budget);
    var ratio := Clamp((distance - FinalRadius(c, last)) / c.slowdownDistance, 0.0, 1.0);
    TimesNonnegative(c.maxSpeed, ratio);
    ClampedRatio(distance - FinalRadius(c, last), c.slowdownDistance);
    MultiplyOrder(v, braking, braking);
    MultiplyOrder(v, braking, v);
    TimesCommutes(v, braking);
  }

  lemma ClampedRatio(gap: real, slowdown: real)
    requires slowdown > 0.0
    ensures gap <= 0.0 ==> Clamp(gap / slowdown, 0.0, 1.0) == 0.0
  {
  }

  /** Main result on the final approach: outside the final radius the speed is the least of three: that of the last leg,
      the one from which the vehicle can just brake to rest in the distance left, and the share of the maximum that the
      rest of the slowdown distance allows. */
  lemma ApproachIsLeast(t: Trig, c: Config, route: Route, distance: real)
    requires ExactRoots(t) && ValidConfig(c) && ValidRoute(c, route)
    requires var last := route[|route| - 1]; distance > if last.radius > 0.0 then last.radius else c.finalTolerance
    ensures var v, last := ApproachSpeed(t, c, route, distance), route[|route| - 1];
            var rest := distance - if last.radius > 0.0 then last.radius else c.finalTolerance;
            var leg := if last.speed <= c.finalSpeedTolerance && |route| > 1 then route[|route| - 2].speed
                       else last.speed;
            && v <= leg && Sqr(v) <= 2.0 * Times(c.maxDeceleration, distance)
            && Times(v, c.slowdownDistance) <= Times(c.maxSpeed, rest)
            && (v == leg || Sqr(v) == 2.0 * Times(c.maxDeceleration, distance) ||
                Times(v, c.slowdownDistance) == Times(c.maxSpeed, rest))
  {
    var v, last := ApproachSpeed(t, c, route, distance), route[|route| - 1];
    var rest := distance - FinalRadius(c, last);
    var leg := if last.speed <= c.finalSpeedTolerance && |route| > 1 then route[|route| - 2].speed else last.speed;
    ApproachBounds(t, c, route, distance);
    TimesPositive(c.maxDeceleration, distance);
    var braking, q := t.root(2.0 * Times(c.maxDeceleration, distance)), rest / c.slowdownDistance;
    LinearShare(c.maxSpeed, c.slowdownDistance, rest, leg, v);
  }

  /** The linear bound, cut at the maximum speed, is the exact share of it unless that exceeds any leg speed. */
  lemma LinearShare(top: real, slowdown: real, rest: real, leg: real, v: real)
    requires top > 0.0 && slowdown > 0.0 && rest > 0.0 && leg <= top
    ensures var linear := Times(top, Clamp(rest / slowdown, 0.0, 1.0));
            && linear > 0.0
            && (linear < leg ==> Times(linear, slowdown) == Times(top, rest))
            && (v <= linear ==> Times(v, slowdown) <= Times(top, rest))
  {
    var q := rest / slowdown;
    assert q * slowdown == rest;
    PositiveFactor(q, slowdown);
    var share := Clamp(q, 0.0, 1.0);
    TimesPositive(top, share);
    if v <= Times(top, share) {
      MultiplyOrder(v, Times(top, share), slowdown);
      TimesCommutes(v, slowdown);
      MultiplyOrder(share, q, Times(top, slowdown));
      assert Times(slowdown, Times(top, share)) == Times(Times(top, slowdown), share);
      assert Times(Times(top, slowdown), q) == Times(top, rest);
      TimesPositive(top, slowdown);
    }
    if q < 1.0 {
      assert Times(Times(top, q), slowdown) == Times(top, rest);
    } else {
      assert Times(top, 1.0) == top;
    }
  }

  lemma PositiveFactor(q: real, m: real)
    requires m > 0.0 && q * m > 0.0
    ensures q > 0.0
  {
    if q <= 0.0 {
      NonnegativeProduct(-q, m);
    }
  }

  /** Where the vehicle is led: the first waypoint from the active one on that is not reached, or the last; completion
      exactly at the final waypoint with the vehicle at rest; until the stop the speed of that waypoint, and as target
      the point of the route the lookahead ahead, which is exact on a regular route. */
  lemma StepLeads(t: Trig, c: Config, route: Route, s: Tracker, p: Pose)
    requires ExactRoots(t) && ValidConfig(c) && ValidRoute(c, route) && Reachable(route, s)
    ensures var (progress, s') := Step(t, c, route, s, p);
            var last := |route| - 1;
            var near := Distance(t, p.at, route[last].at)
                        <= if route[last].radius > 0.0 then route[last].radius else c.finalTolerance;
            && progress.valid && progress.distance == Distance(t, p.at, route[last].at)
            && (forall i :: s.active <= i < s'.active ==> Reached(t, c, p, route[i]))
            && (s'.active < last ==> !Reached(t, c, p, route[s'.active]))
            && (progress.complete <==> near && Abs(p.speed) <= c.finalSpeedTolerance)
            && (s'.latched <==> s.latched || (s'.active == last && near))
            && (!progress.complete && s'.active < last ==> progress.speed == route[s'.active].speed)
            && (!progress.complete && !s'.latched ==>
                  if s'.active == 0 then progress.target == route[0].at
                  else
                    var start := StartFraction(route, s'.active - 1, p.at);
                    && progress.target == TargetPoint(route, Walk(t, route, s'.active - 1, start, c.lookahead))
                    && (Regular(t, route) ==> ExactAt(t, route, s'.active, p.at, c.lookahead)))
  {
    StepsOn(t, c, route, s, p);
    LooksAhead(t, c, route, Step(t, c, route, s, p).1.active, p.at);
  }

  lemma LooksAhead(t: Trig, c: Config, route: Route, active: nat, p: Point)
    requires ExactRoots(t) && ValidConfig(c) && active < |route|
    ensures if active == 0 then Lookahead(t, c, route, active, p) == route[0].at
            else
              var start := StartFraction(route, active - 1, p);
              && Lookahead(t, c, route, active, p) == TargetPoint(route, Walk(t, route, active - 1, start, c.lookahead))
              && (Regular(t, route) ==> ExactAt(t, route, active, p, c.lookahead))
  {
    if Regular(t, route) && active > 0 {
      RegularExact(t, route, active, p, c.lookahead);
    }
  }

  lemma StepsOn(t: Trig, c: Config, route: Route, s: Tracker, p: Pose)
    requires ValidConfig(c) && ValidRoute(c, route) && Reachable(route, s)
    ensures var active := Advance(t, c, route, s.active, p.at);
            && s.active <= active < |route|
            && (forall i :: s.active <= i < active ==> Reached(t, c, p, route[i]))
            && (active < |route| - 1 ==> !Reached(t, c, p, route[active]))
  {
  }

  /** Within the acceptance radius of a waypoint, its own if it has one. */
  predicate Reached(t: Trig, c: Config, p: Pose, w: Waypoint) {
    Distance(t, p.at, w.at) <= if w.radius > 0.0 then w.radius else c.acceptanceRadius
  }

  /** Main result on one update: progress never goes back, the stop latch never opens, the target speed
      stays in range, and on the final leg the vehicle can brake to rest within the distance left. */
  lemma StepKeeps(t: Trig, c: Config, route: Route, s: Tracker, p: Pose)
    requires ExactRoots(t) && ValidConfig(c) && ValidRoute(c, route) && Reachable(route, s)
    ensures var (progress, s') := Step(t, c, route, s, p);
            && Reachable(route, s') && s.active <= s'.active && (s.latched ==> s'.latched)
            && progress.active == s'.active && 0.0 <= progress.speed <= c.maxSpeed
            && (s'.active == |route| - 1 ==> Sqr(progress.speed) <= 2.0 * Times(c.maxDeceleration, progress.distance))
            && (s'.latched || progress.complete ==> progress.speed == 0.0 && progress.target == route[|route| - 1].at)
  {
    var distance := Distance(t, p.at, route[|route| - 1].at);
    DistanceNonnegative(t, p.at, route[|route| - 1].at);
    ApproachBounds(t, c, route, distance);
    TimesNonnegative(c.maxDeceleration, distance);
    ZeroTimes(0.0);
  }

  function Follow(t: Trig, c: Config, route: Route, s: Tracker, poses: seq<Pose>): (r: (seq<Progress>, Tracker))
    requires s.active < |route| && ValidConfig(c)
    ensures |r.0| == |poses|
    decreases |poses|
  {
    if poses == [] then ([], s)
    else
      var (progress, s') := Step(t, c, route, s, poses[0]);
      var (rest, end) := Follow(t, c, route, s', poses[1..]);
      ([progress] + rest, end)
  }

  predicate Stopped(route: Route, progress: Progress)
    requires route != []
  {
    progress.speed == 0.0 && progress.target == route[|route| - 1].at
  }

  /** What a run of updates from s shows. */
  ghost predicate RunKeeps(route: Route, s: Tracker, out: seq<Progress>, end: Tracker) {
    && Reachable(route, end) && s.active <= end.active
    && (forall i :: 0 <= i < |out| ==> s.active <= out[i].active <= end.active)
    && (forall i, j :: 0 <= i < j < |out| ==> out[i].active <= out[j].active)
    && (s.latched ==> end.latched && forall i :: 0 <= i < |out| ==> Stopped(route, out[i]))
  }

  lemma PrependKeeps(route: Route, s: Tracker, progress: Progress, s': Tracker, rest: seq<Progress>, end: Tracker)
    requires RunKeeps(route, s', rest, end) && s.active <= s'.active == progress.active
    requires s.latched ==> s'.latched && Stopped(route, progress)
    ensures RunKeeps(route, s, [progress] + rest, end)
  {
  }

  /** Main result on runs: along any run of poses on one route the active waypoint never decreases, and once
      the stop has latched every later update gives speed zero at the final waypoint. */
  lemma {:induction false} FollowKeeps(t: Trig, c: Config, route: Route, s: Tracker, poses: seq<Pose>)
    requires ExactRoots(t) && ValidConfig(c) && ValidRoute(c, route) && Reachable(route, s)
    ensures RunKeeps(route, s, Follow(t, c, route, s, poses).0, Follow(t, c, route, s, poses).1)
    decreases |poses|
  {
    if poses != [] {
      var (progress, s') := Step(t, c, route, s, poses[0]);
      StepKeeps(t, c, route, s, poses[0]);
      FollowKeeps(t, c, route, s', poses[1..]);
      var (rest, end) := Follow(t, c, route, s', poses[1..]);
      PrependKeeps(route, s, progress, s', rest, end);
    }
  }

  class RouteManager {
    var config: Config
    const waypoints: array<Waypoint>
    var count: nat
    var active: nat
    var routeValid: bool
    var latched: bool

    ghost predicate Valid()
      reads this, waypoints
    {
      && waypoints.Length == MAXIMUM_WAYPOINTS && ValidConfig(config) && count <= MAXIMUM_WAYPOINTS
      && (routeValid ==>
            ValidRoute(config, waypoints[..count]) && Reachable(waypoints[..count], Tracker(active, latched)))
    }

    ghost function Current(): Route
      requires waypoints.Length == MAXIMUM_WAYPOINTS && count <= MAXIMUM_WAYPOINTS
      reads this`count, waypoints
    {
      waypoints[..count]
    }

    constructor (c: Config)
      requires ValidConfig(c)
      ensures Valid() && fresh(waypoints) && config == c && !routeValid
    {
      config := c;
      waypoints := new Waypoint[MAXIMUM_WAYPOINTS](_ => Waypoint(Point(0.0, 0.0), 0.0, 0.0));
      count, active, routeValid, latched := 0, 0, false, false;
    }

    /** A route is taken over exactly if it is valid; a refused one changes nothing. */
    method SetRoute(points: Route) returns (ok: bool)
      requires Valid()
      modifies this`count, this`active, this`routeValid, this`latched, waypoints
      ensures Valid() && ok == ValidRoute(config, points)
      ensures ok ==> routeValid && Current() == points && active == 0 && !latched
      ensures !ok ==> unchanged(this) && unchanged(waypoints)
    {
      if points == [] || |points| > MAXIMUM_WAYPOINTS {
        return false;
      }
      for i := 0 to |points|
        invariant forall j :: 0 <= j < i ==> 0.0 <= points[j].speed <= config.maxSpeed && points[j].radius >= 0.0
      {
        if points[i].speed < 0.0 || points[i].speed > config.maxSpeed || points[i].radius < 0.0 {
          return false;
        }
      }
      for i := 0 to |points|
        invariant forall j :: 0 <= j < i ==> waypoints[j] == points[j]
      {
        waypoints[i] := points[i];
      }
      count, active, routeValid, latched := |points|, 0, true, false;
      assert waypoints[..count] == points;
      return true;
    }

    method Clear()
      requires Valid()
      modifies this`count, this`active, this`routeValid, this`latched
      ensures Valid() && !routeValid && active == 0 && !latched
    {
      count, active, routeValid, latched := 0, 0, false, false;
    }

    method ResetProgress()
      requires Valid()
      modifies this`active, this`latched
      ensures Valid() && active == 0 && !latched
    {
      active, latched := 0, false;
    }

    /** compute_lookahead_target */
    method ComputeLookaheadTarget(t: Trig, p: Point) returns (target: Point)
      requires Valid() && active < count
      ensures target == Lookahead(t, config, Current(), active, p)
    {
      if count == 1 || active == 0 {
        return waypoints[0].at;
      }
      ghost var route := Current();
      var best := active - 1;
      var bestFraction := StartFraction(waypoints[..count], best, p);
      var remaining := config.lookahead;
      var segment := best;
      while segment + 1 < count
        invariant best <= segment < count
        invariant Walk(t, route, best, bestFraction, config.lookahead)
               == Walk(t, route, segment, if segment == best then bestFraction else 0.0, remaining)
      {
        var a, b := waypoints[segment].at, waypoints[segment + 1].at;
        var length := Distance(t, a, b);
        assert length == Length(t, route, segment);
        var startFraction := if segment == best then bestFraction else 0.0;
        var available := Times(length, 1.0 - startFraction);
        if length > SHORTEST_SEGMENT && remaining <= available {
          var fraction := startFraction + remaining / length;
          return Point(a.x + Times(fraction, b.x - a.x), a.y + Times(fraction, b.y - a.y));
        }
        remaining := remaining - available;
        segment := segment + 1;
      }
      return waypoints[count - 1].at;
    }

    method AdvanceWaypoint(t: Trig, p: Point)
      requires Valid() && routeValid
      modifies this`active
      ensures active == Advance(t, config, Current(), old(active), p)
    {
      while active + 1 < count && Distance(t, p, waypoints[active].at) <= AcceptanceRadius(config, waypoints[active])
        invariant active < count
        invariant Advance(t, config, Current(), active, p) == Advance(t, config, Current(), old(active), p)
        decreases count - active
      {
        active := active + 1;
      }
    }

    /** Progress, distance and latch of an update. */
    method Approach(t: Trig, p: Point) returns (distance: real, near: bool)
      requires Valid() && routeValid
      modifies this`active, this`latched
      ensures Valid() && active == Advance(t, config, Current(), old(active), p)
      ensures distance == Distance(t, p, waypoints[count - 1].at)
      ensures near == (distance <= FinalRadius(config, waypoints[count - 1]))
      ensures latched == (old(latched) || (active == count - 1 && near))
    {
      AdvanceWaypoint(t, p);
      distance := Distance(t, p, waypoints[count - 1].at);
      near := distance <= FinalRadius(config, waypoints[count - 1]);
      if active == count - 1 && near {
        latched := true;
      }
    }

    /** update */
    method Update(t: Trig, p: Pose) returns (progress: Progress)
      requires Valid()
      modifies this`active, this`latched
      ensures Valid()
      ensures if routeValid
              then (progress, Tracker(active, latched)) == Step(t, config, Current(), old(Tracker(active, latched)), p)
              else progress == NO_PROGRESS && active == old(active) && latched == old(latched)
    {
      if routeValid {
        progress := UpdateValid(t, p);
      } else {
        progress := NO_PROGRESS;
      }
    }

    method UpdateValid(t: Trig, p: Pose) returns (progress: Progress)
      requires Valid() && routeValid
      modifies this`active, this`latched
      ensures Valid()
      ensures (progress, Tracker(active, latched)) == Step(t, config, Current(), old(Tracker(active, latched)), p)
    {
      ghost var before := Tracker(active, latched);
      var distance, near := Approach(t, p.at);
      var complete := near && Abs(p.speed) <= config.finalSpeedTolerance;
      var target, speed := Aim(t, p.at, distance);
      if complete {
        speed, target := 0.0, waypoints[count - 1].at;
      }
      progress := Progress(true, complete, active, target, speed, distance);
      ghost var route, after := Current(), Tracker(active, latched);
      assert |route| == count && route[count - 1] == waypoints[count - 1] && route[active] == waypoints[active];
      StepIs(t, config, route, before, p, progress, after);
    }

    /** The target and the speed of an update that has not completed the route. */
    method Aim(t: Trig, p: Point, distance: real) returns (target: Point, speed: real)
      requires Valid() && routeValid
      ensures var stop := active == count - 1 && latched;
              && target == (if stop then waypoints[count - 1].at else Lookahead(t, config, Current(), active, p))
              && speed == (if stop then 0.0
                           else if active == count - 1 then ApproachSpeed(t, config, Current(), distance)
                           else waypoints[active].speed)
    {
      target := ComputeLookaheadTarget(t, p);
      speed := waypoints[active].speed;
      if active == count - 1 {
        speed := ApproachSpeed(t, config, waypoints[..count], distance);
        if latched {
          speed, target := 0.0, waypoints[count - 1].at;
        }
      }
    }
  }
}
