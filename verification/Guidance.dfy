/** RouteManager of src/control.cpp in exact arithmetic: waypoint progress, the lookahead walk along the
    polyline, the final approach and the latched final stop. */
module Guidance {
  import opened Reals

  const MAXIMUM_WAYPOINTS: nat := 32
  const SHORTEST_SEGMENT: real := 0.000001
  const SHORTEST_PROJECTION: real := 0.0000000001

  datatype Config = Config(wheelbase: real, lookahead: real, acceptanceRadius: real, finalTolerance: real,
                           finalSpeedTolerance: real, slowdownDistance: real, maxSpeed: real, maxSteering: real,
                           maxSteeringRate: real, maxAcceleration: real, maxDeceleration: real,
                           kp: real, ki: real, integralLimit: real)

  predicate ValidConfig(c: Config) {
    && c.wheelbase > 0.0 && c.lookahead > 0.0 && c.acceptanceRadius > 0.0 && c.finalTolerance > 0.0
    && c.finalSpeedTolerance > 0.0 && c.slowdownDistance > 0.0 && c.maxSpeed > 0.0 && c.maxSteering > 0.0
    && c.maxSteeringRate > 0.0 && c.maxAcceleration > 0.0 && c.maxDeceleration > 0.0
    && c.kp >= 0.0 && c.ki >= 0.0 && (c.kp > 0.0 || c.ki > 0.0) && c.integralLimit > 0.0
  }

  datatype Point = Point(x: real, y: real)
  datatype Waypoint = Waypoint(at: Point, speed: real, radius: real)
  datatype Pose = Pose(at: Point, heading: real, speed: real)

  type Route = seq<Waypoint>

  predicate ValidRoute(c: Config, route: Route) {
    && 0 < |route| <= MAXIMUM_WAYPOINTS
    && forall i :: 0 <= i < |route| ==> 0.0 <= route[i].speed <= c.maxSpeed && route[i].radius >= 0.0
  }

  function Distance(t: Trig, a: Point, b: Point): real {
    t.root(Sqr(b.x - a.x) + Sqr(b.y - a.y))
  }

  lemma DistanceNonnegative(t: Trig, a: Point, b: Point)
    requires ExactRoots(t)
    ensures Distance(t, a, b) >= 0.0
  {
    SqrNonnegative(b.x - a.x);
    SqrNonnegative(b.y - a.y);
  }

  // ------------------------------------------------------- the polyline by arc length

  function Length(t: Trig, route: Route, i: nat): real
    requires i + 1 < |route|
  {
    Distance(t, route[i].at, route[i + 1].at)
  }

  /** The length of the polyline up to waypoint i. */
  function Arc(t: Trig, route: Route, i: nat): real
    requires i < |route|
  {
    if i == 0 then 0.0 else Arc(t, route, i - 1) + Length(t, route, i - 1)
  }

  function Along(route: Route, i: nat, fraction: real): Point
    requires i + 1 < |route|
  {
    var a, b := route[i].at, route[i + 1].at;
    Point(a.x + Times(fraction, b.x - a.x), a.y + Times(fraction, b.y - a.y))
  }

  datatype Target = OnSegment(segment: nat, fraction: real) | AtFinal

  /** The lookahead loop from a position on segment i, with `remaining` left to go. */
  function Walk(t: Trig, route: Route, i: nat, start: real, remaining: real): (r: Target)
    requires i < |route|
    ensures r.OnSegment? ==> r.segment + 1 < |route|
    decreases |route| - i
  {
    if i + 1 >= |route| then AtFinal
    else
      var length := Length(t, route, i);
      var available := Times(length, 1.0 - start);
      if length > SHORTEST_SEGMENT && remaining <= available then OnSegment(i, start + remaining / length)
      else Walk(t, route, i + 1, 0.0, remaining - available)
  }

  /** Segments are points or longer than the loop's threshold. */
  predicate Regular(t: Trig, route: Route) {
    forall i :: 0 <= i && i + 1 < |route| ==> Length(t, route, i) == 0.0 || Length(t, route, i) > SHORTEST_SEGMENT
  }

  lemma {:induction false} ArcMonotone(t: Trig, route: Route, i: nat, j: nat)
    requires ExactRoots(t) && i <= j < |route|
    ensures Arc(t, route, i) <= Arc(t, route, j)
    decreases j - i
  {
    if i < j {
      ArcMonotone(t, route, i, j - 1);
      DistanceNonnegative(t, route[j - 1].at, route[j].at);
    }
  }

  /** Whatever the route, the point found has the arc length asked for, counted on its segment's line; it
      is never past the end of its segment. */
  lemma {:induction false} WalkArc(t: Trig, route: Route, i: nat, start: real, remaining: real)
    requires i < |route|
    ensures var r := Walk(t, route, i, start, remaining);
            r.OnSegment? ==>
              && i <= r.segment && r.fraction <= 1.0
              && Arc(t, route, r.segment) + Times(r.fraction, Length(t, route, r.segment))
                 == Arc(t, route, i) + remaining + if i + 1 < |route| then Times(start, Length(t, route, i)) else 0.0
    decreases |route| - i
  {
    if i + 1 < |route| {
      var length := Length(t, route, i);
      var available := Times(length, 1.0 - start);
      Split(length, start);
      if length > SHORTEST_SEGMENT && remaining <= available {
        Reach(length, start, remaining);
      } else {
        WalkArc(t, route, i + 1, 0.0, remaining - available);
        if i + 2 < |route| {
          ZeroTimes(Length(t, route, i + 1));
        }
      }
    }
  }

  lemma ZeroTimes(a: real)
    ensures Times(0.0, a) == 0.0
  {
  }

  lemma Split(length: real, start: real)
    ensures Times(length, 1.0 - start) == length - Times(start, length)
  {
  }

  lemma Reach(length: real, start: real, remaining: real)
    requires length > 0.0 && remaining <= Times(length, 1.0 - start)
    ensures start + remaining / length <= 1.0
    ensures Times(start + remaining / length, length) == Times(start, length) + remaining
    ensures remaining >= 0.0 ==> remaining / length >= 0.0
  {
    var q := remaining / length;
    assert q * length == remaining;
    Cancel(q, 1.0 - start, length);
    if remaining >= 0.0 {
      Cancel(0.0, q, length);
    }
  }

  lemma Cancel(a: real, b: real, m: real)
    requires m > 0.0 && a * m <= b * m
    ensures a <= b
  {
    if a > b {
      PositiveProduct(a - b, m);
    }
  }

  /** On a regular route the walk stops on a segment exactly if that much arc length is left. */
  lemma {:induction false} WalkStops(t: Trig, route: Route, i: nat, start: real, remaining: real)
    requires ExactRoots(t) && Regular(t, route) && i < |route| && 0.0 <= start <= 1.0 && remaining > 0.0
    ensures Walk(t, route, i, start, remaining).OnSegment?
            <==> Goal(t, route, i, start, remaining) <= Arc(t, route, |route| - 1)
    decreases |route| - i
  {
    if i + 1 < |route| {
      var length := Length(t, route, i);
      var available := Times(length, 1.0 - start);
      Split(length, start);
      ArcMonotone(t, route, i + 1, |route| - 1);
      if length == 0.0 {
        ZeroTimes(1.0 - start);
      }
      if length <= SHORTEST_SEGMENT || remaining > available {
        WalkStops(t, route, i + 1, 0.0, remaining - available);
        if i + 2 < |route| {
          ZeroTimes(Length(t, route, i + 1));
        }
      }
    }
  }

  /** It never stops before the start of its segment. */
  lemma {:induction false} WalkForward(t: Trig, route: Route, i: nat, start: real, remaining: real)
    requires ExactRoots(t) && Regular(t, route) && i < |route| && 0.0 <= start <= 1.0 && remaining > 0.0
    ensures var r := Walk(t, route, i, start, remaining); r.OnSegment? ==> r.fraction >= 0.0
    decreases |route| - i
  {
    if i + 1 < |route| {
      var length := Length(t, route, i);
      var available := Times(length, 1.0 - start);
      if length > SHORTEST_SEGMENT && remaining <= available {
        Reach(length, start, remaining);
      } else {
        if length == 0.0 {
          ZeroTimes(1.0 - start);
        }
        WalkForward(t, route, i + 1, 0.0, remaining - available);
      }
    }
  }

  /** The arc length to which a walk goes. */
  function Goal(t: Trig, route: Route, i: nat, start: real, remaining: real): real
    requires i < |route|
  {
    Arc(t, route, i) + remaining + if i + 1 < |route| then Times(start, Length(t, route, i)) else 0.0
  }

  /** Main result of the walk: on a regular route, starting inside a segment with something left to go, the
      target lies on the polyline exactly that much arc length further on, or is the final waypoint if
      less than that remains. */
  lemma WalkExact(t: Trig, route: Route, i: nat, start: real, remaining: real)
    requires ExactRoots(t) && Regular(t, route) && i < |route| && 0.0 <= start <= 1.0 && remaining > 0.0
    ensures var r := Walk(t, route, i, start, remaining);
            var goal := Goal(t, route, i, start, remaining);
            && (r.OnSegment? <==> goal <= Arc(t, route, |route| - 1))
            && (r.OnSegment? ==>
                  && i <= r.segment && 0.0 <= r.fraction <= 1.0
                  && Arc(t, route, r.segment) + Times(r.fraction, Length(t, route, r.segment)) == goal)
  {
    WalkArc(t, route, i, start, remaining);
    WalkStops(t, route, i, start, remaining);
    WalkForward(t, route, i, start, remaining);
  }

  // ------------------------------------------------------- the projection and the target

  function SquaredGap(a: Point, b: Point): real {
    Sqr(b.x - a.x) + Sqr(b.y - a.y)
  }

  /** Where on segment i the walk starts. */
  function StartFraction(route: Route, i: nat, p: Point): real
    requires i + 1 < |route|
  {
    var a := route[i].at;
    var dx, dy := route[i + 1].at.x - a.x, route[i + 1].at.y - a.y;
    var squared := Sqr(dx) + Sqr(dy);
    if squared > SHORTEST_PROJECTION then Clamp((Times(p.x - a.x, dx) + Times(p.y - a.y, dy)) / squared, 0.0, 1.0)
    else 0.0
  }

  /** The walk starts at the point of the segment closest to the vehicle. */
  lemma StartIsClosest(route: Route, i: nat, p: Point, f: real)
    requires i + 1 < |route| && SquaredGap(route[i].at, route[i + 1].at) > SHORTEST_PROJECTION && 0.0 <= f <= 1.0
    ensures SquaredGap(Along(route, i, StartFraction(route, i, p)), p) <= SquaredGap(Along(route, i, f), p)
  {
    var a, b := route[i].at, route[i + 1].at;
    var dx, dy, u, v := b.x - a.x, b.y - a.y, p.x - a.x, p.y - a.y;
    var l, d, s := Sqr(dx) + Sqr(dy), Times(u, dx) + Times(v, dy), StartFraction(route, i, p);
    GapAt(a, b, p, f);
    GapAt(a, b, p, s);
    ParabolaLeast(l, d, SquaredGap(a, p), s, f);
  }

  function Parabola(l: real, d: real, c: real, f: real): real {
    c - 2.0 * Times(f, d) + Times(Sqr(f), l)
  }

  lemma GapAt(a: Point, b: Point, p: Point, f: real)
    ensures var q := Point(a.x + Times(f, b.x - a.x), a.y + Times(f, b.y - a.y));
            SquaredGap(q, p) == Parabola(SquaredGap(a, b), Times(p.x - a.x, b.x - a.x) + Times(p.y - a.y, b.y - a.y),
                                         SquaredGap(a, p), f)
  {
    var u, v, dx, dy := p.x - a.x, p.y - a.y, b.x - a.x, b.y - a.y;
    AxisGap(u, dx, f);
    AxisGap(v, dy, f);
    TimesSum(f, Times(u, dx), Times(v, dy));
    TimesSum(Sqr(f), Sqr(dx), Sqr(dy));
    assert p.x - (a.x + Times(f, dx)) == u - Times(f, dx) && p.y - (a.y + Times(f, dy)) == v - Times(f, dy);
  }

  lemma TimesSum(a: real, x: real, y: real)
    ensures Times(a, x + y) == Times(a, x) + Times(a, y)
  {
  }

  lemma AxisGap(u: real, d: real, f: real)
    ensures Sqr(u - Times(f, d)) == Sqr(u) - 2.0 * Times(f, Times(u, d)) + Times(Sqr(f), Sqr(d))
  {
  }

  lemma ParabolaLeast(l: real, d: real, c: real, s: real, f: real)
    requires l > 0.0 && 0.0 <= f <= 1.0 && s == Clamp(d / l, 0.0, 1.0)
    ensures Parabola(l, d, c, s) <= Parabola(l, d, c, f)
  {
    var q := d / l;
    assert q * l == d;
    Scaled(l, d, c, q, f);
    Scaled(l, d, c, q, s);
    ClampLeast(q, s, f);
    MultiplyOrder(Sqr(s) - 2.0 * Times(s, q), Sqr(f) - 2.0 * Times(f, q), l);
  }

  lemma Scaled(l: real, d: real, c: real, q: real, f: real)
    requires d == q * l
    ensures Parabola(l, d, c, f) == c + Times(l, Sqr(f) - 2.0 * Times(f, q))
  {
  }

  lemma ClampLeast(q: real, s: real, f: real)
    requires 0.0 <= f <= 1.0 && s == Clamp(q, 0.0, 1.0)
    ensures Sqr(s) - 2.0 * Times(s, q) <= Sqr(f) - 2.0 * Times(f, q)
  {
    if s == q {
      SqrNonnegative(f - q);
      assert Sqr(f - q) == Sqr(f) - 2.0 * Times(f, q) + Sqr(q);
    } else if q < 0.0 {
      NonnegativeProduct(f, f - 2.0 * q);
    } else {
      NonnegativeProduct(1.0 - f, 2.0 * q - 1.0 - f);
    }
  }

  function TargetPoint(route: Route, r: Target): Point
    requires route != [] && (r.OnSegment? ==> r.segment + 1 < |route|)
  {
    match r
    case OnSegment(i, fraction) => Along(route, i, fraction)
    case AtFinal => route[|route| - 1].at
  }

  /** compute_lookahead_target */
  function Lookahead(t: Trig, c: Config, route: Route, active: nat, p: Point): Point
    requires active < |route|
  {
    if |route| == 1 || active == 0 then route[0].at
    else
      TargetPoint(route, Walk(t, route, active - 1, StartFraction(route, active - 1, p), c.lookahead))
  }

  lemma StartInside(route: Route, i: nat, p: Point)
    requires i + 1 < |route|
    ensures 0.0 <= StartFraction(route, i, p) <= 1.0
  {
  }

  /** The target of the walk is on the polyline `lookahead` of arc length past the projection, or the final
      waypoint if less than that remains. */
  ghost predicate ExactAt(t: Trig, route: Route, active: nat, p: Point, lookahead: real)
    requires 0 < active < |route|
  {
    var i := active - 1;
    var goal := Arc(t, route, i) + Times(StartFraction(route, i, p), Length(t, route, i)) + lookahead;
    var r := Walk(t, route, i, StartFraction(route, i, p), lookahead);
    && (r == AtFinal <==> goal > Arc(t, route, |route| - 1))
    && (r.OnSegment? ==>
          && 0.0 <= r.fraction <= 1.0
          && Arc(t, route, r.segment) + Times(r.fraction, Length(t, route, r.segment)) == goal)
  }

  lemma RegularExact(t: Trig, route: Route, active: nat, p: Point, lookahead: real)
    requires ExactRoots(t) && Regular(t, route) && 0 < active < |route| && lookahead > 0.0
    ensures ExactAt(t, route, active, p, lookahead)
  {
    StartInside(route, active - 1, p);
    WalkExact(t, route, active - 1, StartFraction(route, active - 1, p), lookahead);
  }

  /** A segment that is neither a point nor longer than the threshold makes the walk miss from its start. */
  lemma ShortSegmentMisses(t: Trig, route: Route, i: nat)
    requires ExactRoots(t) && i + 1 < |route| && 0.0 < Length(t, route, i) <= SHORTEST_SEGMENT
    ensures !ExactAt(t, route, i + 1, route[i].at, Length(t, route, i) / 2.0)
  {
    var length, p := Length(t, route, i), route[i].at;
    NoProjection(t, route, i, p);
    ZeroTimes(length);
    Split(length, 0.0);
    ArcMonotone(t, route, i + 1, |route| - 1);
    assert Walk(t, route, i, 0.0, length / 2.0) == Walk(t, route, i + 1, 0.0, length / 2.0 - Times(length, 1.0 - 0.0));
    WalkBehind(t, route, i + 1, length / 2.0);
  }

  /** A walk that starts with something to make up never ends on the polyline. */
  lemma WalkBehind(t: Trig, route: Route, i: nat, short: real)
    requires ExactRoots(t) && i < |route| && short > 0.0
    ensures var r := Walk(t, route, i, 0.0, -short); r.OnSegment? ==> r.fraction < 0.0
  {
    WalkArc(t, route, i, 0.0, -short);
    if i + 1 < |route| {
      ZeroTimes(Length(t, route, i));
    }
    var r := Walk(t, route, i, 0.0, -short);
    if r.OnSegment? {
      ArcMonotone(t, route, i, r.segment);
      BehindSegment(t, route, r.segment, r.fraction, short);
    }
  }

  /** A point whose arc length is short of its segment's start has a negative fraction. */
  lemma BehindSegment(t: Trig, route: Route, k: nat, fraction: real, short: real)
    requires ExactRoots(t) && k + 1 < |route| && short > 0.0
    requires Times(fraction, Length(t, route, k)) <= -short
    ensures fraction < 0.0
  {
    DistanceNonnegative(t, route[k].at, route[k + 1].at);
    if fraction >= 0.0 {
      TimesNonnegative(fraction, Length(t, route, k));
    }
  }

  lemma NoProjection(t: Trig, route: Route, i: nat, p: Point)
    requires ExactRoots(t) && i + 1 < |route| && Length(t, route, i) <= SHORTEST_SEGMENT
    ensures StartFraction(route, i, p) == 0.0
  {
    var a, b := route[i].at, route[i + 1].at;
    SqrNonnegative(b.x - a.x);
    SqrNonnegative(b.y - a.y);
    DistanceNonnegative(t, a, b);
    MultiplyOrder(Length(t, route, i), SHORTEST_SEGMENT, Length(t, route, i));
    MultiplyOrder(Length(t, route, i), SHORTEST_SEGMENT, SHORTEST_SEGMENT);
  }

  /** Main result on the target past waypoint 0: the walk is exact from every pose with every lookahead
      distance exactly on the regular routes. */
  lemma ExactOnRegularRoutes(t: Trig, route: Route)
    requires ExactRoots(t)
    ensures Regular(t, route) <==>
            forall active: nat, p, lookahead {:trigger ExactAt(t, route, active, p, lookahead)} ::
              0 < active < |route| && lookahead > 0.0 ==> ExactAt(t, route, active, p, lookahead)
  {
    if Regular(t, route) {
      forall active: nat, p, lookahead | 0 < active < |route| && lookahead > 0.0
        ensures ExactAt(t, route, active, p, lookahead)
      {
        RegularExact(t, route, active, p, lookahead);
      }
    } else {
      var i: nat :| i + 1 < |route| && Length(t, route, i) != 0.0 && Length(t, route, i) <= SHORTEST_SEGMENT;
      DistanceNonnegative(t, route[i].at, route[i + 1].at);
      ShortSegmentMisses(t, route, i);
    }
  }

  /** One such miss: behind a segment shorter than the threshold the target lies off the polyline. */
  lemma ShortSegmentUndershoots(t: Trig)
    requires t.root(Sqr(0.0000008) + Sqr(0.0)) == 0.0000008 && t.root(Sqr(0.0) + Sqr(1.0)) == 1.0
    ensures var route := [Waypoint(Point(0.0, 0.0), 0.0, 0.0), Waypoint(Point(0.0000008, 0.0), 0.0, 0.0),
                          Waypoint(Point(0.0000008, 1.0), 0.0, 0.0)];
            Walk(t, route, 0, 0.0, 0.0000005) == OnSegment(1, -0.0000003)
            && TargetPoint(route, OnSegment(1, -0.0000003)) == Point(0.0000008, -0.0000003)
  {
    var route := [Waypoint(Point(0.0, 0.0), 0.0, 0.0), Waypoint(Point(0.0000008, 0.0), 0.0, 0.0),
                  Waypoint(Point(0.0000008, 1.0), 0.0, 0.0)];
    assert Length(t, route, 0) == 0.0000008;
    assert Length(t, route, 1) == 1.0;
    assert Walk(t, route, 1, 0.0, -0.0000003) == OnSegment(1, -0.0000003);
  }
}
