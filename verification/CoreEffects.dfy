/** What the controller core of src/runtime.cpp makes of a frame and of a decision: which updates run on what, where the
    first fix puts the vehicle, and what the commands are computed from. */
module CoreEffects {
  import C = Control
  import E = Ekf
  import G = Guidance
  import R = Runtime
  import K = Core
  import opened Core
  import opened EstimatorRuns
  import opened LinearAlgebra
  import opened Modes
  import opened Reals
  import opened Words

  // ------------------------------------------------------- the updates of a frame

  lemma {:induction false} UpdatesInParts(c: E.Config, t: Trig, f: E.Filter, a: seq<Call>, b: seq<Call>)
    requires E.ValidConfig(c) && E.Shaped(f) && PositiveRoots(t)
    ensures E.Shaped(Updates(c, t, f, a).0)
    ensures Updates(c, t, f, a + b).0 == Updates(c, t, Updates(c, t, f, a).0, b).0
    decreases |a|
  {
    if a == [] {
      assert a + b == b;
    } else {
      assert (a + b)[1..] == a[1..] + b;
      UpdatesInParts(c, t, Apply(c, t, f, a[0]).0, a[1..], b);
    }
  }

  /** The landmarks of a frame, one after the other, stamped with the time of receipt. */
  function SeeAll(c: E.Config, t: Trig, f: E.Filter, landmarks: seq<E.Landmark>, now: u32): (g: E.Filter)
    requires E.ValidConfig(c) && E.Shaped(f) && PositiveRoots(t)
    ensures E.Shaped(g)
    decreases |landmarks|
  {
    if landmarks == [] then f
    else SeeAll(c, t, E.SeeLandmark(c, t, f, landmarks[0].(at := now)).0, landmarks[1..], now)
  }

  lemma {:induction false} SightingsSeen(c: E.Config, t: Trig, f: E.Filter, landmarks: seq<E.Landmark>, now: u32)
    requires E.ValidConfig(c) && E.Shaped(f) && PositiveRoots(t)
    ensures Updates(c, t, f, Sightings(landmarks, now)).0 == SeeAll(c, t, f, landmarks, now)
    decreases |landmarks|
  {
    var calls := Sightings(landmarks, now);
    if landmarks != [] {
      assert calls[1..] == Sightings(landmarks[1..], now);
      SightingsSeen(c, t, E.SeeLandmark(c, t, f, landmarks[0].(at := now)).0, landmarks[1..], now);
    }
  }

  lemma OneUpdate(c: E.Config, t: Trig, f: E.Filter, call: Call)
    requires E.ValidConfig(c) && E.Shaped(f) && PositiveRoots(t)
    ensures Updates(c, t, f, [call]).0 == Apply(c, t, f, call).0 && Updates(c, t, f, []).0 == f
  {
    assert [call][1..] == [];
  }

  /** The filter after the samples of a frame: inertial, wheel speed, fix, landmarks, each if present, in this order and
      stamped with the time of receipt. */
  function AfterSamples(c: E.Config, t: Trig, f: E.Filter, frame: Frame, dt: real, now: u32): (g: E.Filter)
    requires E.ValidConfig(c) && E.Shaped(f) && PositiveRoots(t)
    ensures E.Shaped(g)
  {
    var f1 := if frame.imu.Some? then E.Predict(c, t, f, frame.imu.value.(at := now), dt).0 else f;
    var f2 := if frame.wheel.Some? then E.Wheel(c, f1, frame.wheel.value, now).0 else f1;
    var f3 := if frame.gnss.Some? then E.Gnss(c, f2, frame.gnss.value.x, frame.gnss.value.y, now).0 else f2;
    SeeAll(c, t, f3, frame.landmarks, now)
  }

  lemma CallsApply(c: E.Config, t: Trig, f: E.Filter, frame: Frame, dt: real, now: u32)
    requires E.ValidConfig(c) && E.Shaped(f) && PositiveRoots(t)
    ensures Updates(c, t, f, Calls(frame, dt, now)).0 == AfterSamples(c, t, f, frame, dt, now)
  {
    var imu, wheel, fixes := Inertial(frame, dt, now), Wheels(frame, now), Fixes(frame, now);
    var sights := Sightings(frame.landmarks, now);
    assert Calls(frame, dt, now) == imu + wheel + fixes + sights;
    UpdatesInParts(c, t, f, imu + wheel + fixes, sights);
    UpdatesInParts(c, t, f, imu + wheel, fixes);
    UpdatesInParts(c, t, f, imu, wheel);
    var f1 := Updates(c, t, f, imu).0;
    UpdatesInParts(c, t, f1, wheel, []);
    var f2 := Updates(c, t, f1, wheel).0;
    UpdatesInParts(c, t, f2, fixes, []);
    var f3 := Updates(c, t, f2, fixes).0;
    InertialApplies(c, t, f, frame, dt, now);
    WheelsApply(c, t, f1, frame, now);
    FixesApply(c, t, f2, frame, now);
    SightingsSeen(c, t, f3, frame.landmarks, now);
  }

  function Inertial(frame: Frame, dt: real, now: u32): seq<Call> {
    if frame.imu.Some? then [CallPredict(frame.imu.value.(at := now), dt)] else []
  }

  function Wheels(frame: Frame, now: u32): seq<Call> {
    if frame.wheel.Some? then [CallWheel(frame.wheel.value, now)] else []
  }

  lemma InertialApplies(c: E.Config, t: Trig, f: E.Filter, frame: Frame, dt: real, now: u32)
    requires E.ValidConfig(c) && E.Shaped(f) && PositiveRoots(t)
    ensures Updates(c, t, f, Inertial(frame, dt, now)).0
         == if frame.imu.Some? then E.Predict(c, t, f, frame.imu.value.(at := now), dt).0 else f
  {
    if frame.imu.Some? {
      OneUpdate(c, t, f, CallPredict(frame.imu.value.(at := now), dt));
    }
  }

  lemma WheelsApply(c: E.Config, t: Trig, f: E.Filter, frame: Frame, now: u32)
    requires E.ValidConfig(c) && E.Shaped(f) && PositiveRoots(t)
    ensures Updates(c, t, f, Wheels(frame, now)).0
         == if frame.wheel.Some? then E.Wheel(c, f, frame.wheel.value, now).0 else f
  {
    if frame.wheel.Some? {
      OneUpdate(c, t, f, CallWheel(frame.wheel.value, now));
    }
  }

  lemma FixesApply(c: E.Config, t: Trig, f: E.Filter, frame: Frame, now: u32)
    requires E.ValidConfig(c) && E.Shaped(f) && PositiveRoots(t)
    ensures Updates(c, t, f, Fixes(frame, now)).0
         == if frame.gnss.Some? then E.Gnss(c, f, frame.gnss.value.x, frame.gnss.value.y, now).0 else f
  {
    if frame.gnss.Some? {
      OneUpdate(c, t, f, CallGnss(frame.gnss.value.x, frame.gnss.value.y, now));
    }
  }

  /** Main result on a committed frame: an initialized estimator has taken every sample of it, in order, and nothing
      else. */
  lemma CommittedTakesAll(c: E.Config, t: Trig, f: E.Filter, frame: Frame, dt: real, now: u32)
    requires E.ValidConfig(c) && PositiveRoots(t) && Fit(c, f) && f.initialized
    requires Process(c, t, f, frame, dt, now).1 == Committed
    ensures Process(c, t, f, frame, dt, now).0 == AfterSamples(c, t, f, frame, dt, now)
  {
    CommitsAreWhole(c, t, f, frame, dt, now);
    CallsApply(c, t, f, frame, dt, now);
  }

  // ------------------------------------------------------- the first fix

  /** A measurement that shows what is estimated leaves the estimate where it is. */
  lemma ScalarAgrees(c: E.Config, f: E.Filter, h: Vec, r: real, gate: real)
    requires E.Shaped(f) && |h| == E.N && -PI <= f.state[E.HEADING] < PI
    requires E.ScalarStep(c, f, 0.0, h, r, gate).1.result == E.Accepted
    ensures E.ScalarStep(c, f, 0.0, h, r, gate).0.state == f.state
  {
    NormalizeFixed(f.state[E.HEADING]);
    var k := E.ScalarStep(c, f, 0.0, h, r, gate).0.state;
    forall i | 0 <= i < E.N ensures k[i] == f.state[i] {
    }
  }

  lemma PairAgrees(c: E.Config, f: E.Filter, h0: Vec, h1: Vec, r0: real, r1: real, gate: real)
    requires E.Shaped(f) && |h0| == |h1| == E.N && -PI <= f.state[E.HEADING] < PI
    requires E.PairStep(c, f, 0.0, 0.0, h0, h1, r0, r1, gate, false).1.result == E.Accepted
    ensures E.PairStep(c, f, 0.0, 0.0, h0, h1, r0, r1, gate, false).0.state == f.state
  {
    NormalizeFixed(f.state[E.HEADING]);
    var k := E.PairStep(c, f, 0.0, 0.0, h0, h1, r0, r1, gate, false).0.state;
    forall i | 0 <= i < E.N ensures k[i] == f.state[i] {
    }
  }

  lemma WheelAgrees(c: E.Config, f: E.Filter, now: u32)
    requires E.ValidConfig(c) && E.Sound(c, f) && f.initialized && -PI <= f.state[E.HEADING] < PI
    requires !Failed(E.Wheel(c, f, f.state[E.SPEED], now).1.result)
    ensures E.Wheel(c, f, f.state[E.SPEED], now).0.state == f.state
  {
    assert E.Gap(f.state[E.SPEED], f.state[E.SPEED]) == 0.0;
    if E.Wheel(c, f, f.state[E.SPEED], now).1.result == E.Accepted {
      ScalarAgrees(c, f, Unit(E.N, E.SPEED), c.wheelVariance, c.wheelGate);
    }
  }

  lemma FixAgrees(c: E.Config, f: E.Filter, now: u32)
    requires E.ValidConfig(c) && E.Sound(c, f) && f.initialized && -PI <= f.state[E.HEADING] < PI
    requires !Failed(E.Gnss(c, f, f.state[0], f.state[1], now).1.result)
    ensures E.Gnss(c, f, f.state[0], f.state[1], now).0.state == f.state
  {
    assert E.Gap(f.state[0], f.state[0]) == 0.0 && E.Gap(f.state[1], f.state[1]) == 0.0;
    if E.Gnss(c, f, f.state[0], f.state[1], now).1.result == E.Accepted {
      PairAgrees(c, f, Unit(E.N, 0), Unit(E.N, 1), c.gnssX, c.gnssY, c.gnssGate);
    }
  }

  /** The copy a first fix initializes: at the fix, heading along x, with the speed and the yaw rate of the same frame.
      */
  lemma FirstFixInitializes(c: E.Config, f: E.Filter, frame: Frame)
    requires E.ValidConfig(c) && Fit(c, f) && !f.initialized && frame.gnss.Some? && Candidate(c, f, frame).1
    ensures var g := Candidate(c, f, frame).0;
            && E.Sound(c, g) && g.initialized && g.healthy
            && g.state == [frame.gnss.value.x, frame.gnss.value.y, 0.0,
                           if frame.wheel.Some? then frame.wheel.value else 0.0,
                           if frame.imu.Some? then frame.imu.value.yawRate else 0.0, 0.0]
            && forall i :: 0 <= i < E.N ==>
                 g.cov[i][i] == if c.initialVariance[i] < c.floor then c.floor else c.initialVariance[i]
  {
    E.InitializeSound(c, f, InitialState(frame), c.initialVariance);
    NormalizeFixed(0.0);
  }

  /** Main result on the first fix: a committed frame without an inertial sample or landmarks leaves a blank estimator
      exactly at its fix, with the speed of the wheels if it has one. */
  lemma FirstFixPlaces(c: E.Config, t: Trig, f: E.Filter, frame: Frame, dt: real, now: u32)
    requires E.ValidConfig(c) && PositiveRoots(t) && Fit(c, f) && !f.initialized
    requires frame.gnss.Some? && frame.imu.None? && frame.landmarks == []
    requires Process(c, t, f, frame, dt, now).1 == Committed
    ensures Process(c, t, f, frame, dt, now).0.state
         == [frame.gnss.value.x, frame.gnss.value.y, 0.0, if frame.wheel.Some? then frame.wheel.value else 0.0, 0.0,
             0.0]
  {
    CommitsAreWhole(c, t, f, frame, dt, now);
    FirstFixInitializes(c, f, frame);
    var g := Candidate(c, f, frame).0;
    FixStays(c, t, g, frame, dt, now);
  }

  lemma FixStays(c: E.Config, t: Trig, g: E.Filter, frame: Frame, dt: real, now: u32)
    requires E.ValidConfig(c) && PositiveRoots(t) && E.Sound(c, g) && g.initialized && g.state[E.HEADING] == 0.0
    requires frame.gnss.Some? && frame.imu.None? && frame.landmarks == []
    requires g.state[0] == frame.gnss.value.x && g.state[1] == frame.gnss.value.y
    requires frame.wheel.Some? ==> g.state[E.SPEED] == frame.wheel.value
    requires AllUsable(Updates(c, t, g, Calls(frame, dt, now)).1)
    ensures Updates(c, t, g, Calls(frame, dt, now)).0.state == g.state
  {
    var fix := CallGnss(frame.gnss.value.x, frame.gnss.value.y, now);
    var results := Updates(c, t, g, Calls(frame, dt, now)).1;
    if frame.wheel.Some? {
      var wheel := CallWheel(frame.wheel.value, now);
      assert Calls(frame, dt, now) == [wheel, fix];
      var h := Apply(c, t, g, wheel).0;
      TwoUpdates(c, t, g, wheel, fix);
      assert !Failed(results[0]) && !Failed(results[1]);
      WheelAgrees(c, g, now);
      WheelKeeps(c, g, frame.wheel.value, now);
      FixAgrees(c, h, now);
    } else {
      assert Calls(frame, dt, now) == [fix];
      OneUpdate(c, t, g, fix);
      assert [fix][1..] == [];
      assert !Failed(results[0]);
      FixAgrees(c, g, now);
    }
  }

  lemma TwoUpdates(c: E.Config, t: Trig, f: E.Filter, a: Call, b: Call)
    requires E.ValidConfig(c) && E.Shaped(f) && PositiveRoots(t)
    ensures var g := Apply(c, t, f, a);
            Updates(c, t, f, [a, b]) == (Apply(c, t, g.0, b).0, [g.1, Apply(c, t, g.0, b).1])
  {
    var g, h := Apply(c, t, f, a), Apply(c, t, Apply(c, t, f, a).0, b);
    assert [a, b][1..] == [b] && [b][1..] == [];
    assert Updates(c, t, g.0, [b]) == (h.0, [h.1] + []);
    assert Updates(c, t, f, [a, b]) == (h.0, [g.1] + ([h.1] + []));
    assert [g.1] + ([h.1] + []) == [g.1, h.1];
  }

  // ------------------------------------------------------- what a command is computed from

  /** Main result on commands: a vehicle that runs or is degraded, with navigation and a route, follows the route from
      where the estimator has it; a stopped one brakes from the estimated speed; any other gets the neutral command, and
      then the controller stays as it was. What is reported beside the command is the estimator's. */
  lemma CommandUsesEstimate(c: Config, t: Trig, s: CoreState, i: Input)
    requires ValidConfig(c) && ExactRoots(t) && PositiveRoots(t) && Sane(c, s)
    ensures E.Shaped(Sensed(c, t, s, i).0)
    ensures var (s', out) := Step(c, t, s, i);
            var f := s'.filter;
            && |f.state| == E.N && out.estimate == f.state && out.healthy == f.healthy
            && out.mode == NavigationModeOf(c.ekf, f.initialized && f.healthy, f.seen, i.now)
            && var pose := G.Pose(G.Point(f.state[0], f.state[1]), f.state[2], f.state[3]);
               if Moving(out.safety) && out.mode != Unavailable && s.controller.routeValid then
                 (out.command, s'.controller) == C.ControlStep(t, c.control, s.controller, pose, i.dt, false)
               else
                 && s'.controller == s.controller
                 && out.command == if Latched(out.safety) then C.SafeStopCommand(c.control, f.state[3]) else C.NEUTRAL
  {
    K.StepKeeps(c, t, s, i);
    var (f, m) := Sensed(c, t, s, i);
    var inputs := InputsFor(c, f, s.controller, i.now);
    var m' := R.TickMachine(c.runtime, m, i.now, inputs);
    var d := R.DecisionFor(m'.state, inputs);
    assert d.permitControl <==> Moving(m'.state) && inputs.mode != Unavailable && s.controller.routeValid;
    assert d.forceSafeStop <==> Latched(m'.state);
    var pose := G.Pose(G.Point(f.state[0], f.state[1]), f.state[2], f.state[3]);
    assert PoseOf(f.state) == pose;
    var (s', out) := Step(c, t, s, i);
    assert (out.command, s'.controller) == CommandFor(c, t, s.controller, pose, i.dt, d);
    assert d.permitControl ==>
             (out.command, s'.controller) == C.ControlStep(t, c.control, s.controller, pose, i.dt, false);
  }

  /** Main result on starting: a committed frame feeds the watchdog, so that in Ready with a route it makes the vehicle
      run if the position is aided after it, and degraded if there is other navigation; it stays Ready otherwise. */
  lemma FrameStarts(c: Config, t: Trig, s: CoreState, i: Input)
    requires ValidConfig(c) && ExactRoots(t) && PositiveRoots(t) && Sane(c, s) && s.machine.state == Ready
    requires i.frame.Some? && !i.manualStop
    requires Process(c.ekf, t, s.filter, i.frame.value, i.dt, i.now).1 == Committed
    ensures E.Shaped(Sensed(c, t, s, i).0)
    ensures var (s', out) := Step(c, t, s, i);
            && s'.machine.hostSeen && s'.machine.lastValidInput == i.now
            && s'.machine.state == (if out.mode == Unavailable || !s.controller.routeValid then Ready
                                    else if out.mode == GnssAided || out.mode == LandmarkAided then Running
                                    else Degraded)
  {
    K.StepKeeps(c, t, s, i);
    CommitsAreWhole(c.ekf, t, s.filter, i.frame.value, i.dt, i.now);
    var (f, m) := Sensed(c, t, s, i);
    TickStarts(c.runtime, s.machine, i.now, InputsFor(c, f, s.controller, i.now));
  }

  lemma TickStarts(c: R.Config, m: R.Machine, now: u32, i: R.Inputs)
    requires m.state == Ready
    ensures var s := R.TickMachine(c, R.Heard(m, now), now, i);
            && s.hostSeen && s.lastValidInput == now
            && s.state == (if !i.healthy || i.mode == Unavailable || !i.ready then Ready
                           else if i.mode == GnssAided || i.mode == LandmarkAided then Running
                           else Degraded)
  {
  }
}
