/** The class EmbeddedControllerCore of src/runtime.cpp over its estimator, control system and state machine:
    each method takes the step of the specification. */
module ControllerCore {
  import C = Control
  import E = Ekf
  import G = Guidance
  import K = Core
  import MatrixLoops
  import R = Runtime
  import opened Estimator
  import opened EstimatorRuns
  import opened Modes
  import opened Reals
  import opened Words

  lemma {:induction false} UpdatesAppend(c: E.Config, t: Trig, f: E.Filter, calls: seq<Call>, call: Call)
    requires E.ValidConfig(c) && E.Shaped(f) && PositiveRoots(t)
    ensures var (end, results) := K.Updates(c, t, f, calls);
            E.Shaped(end) &&
            K.Updates(c, t, f, calls + [call]) == (Apply(c, t, end, call).0, results + [Apply(c, t, end, call).1])
    decreases |calls|
  {
    if calls == [] {
      var (f1, result) := Apply(c, t, f, call);
      assert calls + [call] == [call] && [call][1..] == [];
      assert K.Updates(c, t, f1, []) == (f1, []);
      assert [] + [result] == [result] + [];
    } else {
      var (f1, result) := Apply(c, t, f, calls[0]);
      var (end, rest) := K.Updates(c, t, f1, calls[1..]);
      assert (calls + [call])[1..] == calls[1..] + [call];
      UpdatesAppend(c, t, f1, calls[1..], call);
      assert [result] + (rest + [Apply(c, t, end, call).1]) == [result] + rest + [Apply(c, t, end, call).1];
    }
  }

  /** The copy e is where the updates `done` take the filter f, with these results. */
  ghost predicate Reached(e: Ekf6, t: Trig, f: E.Filter, done: seq<Call>, results: seq<E.UpdateResult>)
    reads e, e.state, e.covariance
  {
    e.Valid() && PositiveRoots(t) && E.Shaped(f) && (e.View(), results) == K.Updates(e.config, t, f, done)
  }

  method TryPredict(e: Ekf6, t: Trig, m: E.Imu, dt: real, before: seq<E.UpdateResult>, ghost f: E.Filter,
                    ghost done: seq<Call>)
    returns (results: seq<E.UpdateResult>)
    requires Reached(e, t, f, done, before)
    modifies e, e.state, e.covariance
    ensures e.config == old(e.config) && Reached(e, t, f, done + [CallPredict(m, dt)], results)
  {
    UpdatesAppend(e.config, t, f, done, CallPredict(m, dt));
    var info := e.Predict(t, m, dt);
    results := before + [info.result];
  }

  method TryWheel(e: Ekf6, ghost t: Trig, speed: real, at: u32, before: seq<E.UpdateResult>, ghost f: E.Filter,
                  ghost done: seq<Call>)
    returns (results: seq<E.UpdateResult>)
    requires Reached(e, t, f, done, before)
    modifies e, e.state, e.covariance
    ensures e.config == old(e.config) && Reached(e, t, f, done + [CallWheel(speed, at)], results)
  {
    UpdatesAppend(e.config, t, f, done, CallWheel(speed, at));
    var info := e.UpdateWheel(speed, at);
    results := before + [info.result];
  }

  method TryGnss(e: Ekf6, ghost t: Trig, x: real, y: real, at: u32, before: seq<E.UpdateResult>, ghost f: E.Filter,
                 ghost done: seq<Call>)
    returns (results: seq<E.UpdateResult>)
    requires Reached(e, t, f, done, before)
    modifies e, e.state, e.covariance
    ensures e.config == old(e.config) && Reached(e, t, f, done + [CallGnss(x, y, at)], results)
  {
    UpdatesAppend(e.config, t, f, done, CallGnss(x, y, at));
    var info := e.UpdateGnss(x, y, at);
    results := before + [info.result];
  }

  method TryLandmark(e: Ekf6, t: Trig, m: E.Landmark, before: seq<E.UpdateResult>, ghost f: E.Filter,
                     ghost done: seq<Call>)
    returns (results: seq<E.UpdateResult>)
    requires Reached(e, t, f, done, before)
    modifies e, e.state, e.covariance
    ensures e.config == old(e.config) && Reached(e, t, f, done + [CallLandmark(m)], results)
  {
    UpdatesAppend(e.config, t, f, done, CallLandmark(m));
    var info := e.UpdateLandmark(t, m);
    results := before + [info.result];
  }

  /** The updates of a frame on the copy: what each returned and where the copy ends up. */
  method RunFrame(e: Ekf6, t: Trig, frame: K.Frame, dt: real, now: u32) returns (results: seq<E.UpdateResult>)
    requires e.Valid() && PositiveRoots(t)
    modifies e, e.state, e.covariance
    ensures e.config == old(e.config) && Reached(e, t, old(e.View()), K.Calls(frame, dt, now), results)
  {
    ghost var f := e.View();
    results := RunOdometry(e, t, frame, dt, now);
    results := RunFix(e, t, frame, now, results, f, K.Odometry(frame, dt, now));
    results := RunLandmarks(e, t, frame.landmarks, now, results, f, K.Odometry(frame, dt, now) + K.Fixes(frame, now));
  }

  method RunOdometry(e: Ekf6, t: Trig, frame: K.Frame, dt: real, now: u32) returns (results: seq<E.UpdateResult>)
    requires e.Valid() && PositiveRoots(t)
    modifies e, e.state, e.covariance
    ensures e.config == old(e.config) && Reached(e, t, old(e.View()), K.Odometry(frame, dt, now), results)
  {
    ghost var f, done: seq<Call> := e.View(), [];
    results := [];
    if frame.imu.Some? {
      var m := frame.imu.value.(at := now);
      results := TryPredict(e, t, m, dt, results, f, done);
      done := done + [CallPredict(m, dt)];
    }
    if frame.wheel.Some? {
      results := TryWheel(e, t, frame.wheel.value, now, results, f, done);
      done := done + [CallWheel(frame.wheel.value, now)];
    }
    assert done == K.Odometry(frame, dt, now);
  }

  method RunFix(e: Ekf6, t: Trig, frame: K.Frame, now: u32, before: seq<E.UpdateResult>, ghost f: E.Filter,
                ghost done: seq<Call>)
    returns (results: seq<E.UpdateResult>)
    requires Reached(e, t, f, done, before)
    modifies e, e.state, e.covariance
    ensures e.config == old(e.config) && Reached(e, t, f, done + K.Fixes(frame, now), results)
  {
    results := before;
    if frame.gnss.Some? {
      results := TryGnss(e, t, frame.gnss.value.x, frame.gnss.value.y, now, results, f, done);
    } else {
      assert done + [] == done;
    }
  }

  method RunLandmarks(e: Ekf6, t: Trig, landmarks: seq<E.Landmark>, now: u32, before: seq<E.UpdateResult>,
                      ghost f: E.Filter, ghost done: seq<Call>) returns (results: seq<E.UpdateResult>)
    requires Reached(e, t, f, done, before)
    modifies e, e.state, e.covariance
    ensures e.config == old(e.config) && Reached(e, t, f, done + K.Sightings(landmarks, now), results)
  {
    results := before;
    ghost var all := K.Sightings(landmarks, now);
    assert done + all[..0] == done;
    for i := 0 to |landmarks|
      invariant e.config == old(e.config) && Reached(e, t, f, done + all[..i], results)
    {
      results := TryLandmark(e, t, landmarks[i].(at := now), results, f, done + all[..i]);
      assert done + all[..i] + [all[i]] == done + all[..i + 1];
    }
    assert all[..|landmarks|] == all;
  }

  /** The copy, initialized from the first position fix. */
  method TakeCopy(e: Ekf6, frame: K.Frame) returns (candidate: Ekf6, ok: bool)
    requires e.Valid()
    ensures fresh(candidate) && fresh(candidate.state) && fresh(candidate.covariance)
    ensures candidate.Valid() && candidate.config == e.config
    ensures (candidate.View(), ok) == K.Candidate(e.config, e.View(), frame)
  {
    candidate := new Ekf6.Copy(e);
    ok := true;
    if !candidate.initialized && frame.gnss.Some? {
      var initial := new real[E.N];
      MatrixLoops.FillVector(initial, K.InitialState(frame));
      ok := candidate.Initialize(initial, e.config.initialVariance);
    }
  }

  /** The whole frame on a copy: what becomes of it, and the copy to commit. */
  method TryFrame(e: Ekf6, t: Trig, frame: K.Frame, dt: real, now: u32) returns (candidate: Ekf6, outcome: K.Outcome)
    requires e.Valid() && PositiveRoots(t)
    ensures fresh(candidate) && fresh(candidate.state) && fresh(candidate.covariance)
    ensures candidate.Valid() && candidate.config == e.config
    ensures (if outcome == K.Committed then candidate.View() else e.View(), outcome)
             == K.Process(e.config, t, e.View(), frame, dt, now)
  {
    var ok;
    candidate, ok := TakeCopy(e, frame);
    if frame.disposition != K.Clean || |frame.landmarks| > K.MAXIMUM_LANDMARKS || !ok {
      return candidate, K.RejectedInput;
    }
    var results := RunFrame(candidate, t, frame, dt, now);
    if E.NumericalFailure in results {
      return candidate, K.NumericalFault;
    }
    return candidate, if E.InvalidMeasurement in results then K.RejectedInput else K.Committed;
  }

  /** How the state machine hears of a frame. */
  method Respond(runtime: R.RuntimeCore, outcome: K.Outcome, now: u32, ghost time: int)
    requires runtime.Valid() && now == Wrap(time) && runtime.NotBefore(time)
    modifies runtime
    ensures runtime.Valid() && runtime.NotBefore(time) && runtime.config == old(runtime.config)
    ensures runtime.Registers() == K.After(old(runtime.Registers()), outcome, now)
  {
    match outcome
    case RejectedInput => runtime.RecordRejectedInput();
    case NumericalFault => runtime.ReportNumericalFault();
    case Committed => runtime.AcceptInput(now, time);
  }

  class EmbeddedControllerCore {
    const config: K.Config
    var estimator: Ekf6
    const controller: C.ControlSystem
    const runtime: R.RuntimeCore

    ghost predicate Linked()
      reads this, estimator, estimator.state, estimator.covariance, controller, controller.route,
            controller.route.waypoints, controller.speed, runtime
    {
      && K.ValidConfig(config) && estimator.Valid() && controller.Valid() && runtime.Valid()
      && estimator.config == config.ekf && controller.config == config.control && runtime.config == config.runtime
    }

    ghost function View(): K.CoreState
      requires Linked()
      reads this, estimator, estimator.state, estimator.covariance, controller, controller.route,
            controller.route.waypoints, controller.speed, runtime
    {
      K.CoreState(estimator.View(), controller.View(), runtime.Registers())
    }

    ghost predicate Valid()
      reads this, estimator, estimator.state, estimator.covariance, controller, controller.route,
            controller.route.waypoints, controller.speed, runtime
    {
      Linked() && K.Sane(config, View())
    }

    constructor (c: K.Config)
      requires K.ValidConfig(c) && c.runtime == R.Config(500, 250, 1)
      ensures Valid() && config == c && View().machine.state == Startup && !View().filter.initialized
    {
      config := c;
      estimator := new Ekf6(c.ekf);
      controller := new C.ControlSystem(c.control);
      runtime := new R.RuntimeCore();
    }

    /** process_sensor_frame: the updates run on a copy, which replaces the estimator only as a whole. */
    method ProcessSensorFrame(t: Trig, frame: K.Frame, dt: real, now: u32, ghost time: int) returns (outcome: K.Outcome)
      requires Linked() && PositiveRoots(t) && now == Wrap(time) && runtime.NotBefore(time)
      modifies this`estimator, runtime
      ensures Linked() && runtime.NotBefore(time)
      ensures (estimator.View(), outcome) == K.Process(config.ekf, t, old(estimator.View()), frame, dt, now)
      ensures outcome != K.Committed ==> estimator == old(estimator)
      ensures runtime.Registers() == K.After(old(runtime.Registers()), outcome, now)
    {
      var candidate;
      candidate, outcome := TryFrame(estimator, t, frame, dt, now);
      Respond(runtime, outcome, now, time);
      if outcome == K.Committed {
        estimator := candidate;
      }
    }

    /** make_output: the command. */
    method MakeCommand(t: Trig, dt: real, d: R.Decision) returns (command: C.Command)
      requires Linked() && ExactRoots(t)
      modifies controller`previousSteering, controller.speed`integral, controller.route`active, controller.route`latched
      ensures Linked()
      ensures (command, controller.View())
           == K.CommandFor(config, t, old(controller.View()), K.PoseOf(old(estimator.state[..])), dt, d)
    {
      var p := K.PoseOf(estimator.state[..]);
      if d.forceSafeStop {
        command := C.SafeStopCommand(config.control, p.speed);
      } else if d.permitControl {
        command := controller.Step(t, p, dt, false);
      } else {
        command := C.NEUTRAL;
      }
    }

    /** The stop request and the frame. */
    method Sense(t: Trig, i: K.Input, ghost time: int)
      requires Linked() && PositiveRoots(t) && i.now == Wrap(time) && runtime.NotBefore(time)
      modifies this`estimator, runtime
      ensures Linked() && runtime.NotBefore(time)
      ensures (estimator.View(), runtime.Registers()) == K.Sensed(config, t, old(View()), i)
    {
      if i.manualStop {
        runtime.RequestSafeStop();
      }
      if i.frame.Some? {
        var _ := ProcessSensorFrame(t, i.frame.value, i.dt, i.now, time);
      }
    }

    /** The tick and the command. */
    method Decide(t: Trig, now: u32, dt: real, ghost time: int) returns (out: K.Output)
      requires Linked() && ExactRoots(t) && now == Wrap(time) && runtime.NotBefore(time)
      modifies runtime, controller`previousSteering, controller.speed`integral, controller.route`active,
               controller.route`latched
      ensures Linked() && estimator.View() == old(estimator.View())
      ensures (View(), out) == K.Decided(config, t, old(estimator.View()), old(controller.View()),
                                         old(runtime.Registers()), now, dt)
    {
      var mode := NavigationModeOf(config.ekf, estimator.initialized && estimator.healthy, estimator.seen, now);
      var inputs := R.Inputs(mode, estimator.healthy, controller.route.routeValid);
      var d := runtime.Tick(now, time, inputs);
      var command := MakeCommand(t, dt, d);
      out := K.Output(estimator.state[..], command, mode, runtime.state, estimator.healthy);
    }

    /** step: one atomic advance, exactly the step of the specification. */
    method Step(t: Trig, i: K.Input, ghost time: int) returns (out: K.Output)
      requires Valid() && ExactRoots(t) && PositiveRoots(t) && i.now == Wrap(time) && runtime.NotBefore(time)
      modifies this`estimator, runtime, controller`previousSteering, controller.speed`integral, controller.route`active,
               controller.route`latched
      ensures Valid() && E.Shaped(K.Sensed(config, t, old(View()), i).0)
      ensures (View(), out) == K.Step(config, t, old(View()), i)
    {
      K.StepKeeps(config, t, View(), i);
      Sense(t, i, time);
      out := Decide(t, i.now, i.dt, time);
    }

    method SetRoute(points: G.Route) returns (ok: bool)
      requires Valid()
      modifies controller`previousSteering, controller.speed`integral, controller.route`count, controller.route`active,
               controller.route`routeValid, controller.route`latched, controller.route.waypoints
      ensures Valid() && estimator.View() == old(estimator.View()) && runtime.Registers() == old(runtime.Registers())
      ensures (controller.View(), ok) == C.WithRoute(config.control, old(controller.View()), points)
    {
      ok := controller.SetRoute(points);
    }

    method Begin(now: u32, ghost time: int)
      requires Valid() && now == Wrap(time)
      modifies estimator, estimator.state, estimator.covariance, runtime, controller`previousSteering,
               controller.speed`integral, controller.route`active, controller.route`latched
      ensures Valid() && View().filter == E.Blank() && View().controller == C.Restarted(old(controller.View()))
      ensures runtime.state == Startup && runtime.account == R.Account(time, time, None, true, true)
    {
      estimator.Reset();
      controller.Reset();
      runtime.Begin(now, time);
    }

    method StartSelfTest() returns (ok: bool)
      requires Valid()
      modifies runtime`state, runtime`stateEntered, runtime`stats
      ensures Valid() && ok == (old(runtime.state) == Startup) &&
              runtime.state == if ok then SelfTest else old(runtime.state)
    {
      ok := runtime.StartSelfTest();
    }

    method CompleteSelfTest(passed: bool, now: u32) returns (ok: bool)
      requires Valid()
      modifies runtime`state, runtime`stateEntered, runtime`stats
      ensures Valid() && ok == (old(runtime.state) == SelfTest)
      ensures runtime.state == if !ok then old(runtime.state) else if passed then Ready else Fault
    {
      ok := runtime.CompleteSelfTest(passed, now);
    }

    method NotifyHandshake(now: u32, ghost time: int)
      requires Valid() && now == Wrap(time) && runtime.NotBefore(time)
      modifies runtime`hostSeen, runtime`lastValidInput, runtime`account
      ensures Valid() && runtime.NotBefore(time) && runtime.Registers() == R.Heard(old(runtime.Registers()), now)
    {
      runtime.NotifyHandshake(now, time);
    }
  }
}
