/** EmbeddedControllerCore of src/runtime.cpp: copy-then-commit estimation, the safety state machine and
    control in one atomic step. */
module Core {
  import C = Control
  import E = Ekf
  import G = Guidance
  import R = Runtime
  import opened EstimatorRuns
  import opened LinearAlgebra
  import opened Modes
  import opened Reals
  import opened Words

  const MAXIMUM_LANDMARKS: nat := 4

  /** Whether a frame came through its checks, or how it failed them. */
  datatype Disposition = Clean | Invalid | Corrupt | Stale | Duplicate | OutOfOrder | Oversized

  datatype Fix = Fix(x: real, y: real)

  /** One sensor frame; the samples are stamped with the time of receipt when they are used. */
  datatype Frame = Frame(disposition: Disposition, imu: Option<E.Imu>, wheel: Option<real>, gnss: Option<Fix>,
                         landmarks: seq<E.Landmark>)

  datatype Outcome = Committed | RejectedInput | NumericalFault

  function Failed(r: E.UpdateResult): bool {
    r == E.InvalidMeasurement || r == E.NumericalFailure
  }

  predicate AllUsable(results: seq<E.UpdateResult>) {
    forall i :: 0 <= i < |results| ==> !Failed(results[i])
  }

  lemma UsableMeans(results: seq<E.UpdateResult>)
    ensures AllUsable(results) <==> E.NumericalFailure !in results && E.InvalidMeasurement !in results
  {
    if E.NumericalFailure in results {
      var i :| 0 <= i < |results| && results[i] == E.NumericalFailure;
      assert Failed(results[i]);
    }
    if E.InvalidMeasurement in results {
      var i :| 0 <= i < |results| && results[i] == E.InvalidMeasurement;
      assert Failed(results[i]);
    }
  }

  /** The updates a frame asks for, in order. */
  function Calls(frame: Frame, dt: real, now: u32): seq<Call> {
    Odometry(frame, dt, now) + Fixes(frame, now) + Sightings(frame.landmarks, now)
  }

  function Odometry(frame: Frame, dt: real, now: u32): seq<Call> {
    (if frame.imu.Some? then [CallPredict(frame.imu.value.(at := now), dt)] else [])
    + (if frame.wheel.Some? then [CallWheel(frame.wheel.value, now)] else [])
  }

  function Fixes(frame: Frame, now: u32): seq<Call> {
    if frame.gnss.Some? then [CallGnss(frame.gnss.value.x, frame.gnss.value.y, now)] else []
  }

  function Sightings(landmarks: seq<E.Landmark>, now: u32): (s: seq<Call>)
    ensures |s| == |landmarks|
    ensures forall i :: 0 <= i < |landmarks| ==> s[i] == CallLandmark(landmarks[i].(at := now))
  {
    seq(|landmarks|, i requires 0 <= i < |landmarks| => CallLandmark(landmarks[i].(at := now)))
  }

  /** Every update is tried, whatever the ones before it did: the results, and where the filter ends up. */
  function Updates(c: E.Config, t: Trig, f: E.Filter, calls: seq<Call>): (r: (E.Filter, seq<E.UpdateResult>))
    requires E.ValidConfig(c) && E.Shaped(f) && PositiveRoots(t)
    ensures |r.1| == |calls|
    decreases |calls|
  {
    if calls == [] then (f, [])
    else
      var (f1, result) := Apply(c, t, f, calls[0]);
      var (f2, results) := Updates(c, t, f1, calls[1..]);
      (f2, [result] + results)
  }

  function InitialState(frame: Frame): Vec
    requires frame.gnss.Some?
  {
    [frame.gnss.value.x, frame.gnss.value.y, 0.0, if frame.wheel.Some? then frame.wheel.value else 0.0,
     if frame.imu.Some? then frame.imu.value.yawRate else 0.0, 0.0]
  }

  /** The copy the updates run on: the first position fix initializes it. */
  function Candidate(c: E.Config, f: E.Filter, frame: Frame): (E.Filter, bool)
    requires E.Shaped(f)
  {
    if !f.initialized && frame.gnss.Some? then E.Initialize(c, f, InitialState(frame), c.initialVariance) else (f, true)
  }

  /** process_sensor_frame on the estimator. */
  function Process(c: E.Config, t: Trig, f: E.Filter, frame: Frame, dt: real, now: u32): (E.Filter, Outcome)
    requires E.ValidConfig(c) && E.Shaped(f) && PositiveRoots(t)
  {
    if frame.disposition != Clean || |frame.landmarks| > MAXIMUM_LANDMARKS then (f, RejectedInput)
    else
      var (candidate, ok) := Candidate(c, f, frame);
      if !ok then (f, RejectedInput)
      else
        Verdict(f, Updates(c, t, candidate, Calls(frame, dt, now)))
  }

  /** The copy replaces the estimator only if none of its updates failed. */
  function Verdict(f: E.Filter, run: (E.Filter, seq<E.UpdateResult>)): (E.Filter, Outcome) {
    if E.NumericalFailure in run.1 then (f, NumericalFault)
    else if E.InvalidMeasurement in run.1 then (f, RejectedInput)
    else (run.0, Committed)
  }

  /** A committed estimator: sound, and never initialized without being healthy. */
  ghost predicate Fit(c: E.Config, f: E.Filter) {
    E.Sound(c, f) && (f.initialized <==> f.healthy)
  }

  lemma {:induction false} UpdatesStayFit(c: E.Config, t: Trig, f: E.Filter, calls: seq<Call>)
    requires E.ValidConfig(c) && PositiveRoots(t) && Fit(c, f)
    requires AllUsable(Updates(c, t, f, calls).1)
    requires forall k :: 0 <= k < |calls| ==> !calls[k].CallInitialize?
    ensures Fit(c, Updates(c, t, f, calls).0) && (f.initialized ==> Updates(c, t, f, calls).0.initialized)
    decreases |calls|
  {
    if calls != [] {
      var (f1, result) := Apply(c, t, f, calls[0]);
      var rest := Updates(c, t, f1, calls[1..]).1;
      var results := Updates(c, t, f, calls).1;
      assert results == [result] + rest;
      assert !Failed(results[0]);
      ApplyKeeps(c, t, f, calls[0]);
      forall i | 0 <= i < |rest| ensures !Failed(rest[i]) {
        assert rest[i] == results[i + 1];
      }
      UpdatesStayFit(c, t, f1, calls[1..]);
    }
  }

  lemma CallsAreUpdates(frame: Frame, dt: real, now: u32)
    ensures forall k :: 0 <= k < |Calls(frame, dt, now)| ==> !Calls(frame, dt, now)[k].CallInitialize?
  {
  }

  lemma VerdictIsWhole(c: E.Config, t: Trig, f: E.Filter, candidate: E.Filter, calls: seq<Call>)
    requires E.ValidConfig(c) && PositiveRoots(t) && Fit(c, f) && Fit(c, candidate)
    requires forall k :: 0 <= k < |calls| ==> !calls[k].CallInitialize?
    ensures var run := Updates(c, t, candidate, calls);
            var (f', outcome) := Verdict(f, run);
            && Fit(c, f') && (f' == f || (candidate.initialized ==> f'.initialized))
            && (outcome == Committed <==> AllUsable(run.1)) && f' == (if outcome == Committed then run.0 else f)
            && (outcome == NumericalFault <==> E.NumericalFailure in run.1)
  {
    var run := Updates(c, t, candidate, calls);
    UsableMeans(run.1);
    if AllUsable(run.1) {
      UpdatesStayFit(c, t, candidate, calls);
    }
  }

  /** Main result on commits: a frame takes effect as a whole or not at all. It is committed exactly if the
      first fix, when one is needed, initializes and no update in it is invalid or fails numerically; else
      the estimator is untouched. A committed estimator is always sound and healthy once initialized. */
  lemma CommitsAreWhole(c: E.Config, t: Trig, f: E.Filter, frame: Frame, dt: real, now: u32)
    requires E.ValidConfig(c) && PositiveRoots(t) && Fit(c, f)
    ensures var (f', outcome) := Process(c, t, f, frame, dt, now);
            && Fit(c, f') && (f.initialized ==> f'.initialized)
            && (outcome == Committed <==>
                  frame.disposition == Clean && |frame.landmarks| <= MAXIMUM_LANDMARKS && Candidate(c, f, frame).1 &&
                  AllUsable(Updates(c, t, Candidate(c, f, frame).0, Calls(frame, dt, now)).1))
            && f' == (if outcome == Committed then Updates(c, t, Candidate(c, f, frame).0, Calls(frame, dt, now)).0
                      else f)
  {
    var (candidate, ok) := Candidate(c, f, frame);
    if !f.initialized && frame.gnss.Some? {
      InitializeFit(c, f, InitialState(frame));
    }
    CallsAreUpdates(frame, dt, now);
    VerdictIsWhole(c, t, f, candidate, Calls(frame, dt, now));
  }

  lemma InitializeFit(c: E.Config, f: E.Filter, x: Vec)
    requires E.ValidConfig(c) && Fit(c, f)
    ensures var (f', ok) := E.Initialize(c, f, x, c.initialVariance); Fit(c, f') && (f.initialized ==> f'.initialized)
  {
    E.InitializeSound(c, f, x, c.initialVariance);
  }

  // ------------------------------------------------------- the atomic step

  datatype Config = Config(ekf: E.Config, control: G.Config, runtime: R.Config)

  predicate ValidConfig(c: Config) {
    E.ValidConfig(c.ekf) && G.ValidConfig(c.control) && R.ValidConfig(c.runtime)
  }

  datatype CoreState = CoreState(filter: E.Filter, controller: C.Controller, machine: R.Machine)

  datatype Input = Input(now: u32, dt: real, frame: Option<Frame>, manualStop: bool)

  datatype Output = Output(estimate: Vec, command: C.Command, mode: NavigationMode, safety: SafetyState, healthy: bool)

  /** What the core keeps on every run since begin. */
  ghost predicate Sane(c: Config, s: CoreState) {
    Fit(c.ekf, s.filter) && C.Sane(c.control, s.controller) && (Moving(s.machine.state) ==> s.filter.initialized)
  }

  /** The estimator and the state machine after the stop request and the frame, before the tick. */
  function Sensed(c: Config, t: Trig, s: CoreState, i: Input): (E.Filter, R.Machine)
    requires ValidConfig(c) && E.Shaped(s.filter) && PositiveRoots(t)
  {
    var m := if i.manualStop then R.Stopping(s.machine) else s.machine;
    if i.frame.None? then (s.filter, m)
    else
      var (f, outcome) := Process(c.ekf, t, s.filter, i.frame.value, i.dt, i.now);
      (f, After(m, outcome, i.now))
  }

  /** The registers after a frame with this outcome. */
  function After(m: R.Machine, outcome: Outcome, now: u32): R.Machine {
    match outcome
    case Committed => R.Heard(m, now)
    case RejectedInput => m
    case NumericalFault => m.(state := Fault)
  }

  function PoseOf(x: Vec): G.Pose
    requires |x| == E.N
  {
    G.Pose(G.Point(x[0], x[1]), x[2], x[3])
  }

  function InputsFor(c: Config, f: E.Filter, s: C.Controller, now: u32): R.Inputs {
    R.Inputs(NavigationModeOf(c.ekf, f.initialized && f.healthy, f.seen, now), f.healthy, s.routeValid)
  }

  /** The command a decision allows. */
  function CommandFor(c: Config, t: Trig, s: C.Controller, p: G.Pose, dt: real,
                      d: R.Decision): (C.Command, C.Controller)
    requires ValidConfig(c) && (s.routeValid ==> s.tracker.active < |s.route|)
  {
    if d.forceSafeStop then (C.SafeStopCommand(c.control, p.speed), s)
    else if d.permitControl then C.ControlStep(t, c.control, s, p, dt, false)
    else (C.NEUTRAL, s)
  }

  /** The tick and the command, for an estimator and registers as the frame left them. */
  function Decided(c: Config, t: Trig, f: E.Filter, s: C.Controller, m: R.Machine, now: u32,
                   dt: real): (CoreState, Output)
    requires ValidConfig(c) && E.Shaped(f) && (s.routeValid ==> s.tracker.active < |s.route|)
  {
    var inputs := InputsFor(c, f, s, now);
    var m' := R.TickMachine(c.runtime, m, now, inputs);
    var (command, s') := CommandFor(c, t, s, PoseOf(f.state), dt, R.DecisionFor(m'.state, inputs));
    (CoreState(f, s', m'), Output(f.state, command, inputs.mode, m'.state, f.healthy))
  }

  /** EmbeddedControllerCore::step */
  function Step(c: Config, t: Trig, s: CoreState, i: Input): (CoreState, Output)
    requires ValidConfig(c) && E.Shaped(s.filter) && PositiveRoots(t) && E.Shaped(Sensed(c, t, s, i).0)
    requires s.controller.routeValid ==> s.controller.tracker.active < |s.controller.route|
  {
    var (f, m) := Sensed(c, t, s, i);
    Decided(c, t, f, s.controller, m, i.now, i.dt)
  }

  predicate FrameFaults(c: Config, t: Trig, f: E.Filter, i: Input)
    requires ValidConfig(c) && E.Shaped(f) && PositiveRoots(t)
  {
    i.frame.Some? && Process(c.ekf, t, f, i.frame.value, i.dt, i.now).1 == NumericalFault
  }

  lemma AfterRank(m: R.Machine, outcome: Outcome, now: u32)
    ensures var a := After(m, outcome, now).state;
            Rank(a) >= Rank(m.state) && (Moving(a) ==> Moving(m.state)) &&
            (a == Fault ==> m.state == Fault || outcome == NumericalFault)
  {
  }

  lemma SensedSane(c: Config, t: Trig, s: CoreState, i: Input)
    requires ValidConfig(c) && PositiveRoots(t) && Sane(c, s)
    ensures var (f, m) := Sensed(c, t, s, i);
            && Fit(c.ekf, f) && (s.filter.initialized ==> f.initialized) && (Moving(m.state) ==> f.initialized)
            && Rank(m.state) >= Rank(s.machine.state) && (i.manualStop ==> Latched(m.state))
            && (m.state == Fault ==> s.machine.state == Fault || FrameFaults(c, t, s.filter, i))
  {
    if i.frame.Some? {
      CommitsAreWhole(c.ekf, t, s.filter, i.frame.value, i.dt, i.now);
      AfterRank(if i.manualStop then R.Stopping(s.machine) else s.machine,
                Process(c.ekf, t, s.filter, i.frame.value, i.dt, i.now).1, i.now);
    }
  }

  lemma DecidedSane(c: Config, t: Trig, f: E.Filter, s: C.Controller, m: R.Machine, now: u32, dt: real)
    requires ValidConfig(c) && ExactRoots(t) && Fit(c.ekf, f) && C.Sane(c.control, s) &&
             (Moving(m.state) ==> f.initialized)
    ensures var (s', out) := Decided(c, t, f, s, m, now, dt);
            && Sane(c, s') && out.safety == s'.machine.state && Rank(s'.machine.state) >= Rank(m.state)
            && (Latched(m.state) ==> s'.machine.state == m.state) && (s'.machine.state == Fault ==> m.state == Fault)
            && (Latched(out.safety) ==> out.command == C.SafeStopCommand(c.control, f.state[3]))
            && (!Latched(out.safety) ==> !out.command.safeStop)
            && (out.command.valid && !out.command.safeStop ==>
                  Moving(out.safety) && out.healthy && out.mode != Unavailable && s.routeValid && f.initialized)
  {
    C.ControlKeeps(t, c.control, s, PoseOf(f.state), dt, false);
  }

  /** Main result on the core, for any input on any run since begin: Running and Degraded mean an
      initialized, healthy estimator, so the unhealthy branch of the tick never fires and a step enters
      Fault only on a numerically failed frame; a stop or fault stays, and then the command is always the
      safe stop; only a moving vehicle with navigation and a route gets a tracking command. */
  lemma StepKeeps(c: Config, t: Trig, s: CoreState, i: Input)
    requires ValidConfig(c) && ExactRoots(t) && PositiveRoots(t) && Sane(c, s)
    ensures E.Shaped(Sensed(c, t, s, i).0)
    ensures var (s', out) := Step(c, t, s, i);
            && Sane(c, s') && out.safety == s'.machine.state && (Moving(out.safety) ==> s'.filter.healthy)
            && Rank(s'.machine.state) >= Rank(s.machine.state) && (i.manualStop ==> Latched(s'.machine.state))
            && (s'.machine.state == Fault ==> s.machine.state == Fault || FrameFaults(c, t, s.filter, i))
            && (Latched(out.safety) ==> out.command == C.SafeStopCommand(c.control, s'.filter.state[3]))
            && (out.command.valid && !out.command.safeStop ==>
                  Moving(out.safety) && out.healthy && out.mode != Unavailable && s.controller.routeValid)
  {
    SensedSane(c, t, s, i);
    var (f, m) := Sensed(c, t, s, i);
    DecidedSane(c, t, f, s.controller, m, i.now, i.dt);
  }
}
