/** The controller core of src/runtime.cpp, as the session of src/firmware_session.cpp drives it, obeys the laws
    the session relies on. */
module SessionCore {
  import C = Control
  import E = Ekf
  import G = Guidance
  import K = Core
  import M = Runtime
  import R = Route
  import Intake
  import S = SessionSteps
  import Session
  import SessionRuns
  import Transmit
  import opened Modes
  import opened Reals
  import opened Words

  /** A wire waypoint, given what its words mean. */
  function Meaning(value: u32 -> real, w: R.Waypoint): G.Waypoint {
    G.Waypoint(G.Point(value(w.x), value(w.y)), value(w.speed), value(w.radius))
  }

  function RouteOf(value: u32 -> real, ws: seq<R.Waypoint>): (r: G.Route)
    ensures |r| == |ws|
  {
    seq(|ws|, i requires 0 <= i < |ws| => Meaning(value, ws[i]))
  }

  /** begin and the self test, as reset runs them. */
  function Begun(now: u32): K.CoreState {
    K.CoreState(E.Blank(), C.IDLE, M.Machine(Ready, false, now, false, now))
  }

  predicate Steppable(c: K.Config, t: Trig, s: K.CoreState, i: K.Input)
    requires K.ValidConfig(c) && PositiveRoots(t)
  {
    && E.Shaped(s.filter) && (s.controller.routeValid ==> s.controller.tracker.active < |s.controller.route|)
    && E.Shaped(K.Sensed(c, t, s, i).0)
  }

  function Advance(c: K.Config, t: Trig, s: K.CoreState, i: K.Input): (K.CoreState, K.Output)
    requires K.ValidConfig(c) && PositiveRoots(t)
  {
    if Steppable(c, t, s, i) then K.Step(c, t, s, i)
    else (s, K.Output([], C.NEUTRAL, Unavailable, s.machine.state, false))
  }

  function CorePlant(c: K.Config, t: Trig, value: u32 -> real): Session.Plant<K.CoreState>
    requires K.ValidConfig(c) && PositiveRoots(t)
  {
    Session.Plant(
      Begun,
      (s: K.CoreState) => s.machine.state,
      (s: K.CoreState, i: K.Input) => Advance(c, t, s, i),
      (s: K.CoreState, now: u32) => s.(machine := M.Heard(s.machine, now)),
      (s: K.CoreState) => s.(machine := M.Stopping(s.machine)),
      ws => G.ValidRoute(c.control, RouteOf(value, ws)),
      (s: K.CoreState, ws: seq<R.Waypoint>) =>
        s.(controller := C.WithRoute(c.control, s.controller, RouteOf(value, ws)).0))
  }

  lemma AdvanceLawful(c: K.Config, t: Trig, s: K.CoreState, i: K.Input)
    requires K.ValidConfig(c) && ExactRoots(t) && PositiveRoots(t) && K.Sane(c, s)
    ensures var (s', out) := Advance(c, t, s, i);
            && K.Sane(c, s') && Session.Speaks(s'.machine.state, out)
            && (Latched(s.machine.state) || i.manualStop ==> Latched(s'.machine.state))
  {
    K.StepKeeps(c, t, s, i);
  }

  lemma RouteLawful(c: K.Config, s: K.CoreState, points: G.Route)
    requires K.ValidConfig(c) && K.Sane(c, s)
    ensures K.Sane(c, s.(controller := C.WithRoute(c.control, s.controller, points).0))
  {
  }

  /** Main result: the session's laws hold of the core, with the invariant proved of its every run. */
  lemma CoreIsLawful(c: K.Config, t: Trig, value: u32 -> real)
    requires K.ValidConfig(c) && ExactRoots(t) && PositiveRoots(t)
    ensures Session.Lawful(CorePlant(c, t, value), (s: K.CoreState) => K.Sane(c, s))
  {
    forall s, i | K.Sane(c, s)
      ensures var (s', out) := Advance(c, t, s, i);
              && K.Sane(c, s') && Session.Speaks(s'.machine.state, out)
              && (Latched(s.machine.state) || i.manualStop ==> Latched(s'.machine.state))
    {
      AdvanceLawful(c, t, s, i);
    }
    var plant := CorePlant(c, t, value);
    forall s, ws {:trigger plant.route(s, ws)} | K.Sane(c, s) ensures K.Sane(c, plant.route(s, ws)) {
      RouteLawful(c, s, RouteOf(value, ws));
    }
  }

  /** The smallest codecs: every payload is empty, every sensor frame carries one inertial sample. */
  function PlainCodecs(): Session.Codecs {
    var steps := [Some(0), None, None, None];
    Session.Codecs(_ => Some([]), _ => None,
                   _ => Some(Intake.Sensor(steps, K.Frame(K.Clean, Some(E.Imu(0.0, 0.0, 0)), None, None, []))),
                   _ => Some(true),
                   _ => true)
  }

  lemma CodecsExist()
    ensures Session.Fitting(PlainCodecs())
  {
  }

  /** A session around the controller core. */
  function CoreSetting(c: K.Config, t: Trig, value: u32 -> real, codecs: Session.Codecs,
                       config: S.Config): S.Setting<K.CoreState>
    requires K.ValidConfig(c) && PositiveRoots(t)
  {
    S.Setting(config, CorePlant(c, t, value), codecs, 32)
  }

  /** Main result on the firmware: in a session around the real core, on every run since reset, the estimator stays
      sound, the controller within its limits, and from the first stop on every command sent is a safe stop. */
  lemma FirmwareRunsSafely(c: K.Config, t: Trig, value: u32 -> real, codecs: Session.Codecs, config: S.Config, now: u32,
                           inputs: seq<SessionRuns.Input>)
    requires K.ValidConfig(c) && ExactRoots(t) && PositiveRoots(t) && Session.Fitting(codecs) && S.ValidConfig(config)
    ensures var x := CoreSetting(c, t, value, codecs, config);
            var end := SessionRuns.Run(x, S.Begun(x, now), inputs);
            && K.Sane(c, end.voice.core) && Session.LatchKept(end.voice.core.machine.state, end.voice.history)
            && |end.voice.packets| <= Transmit.CAPACITY && |end.waiting| <= Intake.CAPACITY
  {
    var x := CoreSetting(c, t, value, codecs, config);
    var fine := (s: K.CoreState) => K.Sane(c, s);
    CoreIsLawful(c, t, value);
    SessionRuns.BegunSound(x, fine, now);
    SessionRuns.RunStaysSound(x, fine, S.Begun(x, now), inputs);
  }
}
