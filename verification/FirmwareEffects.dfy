/** What the packets and ticks of src/firmware_session.cpp do to the controller core of src/runtime.cpp: frames reach
    the estimator, routes the controller, and heartbeats the watchdog. */
module FirmwareEffects {
  import C = Control
  import G = Guidance
  import K = Core
  import M = Runtime
  import R = Route
  import S = SessionSteps
  import Assembly
  import Intake
  import Packets
  import Sequence
  import Session
  import SessionFrames
  import SessionRoutes
  import SessionRuns
  import Transmit
  import opened Modes
  import opened Reals
  import opened SessionCore
  import opened Words

  type Firmware = S.Station<K.CoreState>

  // ------------------------------------------------------- frames

  /** A step leaves in the estimator what the frame makes of it, and nothing else. */
  lemma StepFilters(c: K.Config, t: Trig, s: K.CoreState, i: K.Input)
    requires K.ValidConfig(c) && ExactRoots(t) && PositiveRoots(t) && K.Sane(c, s)
    ensures var f := Advance(c, t, s, i).0.filter;
            f == if i.frame.None? then s.filter else K.Process(c.ekf, t, s.filter, i.frame.value, i.dt, i.now).0
    ensures K.Sane(c, Advance(c, t, s, i).0)
  {
    K.StepKeeps(c, t, s, i);
  }

  /** Main result on frames: a due tick leaves in the estimator exactly what the oldest waiting frame makes of it, at
      the time of the tick and with a plausible interval, whatever else the tick does. */
  lemma FrameReachesEstimator(c: K.Config, t: Trig, value: u32 -> real, codecs: Session.Codecs, config: S.Config,
                              s: Firmware, now: u32, step: u32, health: bool, telemetry: bool)
    returns (dt: real)
    requires K.ValidConfig(c) && ExactRoots(t) && PositiveRoots(t) && S.ValidConfig(config) && K.Sane(c, s.voice.core)
    requires |s.voice.packets| <= Transmit.CAPACITY && s.active && now != s.clocks.lastCoreStep && s.waiting != []
    ensures 0.0 < dt <= 0.25
    ensures var x := CoreSetting(c, t, value, codecs, config);
            S.Ticked(x, s, now, step, true, health, telemetry).voice.core.filter
            == K.Process(c.ekf, t, s.voice.core.filter, s.waiting[0].frame, dt, now).0
  {
    var x := CoreSetting(c, t, value, codecs, config);
    var i := SessionFrames.FrameReachesCore(x, s, now, step, health, telemetry);
    dt := i.dt;
    StepFilters(c, t, s.voice.core, i);
    var core := Advance(c, t, s.voice.core, i).0;
    AgainKeeps(c, t, core, K.Input(now, config.nominalDt, None, false));
  }

  /** The step after a lost backlog leaves the estimator alone. */
  lemma AgainKeeps(c: K.Config, t: Trig, s: K.CoreState, i: K.Input)
    requires K.ValidConfig(c) && ExactRoots(t) && PositiveRoots(t) && K.Sane(c, s) && i.frame.None?
    ensures Advance(c, t, s.(machine := M.Stopping(s.machine)), i).0.filter == s.filter
  {
    StepFilters(c, t, s.(machine := M.Stopping(s.machine)), i);
  }

  // ------------------------------------------------------- routes

  /** The controller's route. */
  function RouteIn(s: K.CoreState): (G.Route, bool) {
    (s.controller.route, s.controller.routeValid)
  }

  /** What an accepted route leaves there. */
  function Loaded(value: u32 -> real): seq<R.Waypoint> -> (G.Route, bool) {
    ws => (RouteOf(value, ws), true)
  }

  lemma StepKeepsRoute(c: K.Config, t: Trig, s: K.CoreState, i: K.Input)
    requires K.ValidConfig(c) && ExactRoots(t) && PositiveRoots(t) && K.Sane(c, s)
    ensures RouteIn(Advance(c, t, s, i).0) == RouteIn(s)
  {
    K.StepKeeps(c, t, s, i);
    var (f, m) := K.Sensed(c, t, s, i);
    C.ControlKeeps(t, c.control, s.controller, K.PoseOf(f.state), i.dt, false);
  }

  lemma CoreCarries(c: K.Config, t: Trig, value: u32 -> real)
    requires K.ValidConfig(c) && ExactRoots(t) && PositiveRoots(t)
    ensures SessionRoutes.Carries(CorePlant(c, t, value), (s: K.CoreState) => K.Sane(c, s), RouteIn,
                                  Loaded(value))
  {
    forall s, i | K.Sane(c, s) ensures RouteIn(Advance(c, t, s, i).0) == RouteIn(s) {
      StepKeepsRoute(c, t, s, i);
    }
    var plant := CorePlant(c, t, value);
    forall s, ws {:trigger plant.route(s, ws)} | K.Sane(c, s)
      ensures RouteIn(plant.route(s, ws)) == if plant.accepts(ws) then Loaded(value)(ws) else RouteIn(s)
    {
      assert plant.route(s, ws) == s.(controller := C.WithRoute(c.control, s.controller, RouteOf(value, ws)).0);
    }
  }

  /** Main result on the controller's route: on every run since reset it is the last route that chunks completed and the
      controller accepted, and there is none before the first. */
  lemma RouteChangesOnActivation(c: K.Config, t: Trig, value: u32 -> real, codecs: Session.Codecs, config: S.Config,
                                 now: u32, inputs: seq<SessionRuns.Input>)
    requires K.ValidConfig(c) && ExactRoots(t) && PositiveRoots(t) && Session.Fitting(codecs) && S.ValidConfig(config)
    ensures var x := CoreSetting(c, t, value, codecs, config);
            RouteIn(SessionRuns.Run(x, S.Begun(x, now), inputs).voice.core)
            == SessionRoutes.LastRoute(x, Loaded(value), S.Begun(x, now), inputs, ([], false))
  {
    var x := CoreSetting(c, t, value, codecs, config);
    var fine := (s: K.CoreState) => K.Sane(c, s);
    CoreIsLawful(c, t, value);
    CoreCarries(c, t, value);
    SessionRuns.BegunSound(x, fine, now);
    assert S.Begun(x, now).voice.core == Begun(now);
    SessionRoutes.RunCarries(x, fine, RouteIn, Loaded(value), S.Begun(x, now), inputs);
  }

  /** The packets carry the chunks of this route under this limit, each counting after the ones before it. */
  ghost predicate CarryRoute(s: Firmware, window: u32, packets: seq<Packets.Packet>, routeId: u16,
                             points: seq<R.Waypoint>, limit: nat)
    requires Assembly.PerChunk(limit) > 0 && |points| < 0x1_0000
  {
    var chunks := Assembly.Chunks(routeId, points, Assembly.PerChunk(limit), false, 0);
    && s.active && SessionRoutes.Newer(s.progress, window, packets) && |packets| == |chunks|
    && forall i :: 0 <= i < |chunks| ==>
         |chunks[i].points| <= R.MAX_POINTS && packets[i].payload == R.ChunkBytes(chunks[i])
  }

  /** Main result on routes: whatever the session holds, the chunk packets of a route the controller accepts leave
      exactly that route in the controller, at its start and with its memory cleared, and nothing else changed in the
      core. */
  lemma RouteReachesController(c: K.Config, t: Trig, value: u32 -> real, codecs: Session.Codecs, config: S.Config,
                               s: Firmware, packets: seq<Packets.Packet>, routeId: u16, points: seq<R.Waypoint>,
                               limit: nat)
    requires K.ValidConfig(c) && PositiveRoots(t) && Session.Fitting(codecs) && |s.trackers| == Intake.SENSORS
    requires Assembly.PerChunk(limit) > 0 && 0 < |points| <= R.MAX_WAYPOINTS && R.AllFinite(points)
    requires G.ValidRoute(c.control, RouteOf(value, points)) && CarryRoute(s, 32, packets, routeId, points, limit)
    ensures var x := CoreSetting(c, t, value, codecs, config);
            var core := S.EventsHandled(x, s, SessionRoutes.Receipts(packets)).voice.core;
            && core.controller.routeValid && |core.controller.route| == |points|
            && (forall i :: 0 <= i < |points| ==>
                  core.controller.route[i] == G.Waypoint(G.Point(value(points[i].x), value(points[i].y)),
                                                         value(points[i].speed), value(points[i].radius)))
            && core.controller.tracker.active == 0 && !core.controller.tracker.latched
            && core.controller.integral == 0.0 && core.controller.steering == 0.0
            && core.filter == s.voice.core.filter && core.machine == s.voice.core.machine
  {
    var x := CoreSetting(c, t, value, codecs, config);
    RoutePackets(x, s, packets, routeId, points, limit);
    RouteTaken(c, t, value, s.voice.core, points);
  }

  lemma RoutePackets(x: S.Setting<K.CoreState>, s: Firmware, packets: seq<Packets.Packet>, routeId: u16,
                     points: seq<R.Waypoint>, limit: nat)
    requires Session.Fitting(x.codecs) && |s.trackers| == Intake.SENSORS
    requires Assembly.PerChunk(limit) > 0 && 0 < |points| <= R.MAX_WAYPOINTS && R.AllFinite(points)
    requires x.plant.accepts(points) && CarryRoute(s, x.window, packets, routeId, points, limit)
    ensures S.EventsHandled(x, s, SessionRoutes.Receipts(packets)).voice
         == s.voice.(core := x.plant.route(s.voice.core, points))
  {
    var chunks := Assembly.Chunks(routeId, points, Assembly.PerChunk(limit), false, 0);
    Assembly.RouteRoundTrip(x.plant.accepts, s.route, routeId, points, limit);
    SessionRoutes.RouteDelivered(x, s, packets, Assembly.PayloadsOf(chunks), points);
  }

  lemma RouteTaken(c: K.Config, t: Trig, value: u32 -> real, s: K.CoreState, points: seq<R.Waypoint>)
    requires K.ValidConfig(c) && PositiveRoots(t) && G.ValidRoute(c.control, RouteOf(value, points))
    ensures var core := CorePlant(c, t, value).route(s, points);
            && core.controller.routeValid && core.controller.route == RouteOf(value, points)
            && core.controller.tracker.active == 0 && !core.controller.tracker.latched
            && core.controller.integral == 0.0 && core.controller.steering == 0.0
            && core.filter == s.filter && core.machine == s.machine
  {
    assert CorePlant(c, t, value).route(s, points)
        == s.(controller := C.WithRoute(c.control, s.controller, RouteOf(value, points)).0);
  }

  /** A route the controller refuses still clears its memory; the route before it and the progress on it stay. */
  lemma RefusedRouteClears(c: K.Config, t: Trig, value: u32 -> real, codecs: Session.Codecs, config: S.Config,
                           s: Firmware, p: Packets.Packet)
    requires K.ValidConfig(c) && PositiveRoots(t) && Session.Fitting(codecs) && |s.trackers| == Intake.SENSORS
    requires s.active && p.messageType == S.ROUTE_CHUNK && Sequence.Judge(s.progress, 32, p.sequence, None).0.accepted
    requires var x := CoreSetting(c, t, value, codecs, config);
             Assembly.Assemble(x.plant.accepts, s.route, p.payload).1.Refused?
    ensures var x := CoreSetting(c, t, value, codecs, config);
            var core := S.PacketHandled(x, s, p).voice.core;
            && core.controller == s.voice.core.controller.(integral := 0.0, steering := 0.0)
            && core.filter == s.voice.core.filter
  {
    var x := CoreSetting(c, t, value, codecs, config);
    var points := Assembly.Assemble(x.plant.accepts, s.route, p.payload).1.route;
    assert !x.plant.accepts(points);
    RouteRefused(c, t, value, s.voice.core, points);
  }

  lemma RouteRefused(c: K.Config, t: Trig, value: u32 -> real, s: K.CoreState, points: seq<R.Waypoint>)
    requires K.ValidConfig(c) && PositiveRoots(t) && !CorePlant(c, t, value).accepts(points)
    ensures CorePlant(c, t, value).route(s, points) == s.(controller := s.controller.(integral := 0.0, steering := 0.0))
  {
    assert CorePlant(c, t, value).accepts(points) == G.ValidRoute(c.control, RouteOf(value, points));
    assert CorePlant(c, t, value).route(s, points)
        == s.(controller := C.WithRoute(c.control, s.controller, RouteOf(value, points)).0);
  }

  // ------------------------------------------------------- the host

  /** The watchdog has just been fed. */
  predicate JustHeard(m: M.Machine, now: u32) {
    m.state == Ready || Moving(m.state) ==> m.hostSeen && m.lastValidInput == now
  }

  /** Main result on the host: an admitted heartbeat and an accepted HELLO feed the watchdog at once, without moving the
      state. */
  lemma HostKeptAlive(c: K.Config, t: Trig, value: u32 -> real, codecs: Session.Codecs, config: S.Config, s: Firmware,
                      p: Packets.Packet)
    requires K.ValidConfig(c) && PositiveRoots(t) && Session.Fitting(codecs) && |s.trackers| == Intake.SENSORS
    requires || (p.messageType == S.HEARTBEAT && s.active && codecs.heartbeat(p.payload) &&
                 Sequence.Judge(s.progress, 32, p.sequence, None).0.accepted)
             || (p.messageType == S.HELLO && Session.HelloAnswer(codecs.hello(p.payload)) == Session.HelloOk)
    ensures var x := CoreSetting(c, t, value, codecs, config);
            var m := S.PacketHandled(x, s, p).voice.core.machine;
            m.state == s.voice.core.machine.state && JustHeard(m, s.clocks.now)
  {
  }
}
