/** FirmwareSession of src/firmware_session.cpp on values: what each packet, each tick and each transmitted frame
    makes of the session. The class in FirmwareSession.dfy takes exactly these steps. */
module SessionSteps {
  import K = Core
  import Assembly
  import Intake
  import Packets
  import Sequence
  import Stream
  import opened Modes
  import opened Session
  import opened Transmit
  import opened Words

  const HELLO: byte := 0x01
  const SENSOR_FRAME: byte := 0x10
  const ROUTE_CHUNK: byte := 0x11
  const HEARTBEAT: byte := 0x23
  const SAFE_STOP: byte := 0x7f

  datatype Config = Config(heartbeatPeriod: u32, healthPeriod: u32, maxLag: u32, nominalDt: real)

  predicate ValidConfig(c: Config) {
    && 0 < c.healthPeriod <= c.heartbeatPeriod && 0 < c.maxLag <= 10000 && 0.0 < c.nominalDt <= 0.25
  }

  /** What a session never changes. */
  datatype Setting<!P> = Setting(config: Config, plant: Plant<P>, codecs: Codecs, window: u32)

  datatype Clocks = Clocks(now: u32, lastStepId: u32, lastSensorFrame: u32, haveSensorTime: bool, lastCoreStep: u32,
                           lastHealth: u32, lastHeartbeat: u32, lastEmitted: SafetyState)

  /** The core and what the session says: everything sent, every input the core was stepped with, the packets
      waiting to be transmitted, and the serial of the next one. */
  datatype Voice<P> = Voice(core: P, history: History, stepped: seq<K.Input>, errors: u32, packets: seq<Packets.Packet>,
                            serial: nat)

  /** The session: its voice, and what it has heard; `kept` are all frames ever queued but those a HELLO discarded. */
  datatype Station<P> = Station(voice: Voice<P>, active: bool, clocks: Clocks, handled: u32,
                                waiting: seq<Intake.Pending>, trackers: seq<Option<u32>>,
                                progress: Sequence.Progress, route: Assembly.State, kept: seq<K.Frame>)

  // ------------------------------------------------------- saying something

  /** record_queue_overflow under the session's threshold of one. */
  function Overflowed<P>(x: Setting<P>, v: Voice<P>): Voice<P> {
    var core := x.plant.overflow(v.core);
    v.(core := core, history := Noted(v.history, x.plant.state(core)))
  }

  /** emit_payload and enqueue: an overflow loses the backlog and stops the core before the message is queued. */
  function Said<P>(x: Setting<P>, v: Voice<P>, m: Message, step: u32): Voice<P> {
    var payload := x.codecs.payload(m);
    if payload.None? then v
    else
      var w := if |v.packets| == CAPACITY then Overflowed(x, v).(packets := []) else v;
      w.(packets := w.packets + [Packets.Packet(TypeOf(m), Wrap(v.serial), step, payload.value)],
         serial := v.serial + 1,
         history := w.history.(sent := w.history.sent + [m]))
  }

  /** emit_error */
  function Erred<P>(x: Setting<P>, v: Voice<P>, step: u32, code: ErrorCode, detail: u16, related: u32): Voice<P> {
    Said(x, v.(errors := Wrap(v.errors + 1)), ErrorReport(code, detail, related), step)
  }

  function SaidAll<P>(x: Setting<P>, v: Voice<P>, ms: seq<Message>, step: u32): Voice<P>
    decreases |ms|
  {
    if ms == [] then v else SaidAll(x, Said(x, v, ms[0], step), ms[1..], step)
  }

  /** One step of the core. */
  function Stepped<P>(x: Setting<P>, v: Voice<P>, i: K.Input): (Voice<P>, K.Output) {
    var (core, out) := x.plant.step(v.core, i);
    (v.(core := core, history := Noted(v.history, x.plant.state(core)), stepped := v.stepped + [i]), out)
  }

  /** reserve_controller_bundle; when the backlog must go, the core stops and computes a new output. */
  function Reserved<P>(x: Setting<P>, v: Voice<P>, now: u32, required: nat, out: K.Output): (Voice<P>, K.Output) {
    if |v.packets| + required <= CAPACITY then (v, out)
    else Stepped(x, Overflowed(x, v).(packets := []), K.Input(now, x.config.nominalDt, None, false))
  }

  predicate HealthDue(c: Config, k: Clocks, out: K.Output, force: bool) {
    force || out.safety != k.lastEmitted || Sub32(k.now, k.lastHealth) >= c.healthPeriod
  }

  predicate HeartbeatDue(c: Config, k: Clocks) {
    Sub32(k.now, k.lastHeartbeat) >= c.heartbeatPeriod
  }

  /** The slots a bundle needs. */
  function Required(health: bool, heartbeat: bool): nat {
    2 + (if health then 1 else 0) + (if heartbeat then 1 else 0)
  }

  function Bundle(out: K.Output, health: bool, heartbeat: bool): seq<Message> {
    [CommandMessage(out), StateEstimate(out.estimate, out.mode, out.healthy)]
    + (if health then [HealthStatus(out.safety, out.mode, out.healthy)] else [])
    + (if heartbeat then [Heartbeat(out.safety)] else [])
  }

  /** emit_controller_output: command, estimate, and when due health and heartbeat; health always goes with a loss. */
  function Controlled<P>(x: Setting<P>, v: Voice<P>, k: Clocks, step: u32, out: K.Output,
                         force: bool): (Voice<P>, Clocks)
  {
    var health, heartbeat := HealthDue(x.config, k, out, force), HeartbeatDue(x.config, k);
    var (w, effective) := Reserved(x, v, k.now, Required(health, heartbeat), out);
    var shown := health || |v.packets| + Required(health, heartbeat) > CAPACITY;
    (SaidAll(x, w, Bundle(effective, shown, heartbeat), step), Reported(k, shown, heartbeat, effective.safety))
  }

  function Reported(k: Clocks, health: bool, heartbeat: bool, safety: SafetyState): Clocks {
    var k' := if health then k.(lastHealth := k.now, lastEmitted := safety) else k;
    if heartbeat then k'.(lastHeartbeat := k.now) else k'
  }

  // ------------------------------------------------------- hearing something

  function ErredAt<P>(x: Setting<P>, s: Station<P>, step: u32, code: ErrorCode, detail: u16, related: u32): Station<P> {
    s.(voice := Erred(x, s.voice, step, code, detail, related))
  }

  /** The kept frames without the n last ones. */
  function Forgotten(kept: seq<K.Frame>, n: nat): seq<K.Frame> {
    if n <= |kept| then kept[..|kept| - n] else []
  }

  /** An accepted HELLO: both queues empty, the numbers from zero, the peer's sequence space and route under way
      forgotten, the host alive. */
  function Opened<P>(x: Setting<P>, s: Station<P>, peerSequence: u32): Station<P> {
    s.(voice := s.voice.(core := x.plant.heard(s.voice.core, s.clocks.now), packets := [], serial := 0),
       active := true, waiting := [], route := Assembly.State(0, 0, []), kept := Forgotten(s.kept, |s.waiting|),
       progress := Sequence.Judge(Sequence.Nothing, x.window, peerSequence, None).1)
  }

  /** handle_hello */
  function HelloHandled<P>(x: Setting<P>, s: Station<P>, p: Packets.Packet): Station<P> {
    var status := HelloAnswer(x.codecs.hello(p.payload));
    var t := if status == HelloOk then Opened(x, s, p.sequence) else s;
    t.(voice := Said(x, t.voice, HelloAck(status), p.step))
  }

  /** A chunk in the assembler, and a complete route in the core. */
  function Collected<P>(x: Setting<P>, s: Station<P>, p: Packets.Packet): Station<P> {
    var (route, o) := Assembly.Assemble(x.plant.accepts, s.route, p.payload);
    var core := if o.Activated? || o.Refused? then x.plant.route(s.voice.core, o.route) else s.voice.core;
    s.(route := route, voice := s.voice.(core := core))
  }

  /** handle_route: every chunk the assembler refuses, and every route the core refuses, is answered with an error. */
  function RouteHandled<P>(x: Setting<P>, s: Station<P>, p: Packets.Packet): Station<P> {
    var o := Assembly.Assemble(x.plant.accepts, s.route, p.payload).1;
    var t := Collected(x, s, p);
    if o.Rejected? then ErredAt(x, t, p.step, RouteRejected, RouteDetail(p.payload), p.sequence)
    else if o.Refused? then ErredAt(x, t, p.step, RouteRejected, 0, p.sequence)
    else t
  }

  /** handle_sensor: a full queue stops the core; no refused frame moves a tracker. */
  function SensorHandled<P>(x: Setting<P>, s: Station<P>, p: Packets.Packet): Station<P>
    requires Fitting(x.codecs) && |s.trackers| == Intake.SENSORS
  {
    var d := x.codecs.sensor(p.payload);
    if d.None? || Intake.Nothing(d.value) then ErredAt(x, s, p.step, BadPayload, 0, p.sequence)
    else if Intake.JudgeFrom(d.value, s.trackers, p.step, x.config.maxLag, 0) != K.Clean then
      ErredAt(x, s, p.step, BadPayload, 0, p.sequence)
    else if |s.waiting| == Intake.CAPACITY then
      ErredAt(x, s.(voice := Overflowed(x, s.voice)), p.step, InternalFault, Intake.CAPACITY, p.sequence)
    else
      s.(waiting := s.waiting + [Intake.Pending(d.value.frame, p.step)],
         trackers := Intake.Moved(s.trackers, d.value.steps), kept := s.kept + [d.value.frame])
  }

  /** A step under a stop request, reported at once. */
  function Halted<P>(x: Setting<P>, v: Voice<P>, k: Clocks, step: u32): (Voice<P>, Clocks) {
    var (w, out) := Stepped(x, v, K.Input(k.now, x.config.nominalDt, None, true));
    Controlled(x, w, k.(lastCoreStep := k.now), step, out, true)
  }

  /** handle_safe_stop: a latching request stops the core at once. */
  function StopHandled<P>(x: Setting<P>, s: Station<P>, p: Packets.Packet): Station<P> {
    if x.codecs.latch(p.payload) == Some(true) then
      var (v, k) := Halted(x, s.voice, s.clocks, p.step);
      s.(voice := v, clocks := k)
    else ErredAt(x, s, p.step, BadPayload, 0, p.sequence)
  }

  /** A heartbeat keeps the host alive. */
  function HeartbeatHandled<P>(x: Setting<P>, s: Station<P>, p: Packets.Packet): Station<P> {
    if x.codecs.heartbeat(p.payload) then s.(voice := s.voice.(core := x.plant.heard(s.voice.core, s.clocks.now)))
    else ErredAt(x, s, p.step, BadPayload, 0, p.sequence)
  }

  function Dispatched<P>(x: Setting<P>, s: Station<P>, p: Packets.Packet): Station<P>
    requires Fitting(x.codecs) && |s.trackers| == Intake.SENSORS
  {
    if p.messageType == ROUTE_CHUNK then RouteHandled(x, s, p)
    else if p.messageType == SENSOR_FRAME then SensorHandled(x, s, p)
    else if p.messageType == SAFE_STOP then StopHandled(x, s, p)
    else if p.messageType == HEARTBEAT then HeartbeatHandled(x, s, p)
    else ErredAt(x, s, p.step, UnsupportedMessage, 0, p.sequence)
  }

  function Counted<P>(s: Station<P>, step: u32): Station<P> {
    s.(handled := Wrap(s.handled + 1), clocks := s.clocks.(lastStepId := step))
  }

  /** Only sensor frames are bound to a step. */
  function StepOf(p: Packets.Packet): Option<u32> {
    if p.messageType == SENSOR_FRAME then Some(p.step) else None
  }

  /** handle_packet: HELLO always, SAFE_STOP even without a session, anything else only inside one and only if its
      sequence number, and for sensor frames its step, is newer. */
  function PacketHandled<P>(x: Setting<P>, s: Station<P>, p: Packets.Packet): Station<P>
    requires Fitting(x.codecs) && |s.trackers| == Intake.SENSORS
  {
    if p.messageType == HELLO then HelloHandled(x, Counted(s, p.step), p)
    else if !s.active && p.messageType != SAFE_STOP then
      ErredAt(x, Counted(s, p.step), p.step, NotReady, p.messageType, p.sequence)
    else
      var (seen, progress) := Sequence.Judge(s.progress, x.window, p.sequence, StepOf(p));
      if !seen.accepted then s else Dispatched(x, Counted(s, p.step).(progress := progress), p)
  }

  /** packet_callback and parser_error_callback */
  function EventHandled<P>(x: Setting<P>, s: Station<P>, e: Stream.Event): (r: Station<P>)
    requires Fitting(x.codecs) && |s.trackers| == Intake.SENSORS
    ensures |r.trackers| == Intake.SENSORS
  {
    match e
    case Received(p) => PacketHandled(x, s, p)
    case Rejected(status) => ErredAt(x, s, s.clocks.lastStepId, BadPayload, StatusCode(status), 0)
    case Oversized => ErredAt(x, s, s.clocks.lastStepId, BadPayload, StatusCode(Packets.OversizedFrame), 0)
    case EmptyDelimiter => s
    case Truncated => s
  }

  /** The reports of the parser, in order. */
  function EventsHandled<P>(x: Setting<P>, s: Station<P>, es: seq<Stream.Event>): (r: Station<P>)
    requires Fitting(x.codecs) && |s.trackers| == Intake.SENSORS
    ensures |r.trackers| == Intake.SENSORS
  {
    if es == [] then s else EventHandled(x, EventsHandled(x, s, es[..|es| - 1]), es[|es| - 1])
  }

  // ------------------------------------------------------- a tick

  /** sensor_timestep: the measured interval if plausible, else the nominal one. */
  function SensorInterval(c: Config, k: Clocks): real {
    var elapsed := Sub32(k.now, k.lastSensorFrame);
    if k.haveSensorTime && 0 < elapsed <= 250 then elapsed as real * 0.001 else c.nominalDt
  }

  function IdleInterval(c: Config, k: Clocks): real {
    var elapsed := Sub32(k.now, k.lastCoreStep);
    if elapsed <= 250 then elapsed as real * 0.001 else c.nominalDt
  }

  /** The input of a control release: the oldest waiting frame, if there is one. */
  function NextInput(c: Config, k: Clocks, waiting: seq<Intake.Pending>): K.Input {
    if waiting == [] then K.Input(k.now, IdleInterval(c, k), None, false)
    else K.Input(k.now, SensorInterval(c, k), Some(waiting[0].frame), false)
  }

  /** The clocks after a control release. */
  function StepClocks(k: Clocks, framed: bool): Clocks {
    (if framed then k.(lastSensorFrame := k.now, haveSensorTime := true) else k).(lastCoreStep := k.now)
  }

  /** A tick is due to step the core: a control release at a new millisecond. */
  predicate Steps<P>(s: Station<P>, now: u32, control: bool) {
    s.active && control && now != s.clocks.lastCoreStep
  }

  /** A step that is reported. */
  predicate Shows(c: Config, k: Clocks, framed: bool, health: bool, telemetry: bool, out: K.Output) {
    framed || health || telemetry || out.safety != k.lastEmitted || HeartbeatDue(c, k)
  }

  /** The step of a control release, and the bundle if it is reported. */
  function Advanced<P>(x: Setting<P>, v: Voice<P>, k: Clocks, i: K.Input, step: u32, framed: bool, health: bool,
                       telemetry: bool): (Voice<P>, Clocks)
  {
    var (w, out) := Stepped(x, v, i);
    if Shows(x.config, k, framed, health, telemetry, out) then Controlled(x, w, k, step, out, health) else (w, k)
  }

  /** What a due control release does. */
  function Released<P>(x: Setting<P>, s: Station<P>, step: u32, health: bool, telemetry: bool): Station<P> {
    var framed := s.waiting != [];
    var (v, k) := Advanced(x, s.voice, StepClocks(s.clocks, framed), NextInput(x.config, s.clocks, s.waiting),
                           if framed then s.waiting[0].packetStep else step, framed, health, telemetry);
    s.(voice := v, clocks := k, waiting := if framed then s.waiting[1..] else [])
  }

  function Clocked<P>(s: Station<P>, now: u32, step: u32): Station<P> {
    s.(clocks := s.clocks.(now := now, lastStepId := step))
  }

  /** tick: nothing happens before the first accepted HELLO, or without a control release at a new millisecond. */
  function Ticked<P>(x: Setting<P>, s: Station<P>, now: u32, step: u32, control: bool, health: bool,
                     telemetry: bool): Station<P>
  {
    if Steps(s, now, control) then Released(x, Clocked(s, now, step), step, health, telemetry)
    else Clocked(s, now, step)
  }

  /** feed: whatever bytes arrive, each report of the parser is handled in order. */
  function Fed<P>(x: Setting<P>, s: Station<P>, now: u32, es: seq<Stream.Event>): (r: Station<P>)
    requires Fitting(x.codecs) && |s.trackers| == Intake.SENSORS
    ensures |r.trackers| == Intake.SENSORS
  {
    EventsHandled(x, s.(clocks := s.clocks.(now := now)), es)
  }

  /** pop_frame, when it succeeds. */
  function Popped<P>(s: Station<P>): Station<P>
    requires s.voice.packets != []
  {
    s.(voice := s.voice.(packets := s.voice.packets[1..]))
  }

  /** reset */
  function Begun<P>(x: Setting<P>, now: u32): Station<P> {
    Station(Voice(x.plant.begin(now), History([], None), [], 0, [], 0), false,
            Clocks(now, 0, now, false, now, now, now, Startup),
            0, [], seq(Intake.SENSORS, _ => None), Sequence.Nothing, Assembly.State(0, 0, []), [])
  }
}
