/** Whole runs of the session of src/firmware_session.cpp: the safety latch over everything sent, bundles that are
    never torn, what a HELLO forgets, what a repeated packet does, and how often a tick steps the core. */
module SessionRuns {
  import K = Core
  import Assembly
  import Intake
  import Packets
  import Sequence
  import Stream
  import opened Modes
  import opened Session
  import opened SessionSteps
  import opened Transmit
  import opened Words

  ghost predicate Governed<P(!new)>(x: Setting<P>, fine: P -> bool) {
    Lawful(x.plant, fine) && Fitting(x.codecs) && ValidConfig(x.config)
  }

  /** What every step keeps: the core is fine, since it first stopped only safe stops were commanded, and the
      transmit queue keeps to its capacity ... */
  ghost predicate Sound<P(!new)>(x: Setting<P>, fine: P -> bool, v: Voice<P>) {
    fine(v.core) && LatchKept(x.plant.state(v.core), v.history) && |v.packets| <= CAPACITY
  }

  /** ... as does the queue of sensor frames; and the sequence account holds. */
  ghost predicate StationSound<P(!new)>(x: Setting<P>, fine: P -> bool, s: Station<P>) {
    && Sound(x, fine, s.voice) && |s.trackers| == Intake.SENSORS && |s.waiting| <= Intake.CAPACITY
    && Sequence.Plausible(s.progress)
  }

  lemma OnwardTwice(a: History, b: History, c: History)
    requires Onward(a, b) && Onward(b, c)
    ensures Onward(a, c)
  {
  }

  // ------------------------------------------------------- saying something

  lemma OverflowedSound<P(!new)>(x: Setting<P>, fine: P -> bool, v: Voice<P>)
    requires Governed(x, fine) && Sound(x, fine, v)
    ensures Sound(x, fine, Overflowed(x, v)) && Onward(v.history, Overflowed(x, v).history)
    ensures Latched(x.plant.state(Overflowed(x, v).core)) && Overflowed(x, v).history.sent == v.history.sent
  {
    NotedKept(x.plant.state(v.core), x.plant.state(x.plant.overflow(v.core)), v.history);
  }

  /** A command that may be sent by a core in this state. */
  predicate Sayable(state: SafetyState, m: Message) {
    Latched(state) && m.ControlCommand? ==> IsSafeStop(m)
  }

  lemma SaidSound<P(!new)>(x: Setting<P>, fine: P -> bool, v: Voice<P>, m: Message, step: u32)
    requires Governed(x, fine) && Sound(x, fine, v) && Sayable(x.plant.state(v.core), m)
    requires m.ControlCommand? ==> |v.packets| < CAPACITY
    ensures var w := Said(x, v, m, step);
            && Sound(x, fine, w) && Onward(v.history, w.history) && w.stepped == v.stepped
            && (|v.packets| < CAPACITY ==> w.core == v.core)
            && (|v.packets| == CAPACITY && w.core != v.core ==> Latched(x.plant.state(w.core)))
  {
    var w := Said(x, v, m, step);
    if x.codecs.payload(m).Some? {
      OverflowedSound(x, fine, v);
      var u := if |v.packets| == CAPACITY then Overflowed(x, v) else v;
      SentKept(x.plant.state(u.core), u.history, m);
      assert Onward(u.history, w.history);
      OnwardTwice(v.history, u.history, w.history);
    }
  }

  lemma ErredSound<P(!new)>(x: Setting<P>, fine: P -> bool, v: Voice<P>, step: u32, code: ErrorCode, detail: u16,
                            related: u32)
    requires Governed(x, fine) && Sound(x, fine, v)
    ensures var w := Erred(x, v, step, code, detail, related);
            Sound(x, fine, w) && Onward(v.history, w.history) && w.stepped == v.stepped
  {
    SaidSound(x, fine, v.(errors := Wrap(v.errors + 1)), ErrorReport(code, detail, related), step);
  }

  lemma SteppedSound<P(!new)>(x: Setting<P>, fine: P -> bool, v: Voice<P>, i: K.Input)
    requires Governed(x, fine) && Sound(x, fine, v)
    ensures var (w, out) := Stepped(x, v, i);
            && Sound(x, fine, w) && Onward(v.history, w.history) && Speaks(x.plant.state(w.core), out)
            && w.history.sent == v.history.sent && w.packets == v.packets
            && (Latched(x.plant.state(v.core)) || i.manualStop ==> Latched(x.plant.state(w.core)))
  {
    NotedKept(x.plant.state(v.core), x.plant.state(x.plant.step(v.core, i).0), v.history);
  }

  lemma ReservedSound<P(!new)>(x: Setting<P>, fine: P -> bool, v: Voice<P>, now: u32, required: nat, out: K.Output)
    requires Governed(x, fine) && Sound(x, fine, v) && Speaks(x.plant.state(v.core), out) && required <= CAPACITY
    ensures var (w, effective) := Reserved(x, v, now, required, out);
            && Sound(x, fine, w) && Onward(v.history, w.history) && Speaks(x.plant.state(w.core), effective)
            && |w.packets| + required <= CAPACITY && w.history.sent == v.history.sent
            && (Latched(x.plant.state(v.core)) ==> Latched(x.plant.state(w.core)))
  {
    if |v.packets| + required > CAPACITY {
      OverflowedSound(x, fine, v);
      var u := Overflowed(x, v).(packets := []);
      SteppedSound(x, fine, u, K.Input(now, x.config.nominalDt, None, false));
      OnwardTwice(v.history, u.history, Reserved(x, v, now, required, out).0.history);
    }
  }

  predicate AllSayable(state: SafetyState, ms: seq<Message>) {
    forall i :: 0 <= i < |ms| ==> Sayable(state, ms[i])
  }

  /** A message with room in the queue leaves everything but queue, serial and history alone. */
  lemma SaidWithRoom<P>(x: Setting<P>, v: Voice<P>, m: Message, step: u32)
    requires |v.packets| < CAPACITY
    ensures Said(x, v, m, step) ==
            if x.codecs.payload(m).None? then v
            else v.(packets := v.packets + [Packets.Packet(TypeOf(m), Wrap(v.serial), step, x.codecs.payload(m).value)],
                    serial := v.serial + 1, history := v.history.(sent := v.history.sent + [m]))
  {
  }

  lemma {:induction false} SaidAllSound<P(!new)>(x: Setting<P>, fine: P -> bool, v: Voice<P>, ms: seq<Message>,
                                                 step: u32)
    requires Governed(x, fine) && Sound(x, fine, v) && AllSayable(x.plant.state(v.core), ms)
    requires |v.packets| + |ms| <= CAPACITY
    ensures var w := SaidAll(x, v, ms, step);
            Sound(x, fine, w) && Onward(v.history, w.history) && w.core == v.core && w.stepped == v.stepped
    decreases |ms|
  {
    if ms != [] {
      var u := Said(x, v, ms[0], step);
      assert Sayable(x.plant.state(v.core), ms[0]);
      SaidSound(x, fine, v, ms[0], step);
      SaidWithRoom(x, v, ms[0], step);
      SaidAllSound(x, fine, u, ms[1..], step);
      OnwardTwice(v.history, u.history, SaidAll(x, v, ms, step).history);
    }
  }

  lemma BundleSayable(state: SafetyState, out: K.Output, health: bool, heartbeat: bool)
    requires Speaks(state, out)
    ensures AllSayable(state, Bundle(out, health, heartbeat)) &&
            |Bundle(out, health, heartbeat)| == Required(health, heartbeat)
  {
  }

  lemma ControlledSound<P(!new)>(x: Setting<P>, fine: P -> bool, v: Voice<P>, k: Clocks, step: u32, out: K.Output,
                                 force: bool)
    requires Governed(x, fine) && Sound(x, fine, v) && Speaks(x.plant.state(v.core), out)
    ensures var (w, k') := Controlled(x, v, k, step, out, force);
            && Sound(x, fine, w) && Onward(v.history, w.history)
            && (Latched(x.plant.state(v.core)) ==> Latched(x.plant.state(w.core)))
  {
    var health, heartbeat := HealthDue(x.config, k, out, force), HeartbeatDue(x.config, k);
    var required := Required(health, heartbeat);
    ReservedSound(x, fine, v, k.now, required, out);
    var (u, effective) := Reserved(x, v, k.now, required, out);
    var shown := health || |v.packets| + required > CAPACITY;
    BundleSayable(x.plant.state(u.core), effective, shown, heartbeat);
    SaidAllSound(x, fine, u, Bundle(effective, shown, heartbeat), step);
    OnwardTwice(v.history, u.history, Controlled(x, v, k, step, out, force).0.history);
  }

  // ------------------------------------------------------- hearing something

  /** From one station to a later one. */
  ghost predicate Moves<P(!new)>(x: Setting<P>, fine: P -> bool, s: Station<P>, t: Station<P>) {
    StationSound(x, fine, t) && Onward(s.voice.history, t.voice.history)
  }

  lemma HelloSound<P(!new)>(x: Setting<P>, fine: P -> bool, s: Station<P>, p: Packets.Packet)
    requires Governed(x, fine) && StationSound(x, fine, s)
    ensures Moves(x, fine, s, HelloHandled(x, s, p))
  {
    var status := HelloAnswer(x.codecs.hello(p.payload));
    var t := if status == HelloOk then Opened(x, s, p.sequence) else s;
    Sequence.JudgeKeepsAccount(Sequence.Nothing, x.window, p.sequence, None);
    SaidSound(x, fine, t.voice, HelloAck(status), p.step);
  }

  lemma RouteSound<P(!new)>(x: Setting<P>, fine: P -> bool, s: Station<P>, p: Packets.Packet)
    requires Governed(x, fine) && StationSound(x, fine, s)
    ensures Moves(x, fine, s, RouteHandled(x, s, p))
  {
    var (route, o) := Assembly.Assemble(x.plant.accepts, s.route, p.payload);
    var core := if o.Activated? || o.Refused? then x.plant.route(s.voice.core, o.route) else s.voice.core;
    var v := s.voice.(core := core);
    assert Sound(x, fine, v);
    ErredSound(x, fine, v, p.step, RouteRejected, RouteDetail(p.payload), p.sequence);
    ErredSound(x, fine, v, p.step, RouteRejected, 0, p.sequence);
  }

  lemma SensorSound<P(!new)>(x: Setting<P>, fine: P -> bool, s: Station<P>, p: Packets.Packet)
    requires Governed(x, fine) && StationSound(x, fine, s)
    ensures Moves(x, fine, s, SensorHandled(x, s, p))
  {
    var v := Overflowed(x, s.voice);
    OverflowedSound(x, fine, s.voice);
    ErredSound(x, fine, s.voice, p.step, BadPayload, 0, p.sequence);
    ErredSound(x, fine, v, p.step, InternalFault, Intake.CAPACITY, p.sequence);
    OnwardTwice(s.voice.history, v.history, Erred(x, v, p.step, InternalFault, Intake.CAPACITY, p.sequence).history);
  }

  lemma StopSound<P(!new)>(x: Setting<P>, fine: P -> bool, s: Station<P>, p: Packets.Packet)
    requires Governed(x, fine) && StationSound(x, fine, s)
    ensures Moves(x, fine, s, StopHandled(x, s, p))
    ensures x.codecs.latch(p.payload) == Some(true) ==> Latched(x.plant.state(StopHandled(x, s, p).voice.core))
  {
    if x.codecs.latch(p.payload) != Some(true) {
      ErredSound(x, fine, s.voice, p.step, BadPayload, 0, p.sequence);
    } else {
      var k := s.clocks.(lastCoreStep := s.clocks.now);
      var i := K.Input(k.now, x.config.nominalDt, None, true);
      SteppedSound(x, fine, s.voice, i);
      var (v, out) := Stepped(x, s.voice, i);
      ControlledSound(x, fine, v, k, p.step, out, true);
      OnwardTwice(s.voice.history, v.history, StopHandled(x, s, p).voice.history);
    }
  }

  lemma DispatchedSound<P(!new)>(x: Setting<P>, fine: P -> bool, s: Station<P>, p: Packets.Packet)
    requires Governed(x, fine) && StationSound(x, fine, s)
    ensures Moves(x, fine, s, Dispatched(x, s, p))
  {
    if p.messageType == ROUTE_CHUNK {
      RouteSound(x, fine, s, p);
    } else if p.messageType == SENSOR_FRAME {
      SensorSound(x, fine, s, p);
    } else if p.messageType == SAFE_STOP {
      StopSound(x, fine, s, p);
    } else {
      ErredSound(x, fine, s.voice, p.step, BadPayload, 0, p.sequence);
      ErredSound(x, fine, s.voice, p.step, UnsupportedMessage, 0, p.sequence);
    }
  }

  lemma EventSound<P(!new)>(x: Setting<P>, fine: P -> bool, s: Station<P>, e: Stream.Event)
    requires Governed(x, fine) && StationSound(x, fine, s)
    ensures Moves(x, fine, s, EventHandled(x, s, e))
  {
    var c := s.clocks.lastStepId;
    match e
    case Received(p) =>
      HelloSound(x, fine, Counted(s, p.step), p);
      ErredSound(x, fine, s.voice, p.step, NotReady, p.messageType, p.sequence);
      Sequence.JudgeKeepsAccount(s.progress, x.window, p.sequence, StepOf(p));
      var progress := Sequence.Judge(s.progress, x.window, p.sequence, StepOf(p)).1;
      DispatchedSound(x, fine, Counted(s, p.step).(progress := progress), p);
    case Rejected(status) => ErredSound(x, fine, s.voice, c, BadPayload, StatusCode(status), 0);
    case Oversized => ErredSound(x, fine, s.voice, c, BadPayload, StatusCode(Packets.OversizedFrame), 0);
    case EmptyDelimiter =>
    case Truncated =>
  }

  lemma {:induction false} EventsSound<P(!new)>(x: Setting<P>, fine: P -> bool, s: Station<P>, es: seq<Stream.Event>)
    requires Governed(x, fine) && StationSound(x, fine, s)
    ensures Moves(x, fine, s, EventsHandled(x, s, es))
  {
    if es != [] {
      var t := EventsHandled(x, s, es[..|es| - 1]);
      EventsSound(x, fine, s, es[..|es| - 1]);
      EventSound(x, fine, t, es[|es| - 1]);
      OnwardTwice(s.voice.history, t.voice.history, EventsHandled(x, s, es).voice.history);
    }
  }

  lemma TickedSound<P(!new)>(x: Setting<P>, fine: P -> bool, s: Station<P>, now: u32, step: u32, control: bool,
                             health: bool,
                             telemetry: bool)
    requires Governed(x, fine) && StationSound(x, fine, s)
    ensures Moves(x, fine, s, Ticked(x, s, now, step, control, health, telemetry))
  {
    var t := Clocked(s, now, step);
    var i := NextInput(x.config, t.clocks, t.waiting);
    SteppedSound(x, fine, s.voice, i);
    var (v, out) := Stepped(x, s.voice, i);
    var k := StepClocks(t.clocks, t.waiting != []);
    ControlledSound(x, fine, v, k, if t.waiting != [] then t.waiting[0].packetStep else step, out, health);
    OnwardTwice(s.voice.history, v.history, Released(x, t, step, health, telemetry).voice.history);
  }

  // ------------------------------------------------------- whole runs

  /** What drives a session: reports of the parser, ticks with what the scheduler finds due, and the transmitter. */
  datatype Input =
    | Bytes(now: u32, events: seq<Stream.Event>)
    | Clock(now: u32, step: u32, control: bool, health: bool, telemetry: bool)
    | Transmit

  function Next<P>(x: Setting<P>, s: Station<P>, i: Input): (t: Station<P>)
    requires Fitting(x.codecs) && |s.trackers| == Intake.SENSORS
    ensures |t.trackers| == Intake.SENSORS
  {
    match i
    case Bytes(now, events) => Fed(x, s, now, events)
    case Clock(now, step, control, health, telemetry) => Ticked(x, s, now, step, control, health, telemetry)
    case Transmit => if s.voice.packets == [] then s else Popped(s)
  }

  function Run<P>(x: Setting<P>, s: Station<P>, inputs: seq<Input>): (t: Station<P>)
    requires Fitting(x.codecs) && |s.trackers| == Intake.SENSORS
    ensures |t.trackers| == Intake.SENSORS
  {
    if inputs == [] then s else Next(x, Run(x, s, inputs[..|inputs| - 1]), inputs[|inputs| - 1])
  }

  lemma NextSound<P(!new)>(x: Setting<P>, fine: P -> bool, s: Station<P>, i: Input)
    requires Governed(x, fine) && StationSound(x, fine, s)
    ensures Moves(x, fine, s, Next(x, s, i))
  {
    match i
    case Bytes(now, events) => EventsSound(x, fine, s.(clocks := s.clocks.(now := now)), events);
    case Clock(now, step, control, health, telemetry) => TickedSound(x, fine, s, now, step, control, health, telemetry);
    case Transmit =>
  }

  /** Main result on runs: whatever bytes arrive and however ticks and transmissions fall between them, the core stays
      fine, both queues keep to their capacity, nothing said is taken back, and from the moment the core first
      stops every command is a safe stop. */
  lemma {:induction false} RunStaysSound<P(!new)>(x: Setting<P>, fine: P -> bool, s: Station<P>, inputs: seq<Input>)
    requires Governed(x, fine) && StationSound(x, fine, s)
    ensures Moves(x, fine, s, Run(x, s, inputs))
  {
    if inputs != [] {
      var t := Run(x, s, inputs[..|inputs| - 1]);
      RunStaysSound(x, fine, s, inputs[..|inputs| - 1]);
      NextSound(x, fine, t, inputs[|inputs| - 1]);
      OnwardTwice(s.voice.history, t.voice.history, Run(x, s, inputs).voice.history);
    }
  }

  lemma BegunSound<P(!new)>(x: Setting<P>, fine: P -> bool, now: u32)
    requires Governed(x, fine)
    ensures StationSound(x, fine, Begun(x, now)) && x.plant.state(Begun(x, now).voice.core) == Ready
  {
  }

  /** Once the core has stopped, the whole rest of the session commands nothing but safe stops. */
  lemma StoppedSessionStaysStopped<P(!new)>(x: Setting<P>, fine: P -> bool, s: Station<P>, inputs: seq<Input>, n: nat)
    requires Governed(x, fine) && StationSound(x, fine, s) && Latched(x.plant.state(s.voice.core))
    requires var sent := Run(x, s, inputs).voice.history.sent;
             |s.voice.history.sent| <= n < |sent| && sent[n].ControlCommand?
    ensures IsSafeStop(Run(x, s, inputs).voice.history.sent[n]) && Latched(x.plant.state(Run(x, s, inputs).voice.core))
  {
    RunStaysSound(x, fine, s, inputs);
    var h := Run(x, s, inputs).voice.history;
    StopsSinceMeans(h.sent, h.stoppedAfter.value, n);
  }
}
