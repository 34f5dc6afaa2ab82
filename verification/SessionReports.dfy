/** What the session of src/firmware_session.cpp tells the host: when a tick reports and what the report says, and how
    every refusal is answered. */
module SessionReports {
  import K = Core
  import R = Route
  import Assembly
  import Intake
  import Packets
  import Sequence
  import Stream
  import opened Session
  import opened SessionEffects
  import opened SessionRuns
  import opened SessionSteps
  import opened Transmit
  import opened Words

  /** Codecs that encode whatever the session says. */
  ghost predicate Total(codecs: Codecs) {
    forall m {:trigger codecs.payload(m)} :: codecs.payload(m).Some?
  }

  /** The packets carry these messages, in order, under consecutive numbers and one step. */
  ghost predicate Carried(codecs: Codecs, serial: nat, ms: seq<Message>, packets: seq<Packets.Packet>, step: u32) {
    && |packets| == |ms|
    && forall i {:trigger packets[i]} :: 0 <= i < |ms| ==>
         && packets[i].messageType == TypeOf(ms[i]) && packets[i].sequence == Wrap(serial + i)
         && packets[i].step == step && codecs.payload(ms[i]) == Some(packets[i].payload)
  }

  lemma {:induction false} PacketsCarry(codecs: Codecs, serial: nat, ms: seq<Message>, step: u32)
    requires Total(codecs)
    ensures Carried(codecs, serial, ms, PacketsOf(codecs, ms, serial, step), step)
    decreases |ms|
  {
    if ms != [] {
      PacketsCarry(codecs, serial + 1, ms[1..], step);
      var rest, packets := PacketsOf(codecs, ms[1..], serial + 1, step), PacketsOf(codecs, ms, serial, step);
      assert codecs.payload(ms[0]).Some?;
      forall i | 0 < i < |ms| ensures packets[i] == rest[i - 1] && ms[i] == ms[1..][i - 1] {
      }
    }
  }

  lemma {:induction false} SaidAllSays<P>(x: Setting<P>, v: Voice<P>, ms: seq<Message>, step: u32)
    requires Total(x.codecs) && |v.packets| + |ms| <= CAPACITY
    ensures SaidAll(x, v, ms, step).history.sent == v.history.sent + ms
    decreases |ms|
  {
    if ms != [] {
      SaidWithRoom(x, v, ms[0], step);
      SaidAllSays(x, Said(x, v, ms[0], step), ms[1..], step);
      assert v.history.sent + [ms[0]] + ms[1..] == v.history.sent + ms;
    }
  }

  // ------------------------------------------------------- reports

  /** The command as it is sent. */
  predicate Conveys(m: Message, out: K.Output) {
    && m.ControlCommand? && m.steering == out.command.steering && m.acceleration == out.command.acceleration
    && m.targetSpeed == out.command.targetSpeed && m.complete == out.command.routeComplete
    && (m.mode == SafeStopped <==> out.command.safeStop)
    && (m.mode == Tracking <==> out.command.valid && !out.command.safeStop)
    && (m.mode == Neutral <==> !out.command.valid && !out.command.safeStop)
  }

  /** A health status goes with a report if it is asked for, if the state is not the one last reported, or if the last
      one is at least the period old. */
  predicate HealthGoes(c: Config, k: Clocks, out: K.Output, force: bool) {
    force || out.safety != k.lastEmitted || Sub32(k.now, k.lastHealth) >= c.healthPeriod
  }

  predicate HeartbeatGoes(c: Config, k: Clocks) {
    Sub32(k.now, k.lastHeartbeat) >= c.heartbeatPeriod
  }

  /** What a report with room in the queue says: the command, the estimate it was computed from, and what else goes, in
      packets of their own that bear the step. */
  ghost predicate Says<P>(x: Setting<P>, v: Voice<P>, w: Voice<P>, k: Clocks, k': Clocks, step: u32, out: K.Output,
                          force: bool)
  {
    var n, m := |v.history.sent|, |w.history.sent|;
    var health, heartbeat := HealthGoes(x.config, k, out, force), HeartbeatGoes(x.config, k);
    && m == n + 2 + (if health then 1 else 0) + (if heartbeat then 1 else 0) && v.history.sent <= w.history.sent
    && Conveys(w.history.sent[n], out)
    && w.history.sent[n + 1] == StateEstimate(out.estimate, out.mode, out.healthy)
    && (health ==> w.history.sent[n + 2] == HealthStatus(out.safety, out.mode, out.healthy))
    && (heartbeat ==> w.history.sent[m - 1] == Heartbeat(out.safety))
    && k'.lastHealth == (if health then k.now else k.lastHealth)
    && k'.lastEmitted == (if health then out.safety else k.lastEmitted)
    && k'.lastHeartbeat == (if heartbeat then k.now else k.lastHeartbeat)
    && v.packets <= w.packets
    && Carried(x.codecs, v.serial, w.history.sent[n..], w.packets[|v.packets|..], step)
  }

  lemma ReportSays<P>(x: Setting<P>, v: Voice<P>, k: Clocks, step: u32, out: K.Output, force: bool)
    requires Total(x.codecs)
    requires |v.packets| + 2 + (if HealthGoes(x.config, k, out, force) then 1 else 0)
             + (if HeartbeatGoes(x.config, k) then 1 else 0) <= CAPACITY
    ensures var (w, k') := Controlled(x, v, k, step, out, force);
            Says(x, v, w, k, k', step, out, force)
  {
    var health, heartbeat := HealthDue(x.config, k, out, force), HeartbeatDue(x.config, k);
    var ms := Bundle(out, health, heartbeat);
    assert |ms| == Required(health, heartbeat);
    SaidAllSays(x, v, ms, step);
    SaidAllQueues(x, v, ms, step);
    PacketsCarry(x.codecs, v.serial, ms, step);
    assert (v.history.sent + ms)[|v.history.sent|..] == ms;
  }

  /** Main result on reports: a due tick reports its step exactly if it took a frame, if health or telemetry is due, if
      the core is in another state than the one last reported, or if a heartbeat is due; then, with room in the queue,
      the report is about the output of that very step and bears its number, that of the packet of the frame if there
      is one. Otherwise nothing is said. */
  lemma TickReports<P>(x: Setting<P>, s: Station<P>, now: u32, step: u32, health: bool, telemetry: bool)
    returns (i: K.Input)
    requires ValidConfig(x.config) && Total(x.codecs) && |s.voice.packets| + 4 <= CAPACITY
    requires s.active && now != s.clocks.lastCoreStep
    ensures i.frame.Some? == (s.waiting != [])
    ensures var t := Ticked(x, s, now, step, true, health, telemetry);
            var (core, out) := x.plant.step(s.voice.core, i);
            var k := s.clocks.(now := now);
            && t.voice.core == core && t.voice.stepped == s.voice.stepped + [i]
            && if s.waiting != [] || health || telemetry || out.safety != k.lastEmitted || HeartbeatGoes(x.config, k)
               then Says(x, s.voice, t.voice, k, t.clocks, if s.waiting != [] then s.waiting[0].packetStep else step,
                         out, health)
               else t.voice.packets == s.voice.packets && t.voice.history.sent == s.voice.history.sent
  {
    i := NextInput(x.config, Clocked(s, now, step).clocks, s.waiting);
    var (v, out) := Stepped(x, s.voice, i);
    var framed := s.waiting != [];
    var k := StepClocks(Clocked(s, now, step).clocks, framed);
    var id := if framed then s.waiting[0].packetStep else step;
    ReportSays(x, v, k, id, out, health);
    BundleWhole(x, v, k, id, out, health);
  }

  // ------------------------------------------------------- answers

  /** The one message said, in a packet of its own; a full queue has lost what was in it. */
  ghost predicate Answers<P>(x: Setting<P>, v: Voice<P>, w: Voice<P>, step: u32, m: Message) {
    && w.history.sent == v.history.sent + [m] && w.packets != []
    && w.packets[..|w.packets| - 1] == (if |v.packets| == CAPACITY then [] else v.packets)
    && Carried(x.codecs, v.serial, [m], [w.packets[|w.packets| - 1]], step)
  }

  lemma SaidAnswers<P>(x: Setting<P>, v: Voice<P>, step: u32, m: Message)
    requires Total(x.codecs)
    ensures Answers(x, v, Said(x, v, m, step), step, m)
  {
    assert x.codecs.payload(m).Some?;
  }

  lemma ErredAnswers<P>(x: Setting<P>, v: Voice<P>, step: u32, code: ErrorCode, detail: u16, related: u32)
    requires Total(x.codecs)
    ensures Answers(x, v, Erred(x, v, step, code, detail, related), step, ErrorReport(code, detail, related))
  {
    SaidAnswers(x, v.(errors := Wrap(v.errors + 1)), step, ErrorReport(code, detail, related));
  }

  /** A packet other than HELLO that reaches its handler. */
  predicate Reaches<P>(x: Setting<P>, s: Station<P>, p: Packets.Packet) {
    && p.messageType != HELLO && (s.active || p.messageType == SAFE_STOP)
    && Sequence.Judge(s.progress, x.window, p.sequence,
                      if p.messageType == SENSOR_FRAME then Some(p.step) else None).0.accepted
  }

  /** Main result on answers: every refusal names the sequence number of its packet and its cause, and bears its step; a
      packet that is not newer is not answered at all. First what is refused before any handler. */
  lemma RefusalsNamed<P>(x: Setting<P>, s: Station<P>, p: Packets.Packet)
    requires Fitting(x.codecs) && Total(x.codecs) && |s.trackers| == Intake.SENSORS && |s.voice.packets| <= CAPACITY
    ensures var t := PacketHandled(x, s, p);
            if p.messageType == HELLO then
              HelloAnswer(x.codecs.hello(p.payload)) != HelloOk ==>
                Answers(x, s.voice, t.voice, p.step, HelloAck(HelloAnswer(x.codecs.hello(p.payload))))
            else if !s.active && p.messageType != SAFE_STOP then
              Answers(x, s.voice, t.voice, p.step, ErrorReport(NotReady, p.messageType, p.sequence))
            else !Reaches(x, s, p) ==> t == s
  {
    if p.messageType == HELLO {
      SaidAnswers(x, s.voice, p.step, HelloAck(HelloAnswer(x.codecs.hello(p.payload))));
    } else if !s.active {
      ErredAnswers(x, s.voice, p.step, NotReady, p.messageType, p.sequence);
    }
  }

  /** ... a heartbeat or a stop request that does not decode, and a type that is not for the controller. */
  lemma HandlerRefusals<P>(x: Setting<P>, s: Station<P>, p: Packets.Packet)
    requires Fitting(x.codecs) && Total(x.codecs) && |s.trackers| == Intake.SENSORS && Reaches(x, s, p)
    requires || (p.messageType == HEARTBEAT && !x.codecs.heartbeat(p.payload))
             || (p.messageType == SAFE_STOP && x.codecs.latch(p.payload) != Some(true))
             || p.messageType !in {ROUTE_CHUNK, SENSOR_FRAME, SAFE_STOP, HEARTBEAT}
    ensures var code := if p.messageType == HEARTBEAT || p.messageType == SAFE_STOP then BadPayload
                        else UnsupportedMessage;
            Answers(x, s.voice, PacketHandled(x, s, p).voice, p.step, ErrorReport(code, 0, p.sequence))
  {
    var code := if p.messageType == HEARTBEAT || p.messageType == SAFE_STOP then BadPayload else UnsupportedMessage;
    ErredAnswers(x, s.voice, p.step, code, 0, p.sequence);
  }

  /** A sensor packet that brings nothing, or a sample step that is not admissible. */
  ghost predicate Useless<P>(x: Setting<P>, s: Station<P>, p: Packets.Packet)
    requires Fitting(x.codecs) && |s.trackers| == Intake.SENSORS
  {
    var d := x.codecs.sensor(p.payload);
    d.None? || (forall k :: 0 <= k < |d.value.steps| ==> d.value.steps[k].None?) ||
    (exists k :: 0 <= k < |d.value.steps| &&
       Intake.JudgeStep(d.value.steps[k], s.trackers[k], p.step, x.config.maxLag) != K.Clean)
  }

  lemma UselessJudged<P>(x: Setting<P>, s: Station<P>, p: Packets.Packet)
    requires Fitting(x.codecs) && |s.trackers| == Intake.SENSORS
    ensures var d := x.codecs.sensor(p.payload);
            Useless(x, s, p) <==> d.None? || Intake.Nothing(d.value) ||
                                  Intake.JudgeFrom(d.value, s.trackers, p.step, x.config.maxLag, 0) != K.Clean
  {
    var d := x.codecs.sensor(p.payload);
    if d.Some? {
      Intake.FirstObjection(d.value, s.trackers, p.step, x.config.maxLag);
    }
  }

  /** ... a useless sensor packet, and one that meets a full queue, which also stops the core. */
  lemma SensorRefusals<P>(x: Setting<P>, s: Station<P>, p: Packets.Packet)
    requires Fitting(x.codecs) && Total(x.codecs) && |s.trackers| == Intake.SENSORS && p.messageType == SENSOR_FRAME
    requires Reaches(x, s, p)
    ensures var t := PacketHandled(x, s, p);
            if Useless(x, s, p) then
              && Answers(x, s.voice, t.voice, p.step, ErrorReport(BadPayload, 0, p.sequence))
              && t.waiting == s.waiting && t.trackers == s.trackers
            else if |s.waiting| == Intake.CAPACITY then
              && Answers(x, s.voice, t.voice, p.step, ErrorReport(InternalFault, 4, p.sequence))
              && t.waiting == s.waiting && t.trackers == s.trackers
              && (|s.voice.packets| < CAPACITY ==> t.voice.core == x.plant.overflow(s.voice.core))
            else t.voice == s.voice
  {
    UselessJudged(x, s, p);
    if Useless(x, s, p) {
      ErredAnswers(x, s.voice, p.step, BadPayload, 0, p.sequence);
    } else {
      ErredAnswers(x, Overflowed(x, s.voice), p.step, InternalFault, Intake.CAPACITY, p.sequence);
    }
  }

  /** ... and a route chunk that the assembler or the controller refuses. */
  lemma RouteRefusals<P>(x: Setting<P>, s: Station<P>, p: Packets.Packet)
    requires Fitting(x.codecs) && Total(x.codecs) && |s.trackers| == Intake.SENSORS && p.messageType == ROUTE_CHUNK
    requires Reaches(x, s, p)
    ensures var t, o := PacketHandled(x, s, p), Assembly.Assemble(x.plant.accepts, s.route, p.payload).1;
            var detail := if R.DecodeChunk(p.payload).Err? then StatusCode(R.DecodeChunk(p.payload).error) else 0;
            && (o.Rejected? ==> Answers(x, s.voice, t.voice, p.step, ErrorReport(RouteRejected, detail, p.sequence)))
            && (o.Refused? ==> Answers(x, s.voice, t.voice, p.step, ErrorReport(RouteRejected, 0, p.sequence)))
            && (o.Stored? || o.Activated? ==> t.voice.history == s.voice.history)
  {
    var o := Assembly.Assemble(x.plant.accepts, s.route, p.payload).1;
    var c := Counted(s, p.step).(progress := Sequence.Judge(s.progress, x.window, p.sequence, None).1);
    var t := Collected(x, c, p);
    ErredAnswers(x, t.voice, p.step, RouteRejected, RouteDetail(p.payload), p.sequence);
    ErredAnswers(x, t.voice, p.step, RouteRejected, 0, p.sequence);
  }

  /** ... and what the parser could not read, under the step of the last packet handled or tick, with a detail of its
      own for each cause; empty and unfinished segments are passed over. */
  lemma NoiseReported<P>(x: Setting<P>, s: Station<P>, e: Stream.Event)
    requires Fitting(x.codecs) && Total(x.codecs) && |s.trackers| == Intake.SENSORS && !e.Received?
    ensures var t := EventHandled(x, s, e);
            var cause := if e.Rejected? then e.status else Packets.OversizedFrame;
            if e.EmptyDelimiter? || e.Truncated? then t == s
            else
              && Answers(x, s.voice, t.voice, s.clocks.lastStepId, ErrorReport(BadPayload, StatusCode(cause), 0))
              && t == s.(voice := t.voice)
  {
    var cause := if e.Rejected? then e.status else Packets.OversizedFrame;
    ErredAnswers(x, s.voice, s.clocks.lastStepId, BadPayload, StatusCode(cause), 0);
  }

  lemma CausesDiffer(a: Packets.Status, b: Packets.Status)
    ensures StatusCode(a) == StatusCode(b) <==> a == b
  {
  }

  /** The step remembered is that of the last packet that was not passed over, or of the last tick. */
  lemma StepRemembered<P>(x: Setting<P>, s: Station<P>, p: Packets.Packet, now: u32, step: u32, control: bool,
                          health: bool, telemetry: bool)
    requires Fitting(x.codecs) && |s.trackers| == Intake.SENSORS
    ensures var t := PacketHandled(x, s, p);
            if p.messageType == HELLO || Reaches(x, s, p) || (!s.active && p.messageType != SAFE_STOP) then
              t.clocks.lastStepId == p.step && t.handled == Wrap(s.handled + 1)
            else t == s
    ensures Ticked(x, s, now, step, control, health, telemetry).clocks.lastStepId == step
  {
  }
}
