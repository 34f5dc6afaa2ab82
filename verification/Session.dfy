/** What FirmwareSession (src/firmware_session.cpp) says and hears: messages, payload codecs, and the controller
    core as the operations the session calls with the laws proved of them. */
module Session {
  import K = Core
  import Intake
  import Packets
  import R = Route
  import Stream
  import opened LinearAlgebra
  import opened Modes
  import opened Words

  // ------------------------------------------------------- messages

  datatype HelloStatus = HelloOk | VersionMismatch | HelloRejected

  datatype ControlMode = Neutral | Tracking | SafeStopped

  datatype ErrorCode = BadPayload | UnsupportedMessage | RouteRejected | NotReady | InternalFault

  datatype Message =
    | HelloAck(status: HelloStatus)
    | ControlCommand(mode: ControlMode, steering: real, acceleration: real, targetSpeed: real, complete: bool)
    | StateEstimate(estimate: Vec, navigation: NavigationMode, healthy: bool)
    | HealthStatus(state: SafetyState, navigation: NavigationMode, healthy: bool)
    | Heartbeat(state: SafetyState)
    | ErrorReport(code: ErrorCode, detail: u16, related: u32)

  function TypeOf(m: Message): (t: byte)
    ensures Packets.KnownType(t)
  {
    match m
    case HelloAck(_) => 0x02
    case ControlCommand(_, _, _, _, _) => 0x20
    case StateEstimate(_, _, _) => 0x21
    case HealthStatus(_, _, _) => 0x22
    case Heartbeat(_) => 0x23
    case ErrorReport(_, _, _) => 0x7e
  }

  predicate IsSafeStop(m: Message) {
    m.ControlCommand? && m.mode == SafeStopped && m.steering == 0.0 && m.targetSpeed == 0.0
  }

  // ------------------------------------------------------- the safety latch over everything sent

  /** Every message sent since the reset, and how many had been when the core first stopped. */
  datatype History = History(sent: seq<Message>, stoppedAfter: Option<nat>)

  /** From the n-th message on every command is a safe stop. */
  predicate StopsSince(sent: seq<Message>, n: nat) {
    |sent| <= n || (StopsSince(sent[..|sent| - 1], n) &&
                    (sent[|sent| - 1].ControlCommand? ==> IsSafeStop(sent[|sent| - 1])))
  }

  lemma {:induction false} StopsSinceMeans(sent: seq<Message>, n: nat, i: nat)
    requires StopsSince(sent, n) && n <= i < |sent| && sent[i].ControlCommand?
    ensures IsSafeStop(sent[i])
    decreases |sent|
  {
    if i < |sent| - 1 {
      StopsSinceMeans(sent[..|sent| - 1], n, i);
    }
  }

  predicate LatchKept(state: SafetyState, h: History) {
    && (h.stoppedAfter.Some? <==> Latched(state))
    && (h.stoppedAfter.Some? ==> h.stoppedAfter.value <= |h.sent| && StopsSince(h.sent, h.stoppedAfter.value))
  }

  /** The history when the core has reached this state. */
  function Noted(h: History, state: SafetyState): History {
    if Latched(state) && h.stoppedAfter.None? then h.(stoppedAfter := Some(|h.sent|)) else h
  }

  /** Nothing sent is taken back, and the moment of the first stop stays. */
  predicate Onward(before: History, after: History) {
    && before.sent <= after.sent
    && (before.stoppedAfter.Some? ==> after.stoppedAfter == before.stoppedAfter)
    && (after.stoppedAfter.Some? && before.stoppedAfter.None? ==> |before.sent| <= after.stoppedAfter.value)
  }

  lemma NotedKept(before: SafetyState, after: SafetyState, h: History)
    requires LatchKept(before, h) && (Latched(before) ==> Latched(after))
    ensures LatchKept(after, Noted(h, after))
  {
  }

  lemma SentKept(state: SafetyState, h: History, m: Message)
    requires LatchKept(state, h) && (Latched(state) && m.ControlCommand? ==> IsSafeStop(m))
    ensures LatchKept(state, h.(sent := h.sent + [m]))
  {
    assert (h.sent + [m])[..|h.sent|] == h.sent;
  }

  // ------------------------------------------------------- the controller core as the session uses it

  datatype Plant<!P> = Plant(begin: u32 -> P, state: P -> SafetyState, step: (P, K.Input) -> (P, K.Output),
                             heard: (P, u32) -> P, overflow: P -> P, accepts: seq<R.Waypoint> -> bool,
                             route: (P, seq<R.Waypoint>) -> P)

  /** A command computed in a stopped state is a safe stop. */
  predicate Speaks(state: SafetyState, out: K.Output) {
    out.safety == state &&
    (Latched(state) ==> out.command.safeStop && out.command.steering == 0.0 && out.command.targetSpeed == 0.0)
  }

  ghost predicate Lawful<P(!new)>(plant: Plant<P>, fine: P -> bool) {
    && (forall now {:trigger plant.begin(now)} :: fine(plant.begin(now)) && plant.state(plant.begin(now)) == Ready)
    && (forall p, i {:trigger plant.step(p, i)} :: fine(p) ==>
          && fine(plant.step(p, i).0) && Speaks(plant.state(plant.step(p, i).0), plant.step(p, i).1)
          && (Latched(plant.state(p)) || i.manualStop ==> Latched(plant.state(plant.step(p, i).0))))
    && (forall p, now {:trigger plant.heard(p, now)} :: fine(p) ==>
          fine(plant.heard(p, now)) && plant.state(plant.heard(p, now)) == plant.state(p))
    && (forall p {:trigger plant.overflow(p)} :: fine(p) ==>
          fine(plant.overflow(p)) && Latched(plant.state(plant.overflow(p))))
    && (forall p, ws {:trigger plant.route(p, ws)} :: fine(p) ==>
          fine(plant.route(p, ws)) && plant.state(plant.route(p, ws)) == plant.state(p))
  }

  // ------------------------------------------------------- payload codecs

  datatype Hello = Hello(fromHost: bool, minVersion: byte, maxVersion: byte, capabilities: u32, maxPayload: u16,
                         heartbeatTimeout: u16)

  /** The payload codecs the session uses; a message whose fields do not encode is not sent. */
  datatype Codecs = Codecs(payload: Message -> Option<seq<byte>>, hello: seq<byte> -> Option<Hello>,
                           sensor: seq<byte> -> Option<Intake.Sensor>, latch: seq<byte> -> Option<bool>,
                           heartbeat: seq<byte> -> bool)

  ghost predicate Fitting(codecs: Codecs) {
    && (forall m {:trigger codecs.payload(m)} :: codecs.payload(m).Some? ==>
          |codecs.payload(m).value| <= Packets.MAX_PAYLOAD)
    && (forall s {:trigger codecs.sensor(s)} :: codecs.sensor(s).Some? ==>
          Intake.WellFormed(codecs.sensor(s).value) && codecs.sensor(s).value.frame.disposition == K.Clean)
  }

  const HOST_TIMEOUT: u16 := 500
  const MINIMUM_HOST_PAYLOAD: u16 := 116

  /** All five capability bits are set. */
  predicate Capable(capabilities: u32) {
    capabilities % 32 == 31
  }

  /** The answer to a HELLO, in the order of the checks. */
  function HelloAnswer(hello: Option<Hello>): HelloStatus {
    if hello.None? || !hello.value.fromHost then HelloRejected
    else if hello.value.minVersion > Packets.VERSION || hello.value.maxVersion < Packets.VERSION then VersionMismatch
    else if !Capable(hello.value.capabilities) || hello.value.maxPayload < MINIMUM_HOST_PAYLOAD ||
            hello.value.heartbeatTimeout != HOST_TIMEOUT then HelloRejected
    else HelloOk
  }

  /** The number of a status in error reports. */
  function StatusCode(s: Packets.Status): u16 {
    match s
    case BufferTooSmall => 2
    case EmptyFrame => 3
    case UnexpectedDelimiter => 4
    case CobsMalformed => 5
    case PacketTooShort => 6
    case CrcMismatch => 7
    case UnsupportedVersion => 8
    case UnknownMessageType => 9
    case PayloadLengthMismatch => 10
    case PayloadTooLarge => 11
    case InvalidValue => 12
    case OversizedFrame => 13
    case TruncatedFrame => 14
  }

  /** The detail of a route error: why the payload did not decode, or nothing. */
  function RouteDetail(payload: seq<byte>): u16 {
    var d := R.DecodeChunk(payload);
    if d.Err? then StatusCode(d.error) else 0
  }

  function Bit(x: nat, k: nat): nat {
    if k == 0 then x % 2 else Bit(x / 2, k - 1)
  }

  /** The mask test is the conjunction of the five capability bits. */
  lemma CapableBits(x: u32)
    ensures Capable(x) <==> Bit(x, 0) == 1 && Bit(x, 1) == 1 && Bit(x, 2) == 1 && Bit(x, 3) == 1 && Bit(x, 4) == 1
  {
    var a, b, c, d := x / 2, x / 2 / 2, x / 2 / 2 / 2, x / 2 / 2 / 2 / 2;
    assert Bit(x, 1) == Bit(a, 0) && Bit(x, 2) == Bit(a, 1) == Bit(b, 0);
    assert Bit(x, 3) == Bit(a, 2) == Bit(b, 1) == Bit(c, 0);
    assert Bit(x, 4) == Bit(a, 3) == Bit(b, 2) == Bit(c, 1) == Bit(d, 0);
    FiveBits(x, d / 2, x % 2, a % 2, b % 2, c % 2, d % 2);
  }

  /** The HELLO of the host (host/src/navbench/session.py) with its configured timeout: this version only, the five
      capabilities, and the largest payload of the protocol. */
  function HostHello(timeout: u16): Hello {
    Hello(true, Packets.VERSION, Packets.VERSION, 1 + 2 + 4 + 8 + 16, Packets.MAX_PAYLOAD, timeout)
  }

  /** Main result on the handshake: a HELLO is accepted exactly from a host whose versions include this one, with
      every one of the five capabilities, room for the largest message of the controller and the timeout of its
      watchdog; any other version is told so. The host's own HELLO is one of these exactly with a timeout of 500 ms. */
  lemma HelloNegotiated(h: Hello, timeout: u16)
    ensures HelloAnswer(Some(h)) == HelloOk <==>
              && h.fromHost && h.minVersion <= 1 <= h.maxVersion
              && Bit(h.capabilities, 0) == 1 && Bit(h.capabilities, 1) == 1 && Bit(h.capabilities, 2) == 1
              && Bit(h.capabilities, 3) == 1 && Bit(h.capabilities, 4) == 1
              && h.maxPayload >= 116 && h.heartbeatTimeout == 500
    ensures HelloAnswer(Some(h)) == VersionMismatch <==> h.fromHost && !(h.minVersion <= 1 <= h.maxVersion)
    ensures HelloAnswer(None) == HelloRejected
    ensures HelloAnswer(Some(HostHello(timeout))) == HelloOk <==> timeout == 500
  {
    CapableBits(h.capabilities);
  }

  lemma FiveBits(x: nat, q: nat, b0: nat, b1: nat, b2: nat, b3: nat, b4: nat)
    requires b0 < 2 && b1 < 2 && b2 < 2 && b3 < 2 && b4 < 2
    requires x == b0 + 2 * b1 + 4 * b2 + 8 * b3 + 16 * b4 + 32 * q
    ensures x % 32 == 31 <==> b0 == 1 && b1 == 1 && b2 == 1 && b3 == 1 && b4 == 1
  {
    assert x % 32 == b0 + 2 * b1 + 4 * b2 + 8 * b3 + 16 * b4;
  }

  function CommandMessage(out: K.Output): Message {
    ControlCommand(if out.command.safeStop then SafeStopped else if out.command.valid then Tracking else Neutral,
                   out.command.steering, out.command.acceleration, out.command.targetSpeed, out.command.routeComplete)
  }

  predicate Fits(e: Stream.Event) {
    e.Received? ==> |e.packet.payload| <= Packets.MAX_PAYLOAD
  }

  lemma {:induction false} ReadFits(s: seq<byte>)
    ensures forall i :: 0 <= i < |Stream.Read(Stream.DecoderOf(Stream.Firmware), s).log| ==>
              Fits(Stream.Read(Stream.DecoderOf(Stream.Firmware), s).log[i])
  {
    if s != [] {
      ReadFits(s[..|s| - 1]);
      var open := Stream.Read(Stream.DecoderOf(Stream.Firmware), s[..|s| - 1]).open;
      DecodedFits(open);
    }
  }

  lemma DecodedFits(segment: seq<byte>)
    ensures Fits(Stream.Digest(Stream.DecoderOf(Stream.Firmware), segment))
  {
    var d := Packets.DecodeFrame(segment);
    if d.Ok? {
      Packets.FramingBijection(segment, d.value);
    }
  }

  /** The packets the firmware parser reports keep to the payload limit. */
  lemma EventsFit(before: seq<byte>, s: seq<byte>, earlier: seq<Stream.Event>, events: seq<Stream.Event>)
    requires var decode := Stream.DecoderOf(Stream.Firmware);
             earlier + Stream.Read(decode, s).log == earlier + Stream.Read(decode, before).log + events
    ensures forall k :: 0 <= k < |events| ==> Fits(events[k])
  {
    var decode := Stream.DecoderOf(Stream.Firmware);
    var all, old' := Stream.Read(decode, s).log, Stream.Read(decode, before).log;
    ReadFits(s);
    forall k | 0 <= k < |events| ensures Fits(events[k]) {
      assert events[k] == (earlier + old' + events)[|earlier| + |old'| + k] == (earlier + all)[|earlier| + |old'| + k];
      assert Fits(all[|old'| + k]);
    }
  }
}
