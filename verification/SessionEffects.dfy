/** What single steps of the session of src/firmware_session.cpp amount to: whole bundles, what a HELLO forgets, that
    a repeated packet does nothing, silence before the first HELLO, and how often a tick steps the core. */
module SessionEffects {
  import K = Core
  import Assembly
  import Intake
  import Packets
  import Sequence
  import Stream
  import opened Session
  import opened SessionRuns
  import opened SessionSteps
  import opened Transmit
  import opened Words

  // ------------------------------------------------------- bundles

  /** The packets of consecutive messages; a message that does not encode takes no number. */
  function PacketsOf(codecs: Codecs, ms: seq<Message>, serial: nat, step: u32): seq<Packets.Packet>
    decreases |ms|
  {
    if ms == [] then []
    else
      var payload := codecs.payload(ms[0]);
      if payload.None? then PacketsOf(codecs, ms[1..], serial, step)
      else
        [Packets.Packet(TypeOf(ms[0]), Wrap(serial), step, payload.value)]
        + PacketsOf(codecs, ms[1..], serial + 1, step)
  }

  lemma {:induction false} SaidAllQueues<P>(x: Setting<P>, v: Voice<P>, ms: seq<Message>, step: u32)
    requires |v.packets| + |ms| <= CAPACITY
    ensures var w := SaidAll(x, v, ms, step);
            && w.packets == v.packets + PacketsOf(x.codecs, ms, v.serial, step)
            && w.serial == v.serial + |PacketsOf(x.codecs, ms, v.serial, step)|
            && w.core == v.core && w.stepped == v.stepped && w.errors == v.errors &&
               w.history.stoppedAfter == v.history.stoppedAfter
    decreases |ms|
  {
    if ms != [] {
      SaidWithRoom(x, v, ms[0], step);
      SaidAllQueues(x, Said(x, v, ms[0], step), ms[1..], step);
    }
  }

  /** Main result on bundles: what a step reports is queued whole under consecutive numbers, behind the whole backlog
      if that leaves room. Otherwise the whole backlog is lost, the core stops and is stepped again, and the bundle,
      now with a health status, is about that second step. */
  lemma BundleWhole<P>(x: Setting<P>, v: Voice<P>, k: Clocks, step: u32, out: K.Output, force: bool)
    requires |v.packets| <= CAPACITY
    ensures var w := Controlled(x, v, k, step, out, force).0;
            var health, heartbeat := HealthDue(x.config, k, out, force), HeartbeatDue(x.config, k);
            if |v.packets| + Required(health, heartbeat) <= CAPACITY then
              && w.packets == v.packets + PacketsOf(x.codecs, Bundle(out, health, heartbeat), v.serial, step)
              && w.core == v.core && w.stepped == v.stepped
            else
              var (core, again) := x.plant.step(x.plant.overflow(v.core),
                                                K.Input(k.now, x.config.nominalDt, None, false));
              && w.packets == PacketsOf(x.codecs, Bundle(again, true, heartbeat), v.serial, step)
              && w.core == core && w.stepped == v.stepped + [K.Input(k.now, x.config.nominalDt, None, false)]
  {
    var health, heartbeat := HealthDue(x.config, k, out, force), HeartbeatDue(x.config, k);
    var (u, effective) := Reserved(x, v, k.now, Required(health, heartbeat), out);
    var shown := health || |v.packets| + Required(health, heartbeat) > CAPACITY;
    SaidAllQueues(x, u, Bundle(effective, shown, heartbeat), step);
  }

  // ------------------------------------------------------- how often the core is stepped

  /** The bundle of a tick finds no room. */
  predicate Overflows<P>(x: Setting<P>, s: Station<P>, now: u32, health: bool, telemetry: bool) {
    var k := StepClocks(s.clocks.(now := now), s.waiting != []);
    var out := x.plant.step(s.voice.core, NextInput(x.config, s.clocks.(now := now), s.waiting)).1;
    && Shows(x.config, k, s.waiting != [], health, telemetry, out)
    && |s.voice.packets| + Required(HealthDue(x.config, k, out, health), HeartbeatDue(x.config, k)) > CAPACITY
  }

  lemma BundleSteps<P>(x: Setting<P>, v: Voice<P>, k: Clocks, step: u32, out: K.Output, force: bool)
    requires |v.packets| <= CAPACITY
    ensures |Controlled(x, v, k, step, out, force).0.stepped|
         == var required := Required(HealthDue(x.config, k, out, force), HeartbeatDue(x.config, k));
            |v.stepped| + if |v.packets| + required > CAPACITY then 1 else 0
  {
    BundleWhole(x, v, k, step, out, force);
  }

  lemma ReleasedSteps<P>(x: Setting<P>, s: Station<P>, step: u32, health: bool, telemetry: bool)
    requires |s.voice.packets| <= CAPACITY
    ensures |Released(x, s, step, health, telemetry).voice.stepped| - |s.voice.stepped|
         == if Overflows(x, s, s.clocks.now, health, telemetry) then 2 else 1
  {
    var (v, out) := Stepped(x, s.voice, NextInput(x.config, s.clocks, s.waiting));
    assert s.clocks.(now := s.clocks.now) == s.clocks;
    BundleSteps(x, v, StepClocks(s.clocks, s.waiting != []), if s.waiting != [] then s.waiting[0].packetStep else step,
                out, health);
  }

  /** Main result on ticks: a tick steps the core not at all, once, or twice: twice exactly if it is due, its step is
      reported, and the bundle does not fit the transmit queue. */
  lemma TickSteps<P>(x: Setting<P>, s: Station<P>, now: u32, step: u32, control: bool, health: bool, telemetry: bool)
    requires |s.voice.packets| <= CAPACITY
    ensures |Ticked(x, s, now, step, control, health, telemetry).voice.stepped| - |s.voice.stepped|
         == if !Steps(s, now, control) then 0
            else if Overflows(x, Clocked(s, now, step), now, health, telemetry) then 2 else 1
  {
    ReleasedSteps(x, Clocked(s, now, step), step, health, telemetry);
  }

  /** A packet that stops the core at once: an admitted, latching stop. */
  predicate StopsNow<P>(x: Setting<P>, s: Station<P>, p: Packets.Packet) {
    && p.messageType == SAFE_STOP && x.codecs.latch(p.payload) == Some(true)
    && Sequence.Judge(s.progress, x.window, p.sequence, None).0.accepted
  }

  lemma HaltedSteps<P>(x: Setting<P>, v: Voice<P>, k: Clocks, step: u32)
    requires |v.packets| <= CAPACITY
    ensures var n := |Halted(x, v, k, step).0.stepped| - |v.stepped|; n == 1 || n == 2
  {
    var (w, out) := Stepped(x, v, K.Input(k.now, x.config.nominalDt, None, true));
    BundleSteps(x, w, k.(lastCoreStep := k.now), step, out, true);
  }

  /** Outside ticks only such a packet steps the core, once, or twice if its report does not fit the queue. */
  lemma PacketSteps<P>(x: Setting<P>, s: Station<P>, p: Packets.Packet)
    requires Fitting(x.codecs) && |s.trackers| == Intake.SENSORS && |s.voice.packets| <= CAPACITY
    ensures var n := |PacketHandled(x, s, p).voice.stepped| - |s.voice.stepped|;
            if StopsNow(x, s, p) then n == 1 || n == 2 else n == 0
  {
    if StopsNow(x, s, p) {
      HaltedSteps(x, s.voice, Counted(s, p.step).clocks, p.step);
    }
  }

  /** Only a control release at a new millisecond inside a session does anything; it takes the oldest waiting frame. */
  lemma TickTakes<P>(x: Setting<P>, s: Station<P>, now: u32, step: u32, control: bool, health: bool, telemetry: bool)
    ensures var t := Ticked(x, s, now, step, control, health, telemetry);
            var due := s.active && control && now != s.clocks.lastCoreStep;
            && t.waiting == (if due && s.waiting != [] then s.waiting[1..] else s.waiting)
            && t.clocks.lastCoreStep == (if due then now else s.clocks.lastCoreStep)
            && (!due ==> t == s.(clocks := s.clocks.(now := now, lastStepId := step)))
            && t.trackers == s.trackers && t.progress == s.progress && t.route == s.route && t.active == s.active
  {
  }

  function Noise(n: nat): seq<Stream.Event> {
    seq(n, _ => Stream.Oversized)
  }

  lemma {:induction false} NoiseFills<P>(x: Setting<P>, s: Station<P>, n: nat)
    requires Fitting(x.codecs) && |s.trackers| == Intake.SENSORS && |s.voice.packets| + n <= CAPACITY
    requires forall m {:trigger x.codecs.payload(m)} :: x.codecs.payload(m).Some?
    ensures var t := EventsHandled(x, s, Noise(n));
            && |t.voice.packets| == |s.voice.packets| + n && t.voice.stepped == s.voice.stepped && t.active == s.active
            && t.clocks == s.clocks && t.waiting == s.waiting && t.voice.core == s.voice.core
  {
    if n > 0 {
      NoiseFills(x, s, n - 1);
      assert Noise(n)[..n - 1] == Noise(n - 1);
    }
  }

  /** A run that does it: an accepted HELLO and seven unreadable frames fill the queue with the acknowledgement and
      seven error reports, and the next tick with health due steps the core twice in its millisecond. */
  lemma SevenBadFramesStepTwice<P>(x: Setting<P>, hello: Packets.Packet, now: u32, later: u32)
    requires Fitting(x.codecs) && hello.messageType == HELLO && HelloAnswer(x.codecs.hello(hello.payload)) == HelloOk
    requires forall m {:trigger x.codecs.payload(m)} :: x.codecs.payload(m).Some?
    requires now != later
    ensures var full := Run(x, Begun(x, now), [Bytes(now, [Stream.Received(hello)]), Bytes(now, Noise(7))]);
            && |full.voice.packets| == CAPACITY && full.voice.stepped == []
            && |Next(x, full, Clock(later, 0, true, true, false)).voice.stepped| == 2
  {
    var s := Begun(x, now);
    var opening, noise := Bytes(now, [Stream.Received(hello)]), Bytes(now, Noise(7));
    var ready := Next(x, s, opening);
    assert [Stream.Received(hello)][..0] == [];
    assert EventsHandled(x, s, [Stream.Received(hello)]) == PacketHandled(x, s, hello);
    assert [opening, noise][..1] == [opening] && [opening][..0] == [];
    assert Run(x, s, [opening]) == ready;
    assert Run(x, s, [opening, noise]) == Next(x, ready, noise);
    NoiseFills(x, ready.(clocks := ready.clocks.(now := now)), 7);
    TickSteps(x, Next(x, ready, noise), later, 0, true, true, false);
  }

  // ------------------------------------------------------- HELLO

  /** Main result on HELLO: the packet that opens a session leaves a link that does not depend on what came before: the
      acknowledgement with number 0 is all that waits, nothing heard before is left but the sample steps, and the
      safety state is what it was. A refused HELLO only answers. */
  lemma HelloForgets<P(!new)>(x: Setting<P>, fine: P -> bool, s: Station<P>, p: Packets.Packet)
    requires Governed(x, fine) && StationSound(x, fine, s) && p.messageType == HELLO
    ensures var t, status := PacketHandled(x, s, p), HelloAnswer(x.codecs.hello(p.payload));
            if status == HelloOk then
              && t.active && t.waiting == [] && t.route == Assembly.State(0, 0, []) && t.trackers == s.trackers
              && t.progress == Sequence.Seen(p.sequence, p.sequence, 1, None)
              && t.voice.packets == PacketsOf(x.codecs, [HelloAck(HelloOk)], 0, p.step) &&
                 t.voice.serial == |t.voice.packets|
              && x.plant.state(t.voice.core) == x.plant.state(s.voice.core) && t.voice.stepped == s.voice.stepped
            else
              && t.active == s.active && t.waiting == s.waiting && t.route == s.route && t.trackers == s.trackers
              && t.progress == s.progress && t.voice == Said(x, s.voice, HelloAck(status), p.step)
  {
    assert [HelloAck(HelloOk)][1..] == [];
    assert PacketsOf(x.codecs, [], 1, p.step) == [] && PacketsOf(x.codecs, [], 0, p.step) == [];
  }

  // ------------------------------------------------------- repeated packets

  /** No handler of an admitted packet touches the sequence account or closes the session. */
  lemma DispatchedKeepsAccount<P>(x: Setting<P>, s: Station<P>, p: Packets.Packet)
    requires Fitting(x.codecs) && |s.trackers| == Intake.SENSORS
    ensures Dispatched(x, s, p).progress == s.progress && Dispatched(x, s, p).active == s.active
  {
  }

  /** Main result on retransmission: inside a session a packet that arrives again right away changes nothing, whether it
      was admitted the first time or not; and so does a repeated stop before one. */
  lemma RepeatChangesNothing<P>(x: Setting<P>, s: Station<P>, p: Packets.Packet)
    requires Fitting(x.codecs) && |s.trackers| == Intake.SENSORS && Sequence.Plausible(s.progress)
    requires p.messageType != HELLO && (s.active || p.messageType == SAFE_STOP)
    ensures var t := PacketHandled(x, s, p);
            |t.trackers| == Intake.SENSORS && PacketHandled(x, t, p) == t
  {
    var (seen, progress) := Sequence.Judge(s.progress, x.window, p.sequence, StepOf(p));
    Sequence.JudgeKeepsAccount(s.progress, x.window, p.sequence, StepOf(p));
    if seen.accepted {
      DispatchedKeepsAccount(x, Counted(s, p.step).(progress := progress), p);
    }
  }

  lemma {:induction false} EventsInParts<P>(x: Setting<P>, s: Station<P>, a: seq<Stream.Event>, b: seq<Stream.Event>)
    requires Fitting(x.codecs) && |s.trackers| == Intake.SENSORS
    ensures EventsHandled(x, s, a + b) == EventsHandled(x, EventsHandled(x, s, a), b)
    decreases |b|
  {
    if b == [] {
      assert a + b == a;
    } else {
      assert (a + b)[..|a + b| - 1] == a + b[..|b| - 1];
      EventsInParts(x, s, a, b[..|b| - 1]);
    }
  }

  // ------------------------------------------------------- before the first HELLO

  /** No report in these is an accepted HELLO. */
  predicate Unopened(codecs: Codecs, es: seq<Stream.Event>) {
    forall k :: 0 <= k < |es| && es[k].Received? && es[k].packet.messageType == HELLO ==>
      HelloAnswer(codecs.hello(es[k].packet.payload)) != HelloOk
  }

  /** Nothing heard but stops, and every command since the n-th message a safe stop. */
  predicate Quiet<P>(before: Station<P>, s: Station<P>, n: nat) {
    && !s.active && s.waiting == before.waiting && s.route == before.route && s.trackers == before.trackers
    && StopsSince(s.voice.history.sent, n)
  }

  lemma SaidStops<P>(x: Setting<P>, v: Voice<P>, m: Message, step: u32, n: nat)
    requires StopsSince(v.history.sent, n) && (m.ControlCommand? ==> IsSafeStop(m))
    ensures StopsSince(Said(x, v, m, step).history.sent, n)
  {
    assert (v.history.sent + [m])[..|v.history.sent|] == v.history.sent;
  }

  lemma {:induction false} SaidAllStops<P>(x: Setting<P>, v: Voice<P>, ms: seq<Message>, step: u32, n: nat)
    requires StopsSince(v.history.sent, n) && forall i :: 0 <= i < |ms| && ms[i].ControlCommand? ==> IsSafeStop(ms[i])
    ensures StopsSince(SaidAll(x, v, ms, step).history.sent, n)
    decreases |ms|
  {
    if ms != [] {
      SaidStops(x, v, ms[0], step, n);
      SaidAllStops(x, Said(x, v, ms[0], step), ms[1..], step, n);
    }
  }

  lemma StopHandledStops<P(!new)>(x: Setting<P>, fine: P -> bool, s: Station<P>, p: Packets.Packet, n: nat)
    requires Governed(x, fine) && StationSound(x, fine, s) && StopsSince(s.voice.history.sent, n)
    ensures StopsSince(StopHandled(x, s, p).voice.history.sent, n)
  {
    SaidStops(x, s.voice.(errors := Wrap(s.voice.errors + 1)), ErrorReport(BadPayload, 0, p.sequence), p.step, n);
    if x.codecs.latch(p.payload) == Some(true) {
      var k := s.clocks.(lastCoreStep := s.clocks.now);
      var i := K.Input(k.now, x.config.nominalDt, None, true);
      SteppedSound(x, fine, s.voice, i);
      var (v, out) := Stepped(x, s.voice, i);
      var health, heartbeat := HealthDue(x.config, k, out, true), HeartbeatDue(x.config, k);
      ReservedSound(x, fine, v, k.now, Required(health, heartbeat), out);
      var (u, effective) := Reserved(x, v, k.now, Required(health, heartbeat), out);
      var shown := health || |v.packets| + Required(health, heartbeat) > CAPACITY;
      BundleSayable(x.plant.state(u.core), effective, shown, heartbeat);
      SaidAllStops(x, u, Bundle(effective, shown, heartbeat), p.step, n);
    }
  }

  lemma EventQuiet<P(!new)>(x: Setting<P>, fine: P -> bool, before: Station<P>, s: Station<P>, e: Stream.Event, n: nat)
    requires Governed(x, fine) && StationSound(x, fine, s) && Quiet(before, s, n) && Unopened(x.codecs, [e])
    ensures Quiet(before, EventHandled(x, s, e), n)
  {
    if e.Received? {
      var p := e.packet;
      assert [e][0] == e;
      SaidStops(x, s.voice, HelloAck(HelloAnswer(x.codecs.hello(p.payload))), p.step, n);
      SaidStops(x, s.voice.(errors := Wrap(s.voice.errors + 1)), ErrorReport(NotReady, p.messageType, p.sequence),
                p.step, n);
      if p.messageType == SAFE_STOP {
        var progress := Sequence.Judge(s.progress, x.window, p.sequence, StepOf(p)).1;
        StopHandledStops(x, fine, Counted(s, p.step).(progress := progress), p, n);
      }
    } else if e.Rejected? || e.Oversized? {
      var status := if e.Rejected? then e.status else Packets.OversizedFrame;
      SaidStops(x, s.voice.(errors := Wrap(s.voice.errors + 1)), ErrorReport(BadPayload, StatusCode(status), 0),
                s.clocks.lastStepId, n);
    }
  }

  lemma {:induction false} EventsQuiet<P(!new)>(x: Setting<P>, fine: P -> bool, before: Station<P>, s: Station<P>,
                                                es: seq<Stream.Event>, n: nat)
    requires Governed(x, fine) && StationSound(x, fine, s) && Quiet(before, s, n) && Unopened(x.codecs, es)
    ensures Quiet(before, EventsHandled(x, s, es), n)
  {
    if es != [] {
      var init := es[..|es| - 1];
      EventsQuiet(x, fine, before, s, init, n);
      EventsSound(x, fine, s, init);
      EventQuiet(x, fine, before, EventsHandled(x, s, init), es[|es| - 1], n);
    }
  }

  /** Main result on silence: as long as no HELLO has been accepted, on every run no route, no sensor frame and no tick
      has any effect, and every command sent is a safe stop. */
  lemma {:induction false} SilentBeforeHello<P(!new)>(x: Setting<P>, fine: P -> bool, s: Station<P>, inputs: seq<Input>)
    requires Governed(x, fine) && StationSound(x, fine, s) && !s.active
    requires forall k :: 0 <= k < |inputs| && inputs[k].Bytes? ==> Unopened(x.codecs, inputs[k].events)
    ensures Quiet(s, Run(x, s, inputs), |s.voice.history.sent|)
  {
    if inputs != [] {
      var init, i := inputs[..|inputs| - 1], inputs[|inputs| - 1];
      var t := Run(x, s, init);
      SilentBeforeHello(x, fine, s, init);
      RunStaysSound(x, fine, s, init);
      if i.Bytes? {
        EventsQuiet(x, fine, s, t.(clocks := t.clocks.(now := i.now)), i.events, |s.voice.history.sent|);
      }
    }
  }
}
