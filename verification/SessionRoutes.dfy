/** How a route gets from the packets of the session in src/firmware_session.cpp into the core, and that nothing else
    changes the route there. */
module SessionRoutes {
  import K = Core
  import R = Route
  import Assembly
  import Intake
  import Packets
  import Sequence
  import Stream
  import opened Session
  import opened SessionEffects
  import opened SessionFrames
  import opened SessionRuns
  import opened SessionSteps
  import opened Words

  /** A route chunk that counts: inside a session, with a newer number. */
  predicate Counts<P>(x: Setting<P>, s: Station<P>, p: Packets.Packet) {
    s.active && p.messageType == ROUTE_CHUNK && Sequence.Judge(s.progress, x.window, p.sequence, None).0.accepted
  }

  // ------------------------------------------------------- from the packets to the core

  /** Each of these counts after the ones before it. */
  predicate Newer(progress: Sequence.Progress, window: u32, packets: seq<Packets.Packet>)
    decreases |packets|
  {
    packets == [] ||
    (packets[0].messageType == ROUTE_CHUNK && Sequence.Judge(progress, window, packets[0].sequence, None).0.accepted &&
     Newer(Sequence.Judge(progress, window, packets[0].sequence, None).1, window, packets[1..]))
  }

  function Receipts(packets: seq<Packets.Packet>): (es: seq<Stream.Event>)
    ensures |es| == |packets| && forall i :: 0 <= i < |es| ==> es[i] == Stream.Received(packets[i])
  {
    seq(|packets|, i requires 0 <= i < |packets| => Stream.Received(packets[i]))
  }

  /** A chunk that counts and is stored, or completes a route the core accepts. */
  lemma ChunkHandled<P>(x: Setting<P>, s: Station<P>, p: Packets.Packet)
    requires Fitting(x.codecs) && |s.trackers| == Intake.SENSORS && Counts(x, s, p)
    ensures var t, (b, o) := PacketHandled(x, s, p), Assembly.Assemble(x.plant.accepts, s.route, p.payload);
            && t.active && t.route == b && t.progress == Sequence.Judge(s.progress, x.window, p.sequence, None).1
            && (o.Stored? ==> t.voice == s.voice)
            && (o.Activated? ==> t.voice == s.voice.(core := x.plant.route(s.voice.core, o.route)))
  {
  }

  /** Whatever came before: if the payloads are stored one after the other and the last completes a route, that route
      is in the core afterwards, and nothing has been said or stepped. */
  lemma {:induction false} RouteDelivered<P>(x: Setting<P>, s: Station<P>, packets: seq<Packets.Packet>,
                                             payloads: seq<seq<byte>>, points: seq<R.Waypoint>)
    requires Fitting(x.codecs) && |s.trackers| == Intake.SENSORS && s.active && Newer(s.progress, x.window, packets)
    requires |packets| == |payloads| && forall i :: 0 <= i < |packets| ==> packets[i].payload == payloads[i]
    requires Assembly.StoredThenActive(Assembly.Deliver(x.plant.accepts, s.route, payloads).1, points)
    ensures EventsHandled(x, s, Receipts(packets)).voice == s.voice.(core := x.plant.route(s.voice.core, points))
    decreases |packets|
  {
    var p, t := packets[0], PacketHandled(x, s, packets[0]);
    var (b, o) := Assembly.Assemble(x.plant.accepts, s.route, p.payload);
    var os := Assembly.Deliver(x.plant.accepts, s.route, payloads).1;
    var rest := Assembly.Deliver(x.plant.accepts, b, payloads[1..]).1;
    assert os == [o] + rest;
    ChunkHandled(x, s, p);
    FirstEvent(x, s, packets);
    if |packets| == 1 {
      assert packets[1..] == [] && os[|os| - 1] == o;
    } else {
      assert os[0] == Assembly.Stored;
      assert forall i :: 0 <= i < |rest| - 1 ==> rest[i] == os[i + 1];
      RouteDelivered(x, t, packets[1..], payloads[1..], points);
    }
  }

  lemma FirstEvent<P>(x: Setting<P>, s: Station<P>, packets: seq<Packets.Packet>)
    requires Fitting(x.codecs) && |s.trackers| == Intake.SENSORS && packets != []
    ensures |PacketHandled(x, s, packets[0]).trackers| == Intake.SENSORS
    ensures EventsHandled(x, s, Receipts(packets))
         == EventsHandled(x, PacketHandled(x, s, packets[0]), Receipts(packets[1..]))
  {
    var e := Stream.Received(packets[0]);
    assert Receipts(packets) == [e] + Receipts(packets[1..]);
    EventsInParts(x, s, [e], Receipts(packets[1..]));
    assert [e][..0] == [];
    assert EventsHandled(x, s, [e]) == EventHandled(x, s, e);
  }

  // ------------------------------------------------------- and in no other way

  /** What the core carries is changed by routes alone: an accepted one replaces it, a refused one does not. */
  ghost predicate Carries<P(!new),
      L(!new)>(plant: Plant<P>, fine: P -> bool, load: P -> L, loaded: seq<R.Waypoint> -> L) {
    && (forall p, i {:trigger plant.step(p, i)} :: fine(p) ==> load(plant.step(p, i).0) == load(p))
    && (forall p, now {:trigger plant.heard(p, now)} :: fine(p) ==> load(plant.heard(p, now)) == load(p))
    && (forall p {:trigger plant.overflow(p)} :: fine(p) ==> load(plant.overflow(p)) == load(p))
    && (forall p, ws {:trigger plant.route(p, ws)} :: fine(p) ==>
          load(plant.route(p, ws)) == if plant.accepts(ws) then loaded(ws) else load(p))
  }

  /** The route a report completes. */
  function Completed<P>(x: Setting<P>, s: Station<P>, e: Stream.Event): Option<seq<R.Waypoint>> {
    if e.Received? && Counts(x, s, e.packet) then
      match Assembly.Assemble(x.plant.accepts, s.route, e.packet.payload).1
      case Activated(points) => Some(points)
      case _ => None
    else None
  }

  lemma SaidCarries<P(!new), L(!new)>(x: Setting<P>, fine: P -> bool, load: P -> L, loaded: seq<R.Waypoint> -> L,
                                      v: Voice<P>, m: Message, step: u32)
    requires Carries(x.plant, fine, load, loaded) && fine(v.core)
    ensures load(Said(x, v, m, step).core) == load(v.core)
  {
  }

  lemma ControlledCarries<P(!new), L(!new)>(x: Setting<P>, fine: P -> bool, load: P -> L, loaded: seq<R.Waypoint> -> L,
                                            v: Voice<P>, k: Clocks, step: u32, out: K.Output, force: bool)
    requires Governed(x, fine) && Carries(x.plant, fine, load, loaded) && Sound(x, fine, v)
    ensures load(Controlled(x, v, k, step, out, force).0.core) == load(v.core)
  {
    SafeInput(x, v, k, step, out, force);
    OverflowedSound(x, fine, v);
  }

  lemma HaltedCarries<P(!new), L(!new)>(x: Setting<P>, fine: P -> bool, load: P -> L, loaded: seq<R.Waypoint> -> L,
                                        v: Voice<P>, k: Clocks, step: u32)
    requires Governed(x, fine) && Carries(x.plant, fine, load, loaded) && Sound(x, fine, v)
    ensures load(Halted(x, v, k, step).0.core) == load(v.core)
  {
    var i := K.Input(k.now, x.config.nominalDt, None, true);
    var (w, out) := Stepped(x, v, i);
    SteppedSound(x, fine, v, i);
    ControlledCarries(x, fine, load, loaded, w, k.(lastCoreStep := k.now), step, out, true);
  }

  lemma RouteCarries<P(!new), L(!new)>(x: Setting<P>, fine: P -> bool, load: P -> L, loaded: seq<R.Waypoint> -> L,
                                       s: Station<P>, p: Packets.Packet)
    requires Governed(x, fine) && Carries(x.plant, fine, load, loaded) && StationSound(x, fine, s)
    ensures load(RouteHandled(x, s, p).voice.core)
         == match Assembly.Assemble(x.plant.accepts, s.route, p.payload).1
            case Activated(points) => loaded(points)
            case _ => load(s.voice.core)
  {
    var o := Assembly.Assemble(x.plant.accepts, s.route, p.payload).1;
    AcceptedOrNot(x.plant.accepts, s.route, p.payload);
    var core := if o.Activated? || o.Refused? then x.plant.route(s.voice.core, o.route) else s.voice.core;
    assert fine(core);
  }

  lemma AcceptedOrNot(accept: seq<R.Waypoint> -> bool, a: Assembly.State, payload: seq<byte>)
    ensures var o := Assembly.Assemble(accept, a, payload).1;
            (o.Activated? ==> accept(o.route)) && (o.Refused? ==> !accept(o.route))
  {
  }

  lemma DispatchedCarries<P(!new), L(!new)>(x: Setting<P>, fine: P -> bool, load: P -> L, loaded: seq<R.Waypoint> -> L,
                                            s: Station<P>, p: Packets.Packet)
    requires Governed(x, fine) && Carries(x.plant, fine, load, loaded) && StationSound(x, fine, s)
    requires p.messageType != ROUTE_CHUNK
    ensures load(Dispatched(x, s, p).voice.core) == load(s.voice.core)
  {
    if p.messageType == SENSOR_FRAME {
      OverflowedSound(x, fine, s.voice);
    } else if p.messageType == SAFE_STOP {
      HaltedCarries(x, fine, load, loaded, s.voice, s.clocks, p.step);
    }
  }

  /** Main result on one report: the core's route is replaced exactly by a completed, accepted one. */
  lemma EventCarries<P(!new), L(!new)>(x: Setting<P>, fine: P -> bool, load: P -> L, loaded: seq<R.Waypoint> -> L,
                                       s: Station<P>, e: Stream.Event)
    requires Governed(x, fine) && Carries(x.plant, fine, load, loaded) && StationSound(x, fine, s)
    ensures load(EventHandled(x, s, e).voice.core)
         == var done := Completed(x, s, e); if done.Some? then loaded(done.value) else load(s.voice.core)
  {
    if e.Received? && (s.active || e.packet.messageType == SAFE_STOP) && e.packet.messageType != HELLO {
      var p := e.packet;
      Sequence.JudgeKeepsAccount(s.progress, x.window, p.sequence, StepOf(p));
      var c := Counted(s, p.step).(progress := Sequence.Judge(s.progress, x.window, p.sequence, StepOf(p)).1);
      if p.messageType == ROUTE_CHUNK {
        RouteCarries(x, fine, load, loaded, c, p);
      } else {
        DispatchedCarries(x, fine, load, loaded, c, p);
      }
    } else if e.Received? && e.packet.messageType == HELLO {
      HelloCarries(x, fine, load, loaded, Counted(s, e.packet.step), e.packet);
    }
  }

  lemma HelloCarries<P(!new), L(!new)>(x: Setting<P>, fine: P -> bool, load: P -> L, loaded: seq<R.Waypoint> -> L,
                                       s: Station<P>, p: Packets.Packet)
    requires Governed(x, fine) && Carries(x.plant, fine, load, loaded) && StationSound(x, fine, s)
    ensures load(HelloHandled(x, s, p).voice.core) == load(s.voice.core)
  {
    var status := HelloAnswer(x.codecs.hello(p.payload));
    var t := if status == HelloOk then Opened(x, s, p.sequence) else s;
    SaidCarries(x, fine, load, loaded, t.voice, HelloAck(status), p.step);
  }

  lemma TickedCarries<P(!new), L(!new)>(x: Setting<P>, fine: P -> bool, load: P -> L, loaded: seq<R.Waypoint> -> L,
                                        s: Station<P>, now: u32, step: u32, control: bool, health: bool,
                                            telemetry: bool)
    requires Governed(x, fine) && Carries(x.plant, fine, load, loaded) && StationSound(x, fine, s)
    ensures load(Ticked(x, s, now, step, control, health, telemetry).voice.core) == load(s.voice.core)
  {
    var c := Clocked(s, now, step);
    var i := NextInput(x.config, c.clocks, c.waiting);
    var (v, out) := Stepped(x, s.voice, i);
    SteppedSound(x, fine, s.voice, i);
    ControlledCarries(x, fine, load, loaded, v, StepClocks(c.clocks, c.waiting != []),
                      if c.waiting != [] then c.waiting[0].packetStep else step, out, health);
  }

  /** The last route completed by these reports, or what was carried before. */
  function LastCompleted<P, L>(x: Setting<P>, loaded: seq<R.Waypoint> -> L, s: Station<P>, es: seq<Stream.Event>,
                               l: L): L
    requires Fitting(x.codecs) && |s.trackers| == Intake.SENSORS
  {
    if es == [] then l
    else
      var init := es[..|es| - 1];
      var done := Completed(x, EventsHandled(x, s, init), es[|es| - 1]);
      if done.Some? then loaded(done.value) else LastCompleted(x, loaded, s, init, l)
  }

  function LastRoute<P, L>(x: Setting<P>, loaded: seq<R.Waypoint> -> L, s: Station<P>, inputs: seq<Input>, l: L): L
    requires Fitting(x.codecs) && |s.trackers| == Intake.SENSORS
  {
    if inputs == [] then l
    else
      var init, i := inputs[..|inputs| - 1], inputs[|inputs| - 1];
      var t, before := Run(x, s, init), LastRoute(x, loaded, s, init, l);
      if i.Bytes? then LastCompleted(x, loaded, t.(clocks := t.clocks.(now := i.now)), i.events, before) else before
  }

  lemma {:induction false} EventsCarry<P(!new), L(!new)>(x: Setting<P>, fine: P -> bool, load: P -> L,
                                                         loaded: seq<R.Waypoint> -> L, s: Station<P>,
                                                         es: seq<Stream.Event>)
    requires Governed(x, fine) && Carries(x.plant, fine, load, loaded) && StationSound(x, fine, s)
    ensures load(EventsHandled(x, s, es).voice.core) == LastCompleted(x, loaded, s, es, load(s.voice.core))
  {
    if es != [] {
      var init := es[..|es| - 1];
      EventsCarry(x, fine, load, loaded, s, init);
      EventsSound(x, fine, s, init);
      EventCarries(x, fine, load, loaded, EventsHandled(x, s, init), es[|es| - 1]);
    }
  }

  /** Main result on runs: the core carries the last route that a chunk completed and the core accepted; ticks, stops,
      other packets, refused chunks and refused routes leave it alone. */
  lemma {:induction false} RunCarries<P(!new), L(!new)>(x: Setting<P>, fine: P -> bool, load: P -> L,
                                                        loaded: seq<R.Waypoint> -> L, s: Station<P>, inputs: seq<Input>)
    requires Governed(x, fine) && Carries(x.plant, fine, load, loaded) && StationSound(x, fine, s)
    ensures load(Run(x, s, inputs).voice.core) == LastRoute(x, loaded, s, inputs, load(s.voice.core))
  {
    if inputs != [] {
      var init, i := inputs[..|inputs| - 1], inputs[|inputs| - 1];
      RunCarries(x, fine, load, loaded, s, init);
      RunStaysSound(x, fine, s, init);
      var t := Run(x, s, init);
      match i
      case Bytes(now, events) => EventsCarry(x, fine, load, loaded, t.(clocks := t.clocks.(now := now)), events);
      case Clock(now, step, control, health, telemetry) =>
        TickedCarries(x, fine, load, loaded, t, now, step, control, health, telemetry);
      case Transmit =>
    }
  }
}
