/** The class FirmwareSession of src/firmware_session.cpp takes exactly the steps of SessionSteps. */
module FirmwareSessions {
  import K = Core
  import Assembly
  import Intake
  import Packets
  import Scheduler
  import Sequence
  import Stream
  import Transmit
  import opened Modes
  import opened Session
  import opened SessionSteps
  import opened Words

  class FirmwareSession<P(!new)> {
    const x: Setting<P>
    const tx: Transmit.TxPath
    const intake: Intake.SensorIntake
    const sequence: Sequence.SequenceTracker
    const routes: Assembly.RouteAssembler
    var core: P
    var active: bool
    var clocks: Clocks
    var packetsHandled: u32
    var applicationErrors: u32
    ghost var history: History
    ghost var stepped: seq<K.Input>
    ghost var kept: seq<K.Frame>

    ghost predicate TxOk()
      reads tx, tx.queue, tx.queue.storage
    {
      tx.Valid() && tx.encode == Transmit.FrameBytes && Fitting(x.codecs)
    }

    /** What every call keeps. */
    ghost predicate Valid()
      reads this, sequence, routes, tx, tx.queue, tx.queue.storage, intake, intake.queue, intake.queue.storage,
            intake.trackers
    {
      && TxOk() && intake.Valid() && sequence.Valid() && routes.Valid()
      && intake.maxLag == x.config.maxLag && routes.accept == x.plant.accepts && sequence.window == x.window
    }

    ghost function Speech(): Voice<P>
      reads this`core, this`history, this`stepped, this`applicationErrors, tx
    {
      Voice(core, history, stepped, applicationErrors, tx.packets, tx.serial)
    }

    ghost function Now(): (s: Station<P>)
      reads this, sequence, routes, tx, tx.queue, tx.queue.storage, intake, intake.queue, intake.queue.storage,
            intake.trackers,
            routes.route
      requires Valid()
      ensures |s.trackers| == Intake.SENSORS && Sequence.Plausible(s.progress)
    {
      Station(Speech(), active, clocks, packetsHandled, intake.queue.contents, intake.trackers[..], sequence.progress,
              routes.Value(), kept)
    }

    /** reset */
    constructor (x: Setting<P>, now: u32)
      requires ValidConfig(x.config) && Fitting(x.codecs) && x.window == 32
      ensures fresh(tx) && fresh(tx.queue) && fresh(tx.queue.storage) && fresh(sequence) && fresh(routes) &&
              fresh(routes.route)
      ensures fresh(intake) && fresh(intake.queue) && fresh(intake.queue.storage) && fresh(intake.trackers)
      ensures Valid() && this.x == x && Now() == Begun(x, now)
    {
      this.x := x;
      tx := new Transmit.TxPath(Transmit.FrameBytes);
      intake := new Intake.SensorIntake(x.config.maxLag);
      sequence := new Sequence.SequenceTracker(32);
      routes := new Assembly.RouteAssembler(x.plant.accepts);
      core, active := x.plant.begin(now), false;
      clocks := Clocks(now, 0, now, false, now, now, now, Startup);
      packetsHandled, applicationErrors, history, stepped, kept := 0, 0, History([], None), [], [];
      new;
      assert intake.trackers[..] == Begun(x, now).trackers;
    }

    // ----------------------------------------------------- saying something

    /** record_queue_overflow */
    method OverflowCore()
      modifies this`core, this`history
      ensures Speech() == Overflowed(x, old(Speech()))
    {
      core := x.plant.overflow(core);
      history := Noted(history, x.plant.state(core));
    }

    /** emit_payload, enqueue */
    method Emit(m: Message, step: u32)
      requires TxOk()
      modifies this`core, this`history, tx, tx.queue, tx.queue.storage
      ensures TxOk() && Speech() == Said(x, old(Speech()), m, step) && tx.popped == old(tx.popped)
    {
      var payload := x.codecs.payload(m);
      if payload.None? {
        return;
      }
      var overflowed := Transmit.EmitPayload(tx, TypeOf(m), step, payload.value);
      if overflowed {
        OverflowCore();
      }
      history := history.(sent := history.sent + [m]);
    }

    method EmitError(step: u32, code: ErrorCode, detail: u16, related: u32)
      requires TxOk()
      modifies this`core, this`history, this`applicationErrors, tx, tx.queue, tx.queue.storage
      ensures TxOk() && Speech() == Erred(x, old(Speech()), step, code, detail, related) && tx.popped == old(tx.popped)
    {
      applicationErrors := Wrap(applicationErrors + 1);
      Emit(ErrorReport(code, detail, related), step);
    }

    /** One step of the core. */
    method StepCore(i: K.Input) returns (out: K.Output)
      modifies this`core, this`history, this`stepped
      ensures (Speech(), out) == Stepped(x, old(Speech()), i)
    {
      var r := x.plant.step(core, i);
      core, out := r.0, r.1;
      history := Noted(history, x.plant.state(core));
      stepped := stepped + [i];
    }

    /** reserve_controller_bundle, and the second step of the core if the backlog is lost. */
    method Reserve(required: nat, out: K.Output) returns (ok: bool, effective: K.Output)
      requires TxOk() && required <= Transmit.CAPACITY
      modifies this`core, this`history, this`stepped, tx, tx.queue, tx.queue.storage
      ensures TxOk() && ok == (|old(tx.packets)| + required <= Transmit.CAPACITY) && tx.popped == old(tx.popped)
      ensures (Speech(), effective) == Reserved(x, old(Speech()), clocks.now, required, out)
    {
      ok := tx.Reserve(required);
      effective := out;
      if !ok {
        OverflowCore();
        effective := StepCore(K.Input(clocks.now, x.config.nominalDt, None, false));
      }
    }

    /** emit_controller_output */
    method EmitControllerOutput(step: u32, out: K.Output, forceHealth: bool)
      requires TxOk()
      modifies this`core, this`history, this`stepped, this`clocks, tx, tx.queue, tx.queue.storage
      ensures TxOk() && tx.popped == old(tx.popped)
      ensures (Speech(), clocks) == Controlled(x, old(Speech()), old(clocks), step, out, forceHealth)
    {
      var healthDue := forceHealth || out.safety != clocks.lastEmitted ||
                       Sub32(clocks.now, clocks.lastHealth) >= x.config.healthPeriod;
      var heartbeatDue := Sub32(clocks.now, clocks.lastHeartbeat) >= x.config.heartbeatPeriod;
      var ok, effective := Reserve(2 + (if healthDue then 1 else 0) + (if heartbeatDue then 1 else 0), out);
      if !ok {
        healthDue := true;
      }
      EmitBundle(effective, healthDue, heartbeatDue, step);
      Report(healthDue, heartbeatDue, effective.safety);
    }

    method Report(health: bool, heartbeat: bool, safety: SafetyState)
      modifies this`clocks
      ensures clocks == Reported(old(clocks), health, heartbeat, safety)
    {
      if health {
        clocks := clocks.(lastHealth := clocks.now, lastEmitted := safety);
      }
      if heartbeat {
        clocks := clocks.(lastHeartbeat := clocks.now);
      }
    }

    method EmitBundle(out: K.Output, health: bool, heartbeat: bool, step: u32)
      requires TxOk()
      modifies this`core, this`history, tx, tx.queue, tx.queue.storage
      ensures TxOk() && Speech() == SaidAll(x, old(Speech()), Bundle(out, health, heartbeat), step) &&
              tx.popped == old(tx.popped)
    {
      ghost var v0 := Speech();
      Emit(CommandMessage(out), step);
      ghost var v1 := Speech();
      Emit(StateEstimate(out.estimate, out.mode, out.healthy), step);
      ghost var v2 := Speech();
      if health {
        Emit(HealthStatus(out.safety, out.mode, out.healthy), step);
      }
      ghost var v3 := Speech();
      if heartbeat {
        Emit(Heartbeat(out.safety), step);
      }
      BundleSaid(x, v0, v1, v2, v3, Speech(), out, health, heartbeat, step);
    }

    // ----------------------------------------------------- hearing something

    /** An accepted HELLO empties both queues ... */
    method RestartQueues()
      requires Valid()
      modifies this`kept, tx, tx.queue, tx.queue.storage, intake`discardedCount, intake.queue
      ensures Valid() && tx.popped == old(tx.popped) && tx.dropped == old(tx.dropped) + |old(tx.packets)|
      ensures intake.discardedCount == old(intake.discardedCount) + |old(intake.queue.contents)|
      ensures Now() == old(Now()).(voice := old(Speech()).(packets := [], serial := 0), waiting := [],
                                   kept := Forgotten(old(kept), |old(intake.queue.contents)|))
    {
      kept := Forgotten(kept, |intake.queue.contents|);
      tx.Restart();
      intake.DiscardAll();
    }

    /** ... and forgets the peer's sequence space and its route under way. */
    method RestartPeer(peerSequence: u32)
      requires Valid()
      modifies sequence, routes`routeId, routes`expected, routes`received
      ensures Valid()
      ensures Now() == old(Now()).(progress := Sequence.Judge(Sequence.Nothing, x.window, peerSequence, None).1,
                                   route := Assembly.State(0, 0, []))
    {
      sequence.Reset(true);
      var _ := sequence.Observe(peerSequence, None);
      routes.Reset();
    }

    /** The accepting branch of handle_hello. */
    method Open(peerSequence: u32)
      requires Valid()
      modifies this`core, this`active, this`kept, tx, tx.queue, tx.queue.storage, intake`discardedCount, intake.queue,
               sequence,
               routes`routeId, routes`expected, routes`received
      ensures Valid() && Now() == Opened(x, old(Now()), peerSequence)
    {
      RestartQueues();
      RestartPeer(peerSequence);
      active := true;
      core := x.plant.heard(core, clocks.now);
    }

    /** handle_hello */
    method HandleHello(p: Packets.Packet)
      requires Valid()
      modifies this`core, this`history, this`active, this`kept, tx, tx.queue, tx.queue.storage, intake`discardedCount,
               intake.queue, sequence, routes`routeId, routes`expected, routes`received
      ensures Valid() && Now() == HelloHandled(x, old(Now()), p)
    {
      var status := HelloAnswer(x.codecs.hello(p.payload));
      if status == HelloOk {
        Open(p.sequence);
      }
      Emit(HelloAck(status), p.step);
    }

    /** An error answer. */
    method Complain(step: u32, code: ErrorCode, detail: u16, related: u32)
      requires Valid()
      modifies this`core, this`history, this`applicationErrors, tx, tx.queue, tx.queue.storage
      ensures Valid() && Now() == ErredAt(x, old(Now()), step, code, detail, related)
    {
      EmitError(step, code, detail, related);
    }

    /** handle_route */
    method HandleRoute(p: Packets.Packet)
      requires Valid() && |p.payload| <= Packets.MAX_PAYLOAD
      modifies this`core, this`history, this`applicationErrors, tx, tx.queue, tx.queue.storage, routes, routes.route
      ensures Valid() && Now() == RouteHandled(x, old(Now()), p)
    {
      var o := TakeChunk(p);
      if o.Rejected? {
        Complain(p.step, RouteRejected, RouteDetail(p.payload), p.sequence);
      } else if o.Refused? {
        Complain(p.step, RouteRejected, 0, p.sequence);
      }
    }

    /** The assembler, and the core when the route is complete. */
    method TakeChunk(p: Packets.Packet) returns (o: Assembly.Outcome)
      requires Valid() && |p.payload| <= Packets.MAX_PAYLOAD
      modifies this`core, routes, routes.route
      ensures Valid() && o == Assembly.Assemble(x.plant.accepts, old(routes.Value()), p.payload).1
      ensures Now() == Collected(x, old(Now()), p)
    {
      o := routes.HandleRoute(p.payload);
      if o.Activated? || o.Refused? {
        core := x.plant.route(core, o.route);
      }
    }

    /** handle_sensor */
    method HandleSensor(p: Packets.Packet)
      requires Valid()
      modifies this`core, this`history, this`applicationErrors, this`kept, tx, tx.queue, tx.queue.storage, intake,
               intake.queue, intake.queue.storage, intake.trackers
      ensures Valid() && Now() == SensorHandled(x, old(Now()), p)
    {
      var decoded := x.codecs.sensor(p.payload);
      if decoded.None? || Intake.Nothing(decoded.value) {
        Complain(p.step, BadPayload, 0, p.sequence);
        return;
      }
      var a := Offer(decoded.value, p.step);
      if a == Intake.Full {
        OverflowNow();
        Complain(p.step, InternalFault, Intake.CAPACITY, p.sequence);
      } else if a.Refused? {
        Complain(p.step, BadPayload, 0, p.sequence);
      }
    }

    method Offer(s: Intake.Sensor, step: u32) returns (a: Intake.Answer)
      requires Valid() && Intake.WellFormed(s)
      modifies this`kept, intake, intake.queue, intake.queue.storage, intake.trackers
      ensures Valid()
      ensures var old' := old(Now());
              && a == (var d := Intake.JudgeFrom(s, old'.trackers, step, x.config.maxLag, 0);
                       if d != K.Clean then Intake.Refused(d) else if |old'.waiting| == Intake.CAPACITY then Intake.Full
                       else Intake.Queued)
              && Now() == if a != Intake.Queued then old'
                          else old'.(waiting := old'.waiting + [Intake.Pending(s.frame, step)],
                                     trackers := Intake.Moved(old'.trackers, s.steps), kept := old'.kept + [s.frame])
    {
      a := intake.Offer(s, step);
      if a == Intake.Queued {
        kept := kept + [s.frame];
      }
    }

    method OverflowNow()
      requires Valid()
      modifies this`core, this`history
      ensures Valid() && Now() == old(Now()).(voice := Overflowed(x, old(Speech())))
    {
      OverflowCore();
    }

    /** handle_safe_stop */
    method HandleSafeStop(p: Packets.Packet)
      requires Valid()
      modifies this`core, this`history, this`stepped, this`clocks, this`applicationErrors, tx, tx.queue,
               tx.queue.storage
      ensures Valid() && Now() == StopHandled(x, old(Now()), p)
    {
      if x.codecs.latch(p.payload) == Some(true) {
        Stop(p.step);
      } else {
        Complain(p.step, BadPayload, 0, p.sequence);
      }
    }

    /** A step under a stop request, reported at once. */
    method Stop(step: u32)
      requires TxOk()
      modifies this`core, this`history, this`stepped, this`clocks, tx, tx.queue, tx.queue.storage
      ensures TxOk() && (Speech(), clocks) == Halted(x, old(Speech()), old(clocks), step)
    {
      clocks := clocks.(lastCoreStep := clocks.now);
      var out := StepCore(K.Input(clocks.now, x.config.nominalDt, None, true));
      EmitControllerOutput(step, out, true);
    }

    method HandleHeartbeat(p: Packets.Packet)
      requires Valid()
      modifies this`core, this`history, this`applicationErrors, tx, tx.queue, tx.queue.storage
      ensures Valid() && Now() == HeartbeatHandled(x, old(Now()), p)
    {
      if x.codecs.heartbeat(p.payload) {
        core := x.plant.heard(core, clocks.now);
      } else {
        Complain(p.step, BadPayload, 0, p.sequence);
      }
    }

    method Dispatch(p: Packets.Packet)
      requires Valid() && |p.payload| <= Packets.MAX_PAYLOAD
      modifies this`core, this`history, this`stepped, this`clocks, this`applicationErrors, this`kept, tx, tx.queue,
               tx.queue.storage, intake, intake.queue, intake.queue.storage, intake.trackers, routes, routes.route
      ensures Valid() && Now() == Dispatched(x, old(Now()), p)
    {
      if p.messageType == ROUTE_CHUNK {
        HandleRoute(p);
      } else if p.messageType == SENSOR_FRAME {
        HandleSensor(p);
      } else if p.messageType == SAFE_STOP {
        HandleSafeStop(p);
      } else if p.messageType == HEARTBEAT {
        HandleHeartbeat(p);
      } else {
        Complain(p.step, UnsupportedMessage, 0, p.sequence);
      }
    }

    method CountHandled(step: u32)
      requires Valid()
      modifies this`packetsHandled, this`clocks
      ensures Valid() && Now() == Counted(old(Now()), step)
    {
      packetsHandled := Wrap(packetsHandled + 1);
      clocks := clocks.(lastStepId := step);
    }

    /** handle_packet */
    method HandlePacket(p: Packets.Packet)
      requires Valid() && |p.payload| <= Packets.MAX_PAYLOAD
      modifies this, tx, tx.queue, tx.queue.storage, intake, intake.queue, intake.queue.storage, intake.trackers,
               sequence,
               routes, routes.route
      ensures Valid() && Now() == PacketHandled(x, old(Now()), p)
    {
      if p.messageType == HELLO {
        CountHandled(p.step);
        HandleHello(p);
      } else if !active && p.messageType != SAFE_STOP {
        CountHandled(p.step);
        Complain(p.step, NotReady, p.messageType, p.sequence);
      } else {
        var accepted := Observe(p);
        if accepted {
          Dispatch(p);
        }
      }
    }

    /** Only a newer packet moves the sequence account and is counted. */
    method Observe(p: Packets.Packet) returns (accepted: bool)
      requires Valid()
      modifies this`packetsHandled, this`clocks, sequence
      ensures Valid()
      ensures var old' := old(Now());
              var (seen, progress) := Sequence.Judge(old'.progress, x.window, p.sequence, StepOf(p));
              && accepted == seen.accepted
              && Now() == if accepted then Counted(old', p.step).(progress := progress) else old'
    {
      var seen := sequence.Observe(p.sequence, StepOf(p));
      accepted := seen.accepted;
      if accepted {
        CountHandled(p.step);
      } else {
        Sequence.JudgeKeepsAccount(old(sequence.progress), x.window, p.sequence, StepOf(p));
      }
    }

    /** packet_callback and parser_error_callback */
    method HandleEvent(e: Stream.Event)
      requires Valid() && Fits(e)
      modifies this, tx, tx.queue, tx.queue.storage, intake, intake.queue, intake.queue.storage, intake.trackers,
               sequence,
               routes, routes.route
      ensures Valid() && Now() == EventHandled(x, old(Now()), e)
    {
      match e
      case Received(p) => HandlePacket(p);
      case Rejected(status) => Complain(clocks.lastStepId, BadPayload, StatusCode(status), 0);
      case Oversized => Complain(clocks.lastStepId, BadPayload, StatusCode(Packets.OversizedFrame), 0);
      case EmptyDelimiter =>
      case Truncated =>
    }

    /** feed: whatever the bytes and their chunking, the reports the parser adds to its log are handled in order. */
    method Feed(parser: Stream.StreamParser, now: u32, data: seq<byte>)
      requires Valid() && parser.Valid() && parser.decode == Stream.DecoderOf(Stream.Firmware)
      modifies this, tx, tx.queue, tx.queue.storage, intake, intake.queue, intake.queue.storage, intake.trackers,
               sequence,
               routes, routes.route, parser, parser.encoded
      ensures Valid() && parser.Valid() && parser.stream == old(parser.stream) + data
      ensures |old(parser.log)| <= |parser.log| && Now() == Fed(x, old(Now()), now, parser.log[|old(parser.log)|..])
    {
      var events := Parse(parser, data);
      HandleAt(now, events);
    }

    method HandleAt(now: u32, events: seq<Stream.Event>)
      requires Valid() && forall k :: 0 <= k < |events| ==> Fits(events[k])
      modifies this, tx, tx.queue, tx.queue.storage, intake, intake.queue, intake.queue.storage, intake.trackers,
               sequence,
               routes, routes.route
      ensures Valid() && Now() == Fed(x, old(Now()), now, events)
    {
      clocks := clocks.(now := now);
      HandleAll(events);
    }

    method HandleAll(events: seq<Stream.Event>)
      requires Valid() && forall k :: 0 <= k < |events| ==> Fits(events[k])
      modifies this, tx, tx.queue, tx.queue.storage, intake, intake.queue, intake.queue.storage, intake.trackers,
               sequence,
               routes, routes.route
      ensures Valid() && Now() == EventsHandled(x, old(Now()), events)
    {
      for k := 0 to |events|
        invariant Valid() && Now() == EventsHandled(x, old(Now()), events[..k])
      {
        HandleEvent(events[k]);
        assert events[..k + 1][..k] == events[..k];
      }
      assert events[..|events|] == events;
    }

    // ----------------------------------------------------- a tick

    /** sensor_timestep: the measured interval if plausible, else the nominal one. */
    method SensorTimestep() returns (dt: real)
      requires ValidConfig(x.config)
      modifies this`clocks
      ensures clocks == old(clocks).(lastSensorFrame := clocks.now, haveSensorTime := true)
      ensures dt == SensorInterval(x.config, old(clocks)) && 0.0 < dt <= 0.25
    {
      dt := x.config.nominalDt;
      if clocks.haveSensorTime {
        var elapsed := Sub32(clocks.now, clocks.lastSensorFrame);
        if 0 < elapsed <= 250 {
          dt := elapsed as real * 0.001;
        }
      }
      clocks := clocks.(lastSensorFrame := clocks.now, haveSensorTime := true);
    }

    /** The input of a control release. */
    method TakeInput() returns (i: K.Input, packetStep: Option<u32>)
      requires ValidConfig(x.config) && intake.Valid()
      modifies this`clocks, intake`processed, intake`takenCount, intake.queue
      ensures intake.Valid() && clocks == StepClocks(old(clocks), packetStep.Some?)
      ensures i == NextInput(x.config, old(clocks), old(intake.queue.contents))
      ensures packetStep == if old(intake.queue.contents) == [] then None
                            else Some(old(intake.queue.contents)[0].packetStep)
      ensures intake.queue.contents == if packetStep.Some? then old(intake.queue.contents)[1..] else []
      ensures intake.takenCount == old(intake.takenCount) + if packetStep.Some? then 1 else 0
    {
      var elapsed := Sub32(clocks.now, clocks.lastCoreStep);
      var dt := if elapsed <= 250 then elapsed as real * 0.001 else x.config.nominalDt;
      var pending := intake.Take();
      if pending.Some? {
        dt := SensorTimestep();
      }
      clocks := clocks.(lastCoreStep := clocks.now);
      i := K.Input(clocks.now, dt, if pending.Some? then Some(pending.value.frame) else None, false);
      packetStep := if pending.Some? then Some(pending.value.packetStep) else None;
    }

    /** The part of a tick that a due control release reaches. */
    method Release(step: u32, health: bool, telemetry: bool)
      requires Valid() && ValidConfig(x.config)
      modifies this`core, this`history, this`stepped, this`clocks, tx, tx.queue, tx.queue.storage, intake`processed,
               intake`takenCount, intake.queue
      ensures Valid() && Now() == Released(x, old(Now()), step, health, telemetry)
    {
      var i, packetStep := TakeNow();
      Advance(i, if packetStep.Some? then packetStep.value else step, packetStep.Some?, health, telemetry);
    }

    method TakeNow() returns (i: K.Input, packetStep: Option<u32>)
      requires Valid() && ValidConfig(x.config)
      modifies this`clocks, intake`processed, intake`takenCount, intake.queue
      ensures Valid() && i == NextInput(x.config, old(clocks), old(intake.queue.contents))
      ensures packetStep == if old(intake.queue.contents) == [] then None
                            else Some(old(intake.queue.contents)[0].packetStep)
      ensures Now() == old(Now()).(clocks := StepClocks(old(clocks), packetStep.Some?),
                                   waiting := if packetStep.Some? then old(intake.queue.contents)[1..] else [])
    {
      i, packetStep := TakeInput();
    }

    /** The step itself, and the bundle if it is reported. */
    method Advance(i: K.Input, step: u32, framed: bool, health: bool, telemetry: bool)
      requires TxOk()
      modifies this`core, this`history, this`stepped, this`clocks, tx, tx.queue, tx.queue.storage
      ensures TxOk() && tx.popped == old(tx.popped)
      ensures (Speech(), clocks) == Advanced(x, old(Speech()), old(clocks), i, step, framed, health, telemetry)
    {
      var out := StepCore(i);
      if framed || health || telemetry || out.safety != clocks.lastEmitted ||
         Sub32(clocks.now, clocks.lastHeartbeat) >= x.config.heartbeatPeriod {
        EmitControllerOutput(step, out, health);
      }
    }

    /** tick, with what the scheduler finds due. */
    method Tick(scheduler: Scheduler.CooperativeScheduler, now: u32, step: u32, ghost t: int)
      requires Valid() && ValidConfig(x.config) && scheduler.Valid() && now == Wrap(t)
      requires active && scheduler.started ==> scheduler.clock <= t < scheduler.clock + HALF32
      modifies this`core, this`history, this`stepped, this`clocks, tx, tx.queue, tx.queue.storage, intake`processed,
               intake`takenCount, intake.queue, scheduler, scheduler.nextRelease, scheduler.missedReleases
      ensures Valid() && scheduler.Valid()
      ensures var due := old(scheduler.DueAt(t)); Now() == Ticked(x, old(Now()), now, step, due[1], due[2], due[3])
      ensures if active then scheduler.started && scheduler.clock == t else unchanged(scheduler)
    {
      if active {
        TickActive(scheduler, now, step, t);
      } else {
        SetClock(now, step);
      }
    }

    method TickActive(scheduler: Scheduler.CooperativeScheduler, now: u32, step: u32, ghost t: int)
      requires Valid() && ValidConfig(x.config) && scheduler.Valid() && now == Wrap(t) && active
      requires scheduler.started ==> scheduler.clock <= t < scheduler.clock + HALF32
      modifies this`core, this`history, this`stepped, this`clocks, tx, tx.queue, tx.queue.storage, intake`processed,
               intake`takenCount, intake.queue, scheduler, scheduler.nextRelease, scheduler.missedReleases
      ensures Valid() && scheduler.Valid() && scheduler.started && scheduler.clock == t
      ensures var due := old(scheduler.DueAt(t)); Now() == Ticked(x, old(Now()), now, step, due[1], due[2], due[3])
    {
      var due := PollFor(scheduler, now, t);
      label polled:
      TickDue(now, step, due[1], due[2], due[3]);
      assert unchanged@polled(scheduler) && unchanged@polled(scheduler.nextRelease, scheduler.missedReleases);
    }

    method PollFor(scheduler: Scheduler.CooperativeScheduler, now: u32, ghost t: int) returns (due: seq<bool>)
      requires Valid() && scheduler.Valid() && now == Wrap(t)
      requires scheduler.started ==> scheduler.clock <= t < scheduler.clock + HALF32
      modifies scheduler, scheduler.nextRelease, scheduler.missedReleases
      ensures Valid() && Now() == old(Now()) && scheduler.Valid() && scheduler.started && scheduler.clock == t
      ensures due == old(scheduler.DueAt(t))
    {
      due := scheduler.Poll(now, t);
    }

    method TickDue(now: u32, step: u32, control: bool, health: bool, telemetry: bool)
      requires Valid() && ValidConfig(x.config) && active
      modifies this`core, this`history, this`stepped, this`clocks, tx, tx.queue, tx.queue.storage, intake`processed,
               intake`takenCount, intake.queue
      ensures Valid() && Now() == Ticked(x, old(Now()), now, step, control, health, telemetry)
    {
      var due := ControlDue(now, control);
      SetClock(now, step);
      if due {
        Release(step, health, telemetry);
      }
    }

    method ControlDue(now: u32, control: bool) returns (due: bool)
      ensures due == (control && now != clocks.lastCoreStep)
    {
      due := control && Sub32(now, clocks.lastCoreStep) != 0;
    }

    method SetClock(now: u32, step: u32)
      requires Valid()
      modifies this`clocks
      ensures Valid() && Now() == Clocked(old(Now()), now, step)
    {
      clocks := clocks.(now := now, lastStepId := step);
    }

    /** pop_frame: the oldest frame whole, or nothing. */
    method PopFrame(output: array<byte>, capacity: nat) returns (size: Option<nat>)
      requires Valid() && capacity <= output.Length
      modifies tx, tx.queue, tx.queue.storage, output
      ensures Valid()
      ensures size.Some? <==> old(tx.packets) != [] && |Transmit.FrameBytes(old(tx.packets)[0])| <= capacity
      ensures size.Some? ==>
                size.value <= output.Length && output[..size.value] == Transmit.FrameBytes(old(tx.packets)[0])
      ensures size.Some? ==> old(tx.packets) != [] && Now() == Popped(old(Now())) && tx.popped == old(tx.popped) + 1
      ensures size.None? ==> Now() == old(Now()) && tx.popped == old(tx.popped) && output[..] == old(output[..])
    {
      size := tx.PopFrame(output, capacity);
    }
  }

  /** The parser's reports on some more bytes; the payloads it reports keep to the limit. */
  method Parse(parser: Stream.StreamParser, data: seq<byte>) returns (events: seq<Stream.Event>)
    requires parser.Valid() && parser.decode == Stream.DecoderOf(Stream.Firmware)
    modifies parser, parser.encoded
    ensures parser.Valid() && parser.stream == old(parser.stream) + data
    ensures |old(parser.log)| <= |parser.log| && events == parser.log[|old(parser.log)|..]
    ensures forall k :: 0 <= k < |events| ==> Fits(events[k])
  {
    events := parser.Feed(data);
    EventsFit(old(parser.stream), parser.stream, parser.earlier, events);
  }

  /** The messages of a bundle, one after the other. */
  lemma BundleSaid<P>(x: Setting<P>, v0: Voice<P>, v1: Voice<P>, v2: Voice<P>, v3: Voice<P>, v4: Voice<P>,
                      out: K.Output,
                      health: bool, heartbeat: bool, step: u32)
    requires v1 == Said(x, v0, CommandMessage(out), step)
    requires v2 == Said(x, v1, StateEstimate(out.estimate, out.mode, out.healthy), step)
    requires v3 == if health then Said(x, v2, HealthStatus(out.safety, out.mode, out.healthy), step) else v2
    requires v4 == if heartbeat then Said(x, v3, Heartbeat(out.safety), step) else v3
    ensures v4 == SaidAll(x, v0, Bundle(out, health, heartbeat), step)
  {
    var tail := if heartbeat then [Heartbeat(out.safety)] else [];
    var more := (if health then [HealthStatus(out.safety, out.mode, out.healthy)] else []) + tail;
    var all := Bundle(out, health, heartbeat);
    assert all[1..][1..] == more;
    assert SaidAll(x, v3, tail, step) == v4 by {
      if heartbeat {
        assert tail[1..] == [];
      }
    }
    assert SaidAll(x, v2, more, step) == v4 by {
      if health {
        assert more[1..] == tail;
      } else {
        assert more == tail;
      }
    }
  }
}
