/** Where the sensor frames of the session in src/firmware_session.cpp go: every one that is queued and not discarded by
    a HELLO is stepped into the core, once and in order. */
module SessionFrames {
  import K = Core
  import Intake
  import Packets
  import Sequence
  import Stream
  import opened Session
  import opened SessionEffects
  import opened SessionRuns
  import opened SessionSteps
  import opened Transmit
  import opened Words

  /** The sensor frames among the inputs of the core. */
  function FramesIn(inputs: seq<K.Input>): seq<K.Frame> {
    if inputs == [] then []
    else
      var last := inputs[|inputs| - 1];
      FramesIn(inputs[..|inputs| - 1]) + if last.frame.Some? then [last.frame.value] else []
  }

  lemma FramesInNext(inputs: seq<K.Input>, i: K.Input)
    ensures FramesIn(inputs + [i]) == FramesIn(inputs) + if i.frame.Some? then [i.frame.value] else []
  {
    assert (inputs + [i])[..|inputs|] == inputs;
  }

  /** The frames still waiting. */
  function Frames(waiting: seq<Intake.Pending>): (frames: seq<K.Frame>)
    ensures |frames| == |waiting| && forall i :: 0 <= i < |frames| ==> frames[i] == waiting[i].frame
  {
    seq(|waiting|, i requires 0 <= i < |waiting| => waiting[i].frame)
  }

  // ------------------------------------------------------- one tick

  lemma SafeInput<P>(x: Setting<P>, v: Voice<P>, k: Clocks, step: u32, out: K.Output, force: bool)
    requires |v.packets| <= CAPACITY
    ensures var w := Controlled(x, v, k, step, out, force).0;
            var again := K.Input(k.now, x.config.nominalDt, None, false);
            || (w.core == v.core && w.stepped == v.stepped)
            || (w.core == x.plant.step(x.plant.overflow(v.core), again).0 && w.stepped == v.stepped + [again])
  {
    BundleWhole(x, v, k, step, out, force);
  }

  /** The interval since the last frame if there was one at most 250 ms ago, else the nominal one. */
  lemma IntervalPlausible(c: Config, k: Clocks) returns (dt: real)
    requires ValidConfig(c)
    ensures dt == SensorInterval(c, k) && 0.0 < dt <= 0.25
  {
    dt := SensorInterval(c, k);
  }

  /** Main result on a tick with a frame: if a control release is due at a new millisecond, the core is stepped with the
      oldest waiting frame, the time of the tick and a plausible interval; that frame alone leaves the queue; and what
      follows, if anything, is one step without a frame in the stopped state. */
  lemma FrameReachesCore<P>(x: Setting<P>, s: Station<P>, now: u32, step: u32, health: bool, telemetry: bool)
    returns (i: K.Input)
    requires ValidConfig(x.config) && |s.voice.packets| <= CAPACITY
    requires s.active && now != s.clocks.lastCoreStep && s.waiting != []
    ensures var since := Sub32(now, s.clocks.lastSensorFrame);
            && i.now == now && i.frame == Some(s.waiting[0].frame) && !i.manualStop && 0.0 < i.dt <= 0.25
            && i.dt == if s.clocks.haveSensorTime && 0 < since <= 250 then since as real * 0.001 else x.config.nominalDt
    ensures var t, again := Ticked(x, s, now, step, true, health, telemetry),
            K.Input(now, x.config.nominalDt, None, false);
            var core := x.plant.step(s.voice.core, i).0;
            && t.waiting == s.waiting[1..] && t.clocks.lastSensorFrame == now && t.clocks.haveSensorTime
            && (|| (t.voice.core == core && t.voice.stepped == s.voice.stepped + [i])
                || (t.voice.core == x.plant.step(x.plant.overflow(core), again).0 &&
                    t.voice.stepped == s.voice.stepped + [i] + [again]))
  {
    var k := Clocked(s, now, step).clocks;
    var dt := IntervalPlausible(x.config, k);
    i := K.Input(now, dt, Some(s.waiting[0].frame), false);
    var (v, out) := Stepped(x, s.voice, i);
    SafeInput(x, v, StepClocks(k, true), s.waiting[0].packetStep, out, health);
  }

  /** Without a waiting frame the same tick steps the core without one, over the time since the last step. */
  lemma IdleTickSteps<P>(x: Setting<P>, s: Station<P>, now: u32, step: u32, health: bool, telemetry: bool)
    returns (i: K.Input)
    requires ValidConfig(x.config) && |s.voice.packets| <= CAPACITY
    requires s.active && now != s.clocks.lastCoreStep && s.waiting == []
    ensures var since := Sub32(now, s.clocks.lastCoreStep);
            && i.now == now && i.frame == None && !i.manualStop && 0.0 < i.dt <= 0.25
            && i.dt == if since <= 250 then since as real * 0.001 else x.config.nominalDt
    ensures var t, again := Ticked(x, s, now, step, true, health, telemetry),
            K.Input(now, x.config.nominalDt, None, false);
            var core := x.plant.step(s.voice.core, i).0;
            && t.waiting == [] && t.clocks.lastSensorFrame == s.clocks.lastSensorFrame
            && (|| (t.voice.core == core && t.voice.stepped == s.voice.stepped + [i])
                || (t.voice.core == x.plant.step(x.plant.overflow(core), again).0 &&
                    t.voice.stepped == s.voice.stepped + [i] + [again]))
  {
    var k := Clocked(s, now, step).clocks;
    i := K.Input(now, IdleInterval(x.config, k), None, false);
    var (v, out) := Stepped(x, s.voice, i);
    SafeInput(x, v, StepClocks(k, false), step, out, health);
  }

  // ------------------------------------------------------- whole runs

  /** The frames stepped into the core, and then the waiting ones, are exactly those kept. */
  ghost predicate Conserved<P>(s: Station<P>) {
    FramesIn(s.voice.stepped) + Frames(s.waiting) == s.kept
  }

  /** What leaves the frames alone. */
  predicate SameFrames<P>(s: Station<P>, t: Station<P>) {
    t.waiting == s.waiting && t.kept == s.kept && t.voice.stepped == s.voice.stepped
  }

  lemma TickConserves<P>(x: Setting<P>, s: Station<P>, now: u32, step: u32, control: bool, health: bool,
                         telemetry: bool)
    requires ValidConfig(x.config) && |s.voice.packets| <= CAPACITY && Conserved(s)
    ensures Conserved(Ticked(x, s, now, step, control, health, telemetry))
  {
    var t := Ticked(x, s, now, step, control, health, telemetry);
    if s.active && control && now != s.clocks.lastCoreStep {
      var i;
      if s.waiting != [] {
        i := FrameReachesCore(x, s, now, step, health, telemetry);
      } else {
        i := IdleTickSteps(x, s, now, step, health, telemetry);
      }
      var again := K.Input(now, x.config.nominalDt, None, false);
      FramesInNext(s.voice.stepped, i);
      FramesInNext(s.voice.stepped + [i], again);
      Moved(FramesIn(s.voice.stepped), s.waiting);
      assert FramesIn(t.voice.stepped) == FramesIn(s.voice.stepped + [i]);
    }
  }

  /** The first waiting frame changes sides. */
  lemma Moved(a: seq<K.Frame>, waiting: seq<Intake.Pending>)
    ensures waiting != [] ==> a + [waiting[0].frame] + Frames(waiting[1..]) == a + Frames(waiting)
    ensures a + [] == a
  {
    if waiting != [] {
      assert Frames(waiting) == [waiting[0].frame] + Frames(waiting[1..]);
    }
  }

  lemma HelloConserves<P>(x: Setting<P>, s: Station<P>, p: Packets.Packet)
    requires Conserved(s)
    ensures Conserved(HelloHandled(x, s, p))
  {
    var a, n := FramesIn(s.voice.stepped), |s.waiting|;
    assert s.kept[..|s.kept| - n] == a;
    assert a + Frames([]) == a;
  }

  lemma SensorConserves<P>(x: Setting<P>, s: Station<P>, p: Packets.Packet)
    requires Fitting(x.codecs) && |s.trackers| == Intake.SENSORS && Conserved(s)
    ensures Conserved(SensorHandled(x, s, p))
  {
    var t := SensorHandled(x, s, p);
    if t.waiting != s.waiting {
      var last := t.waiting[|s.waiting|];
      assert Frames(t.waiting) == Frames(s.waiting) + [last.frame];
    }
  }

  lemma HaltedConserves<P>(x: Setting<P>, v: Voice<P>, k: Clocks, step: u32)
    requires |v.packets| <= CAPACITY
    ensures FramesIn(Halted(x, v, k, step).0.stepped) == FramesIn(v.stepped)
  {
    var i := K.Input(k.now, x.config.nominalDt, None, true);
    var again := K.Input(k.now, x.config.nominalDt, None, false);
    var (w, out) := Stepped(x, v, i);
    SafeInput(x, w, k.(lastCoreStep := k.now), step, out, true);
    FramesInNext(v.stepped, i);
    FramesInNext(v.stepped + [i], again);
  }

  lemma StopConserves<P>(x: Setting<P>, s: Station<P>, p: Packets.Packet)
    requires |s.voice.packets| <= CAPACITY && Conserved(s)
    ensures Conserved(StopHandled(x, s, p))
  {
    HaltedConserves(x, s.voice, s.clocks, p.step);
  }

  lemma SameConserves<P>(s: Station<P>, t: Station<P>)
    requires Conserved(s) && SameFrames(s, t)
    ensures Conserved(t)
  {
  }

  lemma DispatchedConserves<P>(x: Setting<P>, s: Station<P>, p: Packets.Packet)
    requires Fitting(x.codecs) && |s.trackers| == Intake.SENSORS && |s.voice.packets| <= CAPACITY && Conserved(s)
    ensures Conserved(Dispatched(x, s, p))
  {
    if p.messageType == SENSOR_FRAME {
      SensorConserves(x, s, p);
    } else if p.messageType == SAFE_STOP {
      StopConserves(x, s, p);
    } else {
      SameConserves(s, Dispatched(x, s, p));
    }
  }

  lemma EventConserves<P>(x: Setting<P>, s: Station<P>, e: Stream.Event)
    requires Fitting(x.codecs) && |s.trackers| == Intake.SENSORS && |s.voice.packets| <= CAPACITY && Conserved(s)
    ensures Conserved(EventHandled(x, s, e))
  {
    if e.Received? && e.packet.messageType == HELLO {
      HelloConserves(x, Counted(s, e.packet.step), e.packet);
    } else if e.Received? && (s.active || e.packet.messageType == SAFE_STOP) {
      var p := e.packet;
      var (seen, progress) := Sequence.Judge(s.progress, x.window, p.sequence, StepOf(p));
      if seen.accepted {
        var c := Counted(s, p.step).(progress := progress);
        SameConserves(s, c);
        DispatchedConserves(x, c, p);
      }
    } else {
      SameConserves(s, EventHandled(x, s, e));
    }
  }

  lemma {:induction false} EventsConserve<P(!new)>(x: Setting<P>, fine: P -> bool, s: Station<P>, es: seq<Stream.Event>)
    requires Governed(x, fine) && StationSound(x, fine, s) && Conserved(s)
    ensures Conserved(EventsHandled(x, s, es))
  {
    if es != [] {
      var init := es[..|es| - 1];
      EventsConserve(x, fine, s, init);
      EventsSound(x, fine, s, init);
      EventConserves(x, EventsHandled(x, s, init), es[|es| - 1]);
    }
  }

  /** Main result on runs: whatever bytes arrive and however ticks fall between them, the frames stepped into the core
      are exactly the queued ones that no HELLO discarded and that do not wait any more, in order, each once. */
  lemma {:induction false} RunConserves<P(!new)>(x: Setting<P>, fine: P -> bool, now: u32, inputs: seq<Input>)
    requires Governed(x, fine)
    ensures Conserved(Run(x, Begun(x, now), inputs))
  {
    if inputs != [] {
      var init, i := inputs[..|inputs| - 1], inputs[|inputs| - 1];
      RunConserves(x, fine, now, init);
      BegunSound(x, fine, now);
      RunStaysSound(x, fine, Begun(x, now), init);
      var s := Run(x, Begun(x, now), init);
      match i
      case Bytes(at, events) => EventsConserve(x, fine, s.(clocks := s.clocks.(now := at)), events);
      case Clock(at, step, control, health, telemetry) => TickConserves(x, s, at, step, control, health, telemetry);
      case Transmit =>
    }
  }

  // ------------------------------------------------------- which frames are queued

  /** Main result on intake: inside a session a sensor packet with a newer number whose payload decodes to a frame with
      admissible sample steps is queued behind the others and moves exactly the trackers of its sensors; a full queue
      stays as it is. */
  lemma FrameQueued<P>(x: Setting<P>, s: Station<P>, p: Packets.Packet, d: Intake.Sensor)
    requires Fitting(x.codecs) && |s.trackers| == Intake.SENSORS && s.active && p.messageType == SENSOR_FRAME
    requires Sequence.Judge(s.progress, x.window, p.sequence, Some(p.step)).0.accepted
    requires x.codecs.sensor(p.payload) == Some(d) && (exists k :: 0 <= k < |d.steps| && d.steps[k].Some?)
    requires forall k :: 0 <= k < |d.steps| ==>
               Intake.JudgeStep(d.steps[k], s.trackers[k], p.step, x.config.maxLag) == K.Clean
    ensures var t := PacketHandled(x, s, p);
            if |s.waiting| < Intake.CAPACITY then
              && t.waiting == s.waiting + [Intake.Pending(d.frame, p.step)] && t.kept == s.kept + [d.frame]
              && t.voice == s.voice
              && |t.trackers| == Intake.SENSORS
              && forall k :: 0 <= k < Intake.SENSORS ==>
                   t.trackers[k] == if d.steps[k].Some? then d.steps[k] else s.trackers[k]
            else |s.waiting| == Intake.CAPACITY ==>
              t.waiting == s.waiting && t.trackers == s.trackers && t.kept == s.kept
  {
    Intake.CleanFrom(d, s.trackers, p.step, x.config.maxLag, 0);
  }
}
