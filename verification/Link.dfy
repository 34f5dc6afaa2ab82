/** The whole downlink: firmware queue, staged partial writes, serial bytes, host parser and tracker. */
module Link {
  import opened Words
  import opened Packets
  import Cobs
  import Stream
  import Sequence
  import Transmit

  type Encoder = Packet -> seq<byte>

  /** The log reports the first m packets, in order, and nothing else. */
  ghost predicate Reports(log: seq<Stream.Event>, ps: seq<Packet>, m: nat) {
    |log| == m <= |ps| && forall i :: 0 <= i < m ==> log[i] == Stream.Received(ps[i])
  }

  /** How many frames of `ps` lie completely within the first n bytes on the wire. */
  function Whole(encode: Encoder, ps: seq<Packet>, n: nat): (m: nat)
    ensures m <= |ps|
  {
    if ps == [] || |encode(ps[0])| > n then 0 else 1 + Whole(encode, ps[1..], n - |encode(ps[0])|)
  }

  /** The bytes of `ps` on the wire, in order. */
  function WireOf(encode: Encoder, ps: seq<Packet>): seq<byte> {
    if ps == [] then [] else encode(ps[0]) + WireOf(encode, ps[1..])
  }

  lemma {:induction false} WireLast(encode: Encoder, ps: seq<Packet>, last: Packet)
    ensures WireOf(encode, ps + [last]) == WireOf(encode, ps) + encode(last)
  {
    if ps == [] {
      assert WireOf(encode, [last]) == encode(last) + WireOf(encode, []);
    } else {
      assert (ps + [last])[1..] == ps[1..] + [last];
      WireLast(encode, ps[1..], last);
    }
  }

  /** A parser takes the frame of p, and nothing else, as p: a whole one in front adds one receipt to
      whatever it reports about the rest, an incomplete one is not reported. */
  ghost predicate Faithful(decode: Stream.Decoder, encode: Encoder, p: Packet) {
    && (forall rest ::
          Stream.Read(decode, encode(p) + rest).log == [Stream.Received(p)] + Stream.Read(decode, rest).log)
    && (forall n :: 0 <= n < |encode(p)| ==> Stream.Read(decode, encode(p)[..n]).log == [])
  }

  lemma CodeDigests(end: Stream.End, p: Packet)
    requires ValidPacket(p)
    ensures Stream.Digest(Stream.DecoderOf(end), Cobs.Encode(Raw(p))) == Stream.Received(p)
  {
    var code := Cobs.Encode(Raw(p));
    EncodedShort(Raw(p));
    FramingBijection(code, p);
    HostAgreesWithFirmware(code);
  }

  lemma ProtocolFaithful(end: Stream.End, p: Packet)
    requires ValidPacket(p)
    ensures Faithful(Stream.DecoderOf(end), Transmit.FrameBytes, p)
  {
    EncodedShort(Raw(p));
    CodeDigests(end, p);
    forall rest
      ensures Stream.Read(Stream.DecoderOf(end), Frame(p) + rest).log
           == [Stream.Received(p)] + Stream.Read(Stream.DecoderOf(end), rest).log
    {
      Stream.ReadAfterSegment(Stream.DecoderOf(end), Cobs.Encode(Raw(p)), rest);
    }
    forall n | 0 <= n < |Frame(p)| ensures Stream.Read(Stream.DecoderOf(end), Frame(p)[..n]).log == [] {
      assert Frame(p)[..n] == Cobs.Encode(Raw(p))[..n];
      Stream.ReadOpen(Stream.DecoderOf(end), Frame(p)[..n]);
    }
  }

  /** Main result of the byte layer: whatever prefix of the wire has arrived, a parser has reported
      exactly the frames that are complete in it, in order, and no error. */
  lemma {:induction false} ParserReadsFrames(decode: Stream.Decoder, encode: Encoder, ps: seq<Packet>, n: nat)
    requires n <= |WireOf(encode, ps)| && forall i :: 0 <= i < |ps| ==> Faithful(decode, encode, ps[i])
    ensures Reports(Stream.Read(decode, WireOf(encode, ps)[..n]).log, ps, Whole(encode, ps, n))
  {
    if ps == [] {
      assert WireOf(encode, ps)[..n] == [];
    } else {
      var frame, rest := encode(ps[0]), ps[1..];
      assert Faithful(decode, encode, ps[0]);
      FrontFrame(decode, encode, ps[0], WireOf(encode, rest), n);
      if |frame| <= n {
        ParserReadsFrames(decode, encode, rest, n - |frame|);
        ReportsFirst(encode, ps, n, Stream.Read(decode, WireOf(encode, rest)[..n - |frame|]).log);
      }
    }
  }

  lemma ReportsFirst(encode: Encoder, ps: seq<Packet>, n: nat, rest: seq<Stream.Event>)
    requires ps != [] && |encode(ps[0])| <= n && Reports(rest, ps[1..], Whole(encode, ps[1..], n - |encode(ps[0])|))
    ensures Reports([Stream.Received(ps[0])] + rest, ps, Whole(encode, ps, n))
  {
  }

  lemma FrontFrame(decode: Stream.Decoder, encode: Encoder, p: Packet, rest: seq<byte>, n: nat)
    requires Faithful(decode, encode, p) && n <= |encode(p)| + |rest|
    ensures Stream.Read(decode, (encode(p) + rest)[..n]).log
            == if |encode(p)| > n then [] else [Stream.Received(p)] + Stream.Read(decode, rest[..n - |encode(p)|]).log
  {
    PrefixOfConcat(encode(p), rest, n);
  }

  lemma PrefixOfConcat(a: seq<byte>, b: seq<byte>, n: nat)
    requires n <= |a| + |b|
    ensures (a + b)[..n] == if |a| > n then a[..n] else a + b[..n - |a|]
  {
  }

  // ------------------------------------------------------- one session of the downlink

  /** `queue` waits in the firmware and `serial` numbers the next packet; `taken` left the queue, with
      unbounded serials `serials`; `wire` is what the port has taken, `heard` what the host has read.
      The abstract values of TxPath, SerialTxStager and StreamParser. */
  datatype Downlink = Downlink(
    queue: seq<Packet>, serial: nat, taken: seq<Packet>, serials: seq<int>, wire: seq<byte>, heard: seq<byte>)

  /** Emit a packet, give up the backlog for a controller bundle, stage the next frame, write some staged
      bytes, read some written bytes. */
  datatype Step =
    | Send(messageType: byte, step: u32, payload: seq<byte>)
    | DropBacklog
    | Stage
    | Write(count: nat)
    | Deliver(count: nat)

  const START: Downlink := Downlink([], 0, [], [], [], [])

  /** The effect of one step, as the contracts of TxPath.Emit, TxPath.Reserve, TxPath.PopFrame with
      SerialTxStager.CommitFrame, SerialTxStager.AcknowledgeWrite and StreamParser.Feed state it;
      a step that is not possible changes nothing. */
  function Next(encode: Encoder, s: Downlink, step: Step): Downlink {
    match step
    case Send(t, id, payload) =>
      var p := Packet(t, Wrap(s.serial), id, payload);
      if encode(p) == [] then s
      else s.(queue := (if |s.queue| >= Transmit.CAPACITY then [] else s.queue) + [p], serial := s.serial + 1)
    case DropBacklog => s.(queue := [])
    case Stage =>
      if |s.wire| < |WireOf(encode, s.taken)| || s.queue == [] then s
      else s.(queue := s.queue[1..], taken := s.taken + [s.queue[0]], serials := s.serials + [s.serial - |s.queue|])
    case Write(n) =>
      var all := WireOf(encode, s.taken);
      if |s.wire| + n > |all| then s else s.(wire := all[..|s.wire| + n])
    case Deliver(n) =>
      if |s.heard| + n > |s.wire| then s else s.(heard := s.wire[..|s.heard| + n])
  }

  function Run(encode: Encoder, steps: seq<Step>): Downlink {
    if steps == [] then START else Next(encode, Run(encode, steps[..|steps| - 1]), steps[|steps| - 1])
  }

  /** Packets that can be framed, carrying the words of strictly increasing serials. */
  ghost predicate Numbered(encode: Encoder, ps: seq<Packet>, serials: seq<int>, below: int) {
    |ps| == |serials| &&
    (forall i :: 0 <= i < |ps| ==> encode(ps[i]) != [] && ps[i].sequence == Wrap(serials[i]) && serials[i] < below) &&
    (forall i :: 0 < i < |ps| ==> serials[i - 1] < serials[i])
  }

  ghost predicate Queued(encode: Encoder, queue: seq<Packet>, serial: nat) {
    |queue| <= serial &&
    forall i :: 0 <= i < |queue| ==> encode(queue[i]) != [] && queue[i].sequence == Wrap(serial - |queue| + i)
  }

  ghost predicate Consistent(encode: Encoder, s: Downlink) {
    && Queued(encode, s.queue, s.serial)
    && Numbered(encode, s.taken, s.serials, s.serial - |s.queue|)
    && s.wire <= WireOf(encode, s.taken) && s.heard <= s.wire
  }

  lemma NextConsistent(encode: Encoder, s: Downlink, step: Step)
    requires Consistent(encode, s)
    ensures Consistent(encode, Next(encode, s, step))
  {
    match step
    case Send(_, _, _) => SendConsistent(encode, s, step);
    case Stage => StageConsistent(encode, s);
    case _ =>
  }

  lemma SendConsistent(encode: Encoder, s: Downlink, step: Step)
    requires Consistent(encode, s) && step.Send?
    ensures Consistent(encode, Next(encode, s, step))
  {
  }

  lemma StageConsistent(encode: Encoder, s: Downlink)
    requires Consistent(encode, s)
    ensures Consistent(encode, Next(encode, s, Stage))
  {
    if s.queue != [] {
      WireLast(encode, s.taken, s.queue[0]);
    }
  }

  lemma {:induction false} RunConsistent(encode: Encoder, steps: seq<Step>)
    ensures Consistent(encode, Run(encode, steps))
  {
    if steps != [] {
      RunConsistent(encode, steps[..|steps| - 1]);
      NextConsistent(encode, Run(encode, steps[..|steps| - 1]), steps[|steps| - 1]);
    }
  }

  lemma DeliversTaken(decode: Stream.Decoder, encode: Encoder, steps: seq<Step>)
    requires forall p :: encode(p) != [] ==> Faithful(decode, encode, p)
    ensures var s := Run(encode, steps);
            Reports(Stream.Read(decode, s.heard).log, s.taken, Whole(encode, s.taken, |s.heard|))
  {
    RunConsistent(encode, steps);
    var s := Run(encode, steps);
    ParserReadsFrames(decode, encode, s.taken, |s.heard|);
    assert WireOf(encode, s.taken)[..|s.heard|] == s.heard;
  }

  function Session(steps: seq<Step>): Downlink {
    Run(Transmit.FrameBytes, steps)
  }

  /** Packets whose frames the host has read completely. */
  function Arrived(s: Downlink): (n: nat)
    ensures n <= |s.taken|
  {
    Whole(Transmit.FrameBytes, s.taken, |s.heard|)
  }

  /** Main result: for any interleaving of packets, queue overflows, pops, partial writes and reads,
      the host parser has reported exactly the frames taken from the queue and completely read, in
      order, and no error. */
  lemma DeliversExactlyWhatWasSent(steps: seq<Step>)
    ensures var s := Session(steps);
            Reports(Stream.Read(Stream.DecoderOf(Stream.Host), s.heard).log, s.taken, Arrived(s))
  {
    forall p | Transmit.FrameBytes(p) != []
      ensures Faithful(Stream.DecoderOf(Stream.Host), Transmit.FrameBytes, p)
    {
      ProtocolFaithful(Stream.Host, p);
    }
    DeliversTaken(Stream.DecoderOf(Stream.Host), Transmit.FrameBytes, steps);
  }

  /** ... and a tracker that sees the received packets by sequence number accepts every one of them,
      with accepted plus missing equal to the span of serials, as long as less than 2^31 packets are
      lost between two deliveries. */
  lemma TrackerSeesForwardRun(steps: seq<Step>, window: u32)
    requires Sequence.ForwardRun(Session(steps).serials) && Arrived(Session(steps)) > 0
    ensures var s := Session(steps);
            var n := Arrived(s);
            && |s.serials| == |s.taken| && (forall i :: 0 <= i < n ==> s.taken[i].sequence == Wrap(s.serials[i]))
            && var r := Sequence.Replay(window, s.serials[..n]); Sequence.AcceptsAll(r.0, r.1, s.serials[..n])
  {
    RunConsistent(Transmit.FrameBytes, steps);
    Sequence.ForwardRunAccepted(window, Session(steps).serials[..Arrived(Session(steps))]);
  }
}
