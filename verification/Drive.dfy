/** The steps of the downlink taken by the objects of the firmware and the host: the queue of
    src/firmware_session.cpp, the stager of src/serial_io.cpp and the parser of host/src/navbench/protocol.py. */
module Drive {
  import opened Words
  import opened Packets
  import Link
  import Stager
  import Stream
  import Transmit

  /** The transmit queue is where the downlink says. */
  ghost predicate TxShows(tx: Transmit.TxPath, d: Link.Downlink)
    reads tx, tx.queue, tx.queue.storage
  {
    tx.Valid() && tx.encode == Transmit.FrameBytes && tx.packets == d.queue && tx.serial == d.serial
  }

  /** The stager has written the wire, and holds the last frame taken until all of it is out. */
  ghost predicate StagerShows(stager: Stager.SerialTxStager, d: Link.Downlink)
    reads stager, stager.bytes
  {
    && stager.Valid() && stager.wire == d.wire
    && Link.WireOf(Transmit.FrameBytes, d.taken) == Stager.Concat(stager.sent) + stager.Staged()
  }

  /** The parser has read what the host heard. */
  ghost predicate ParserShows(parser: Stream.StreamParser, d: Link.Downlink)
    reads parser, parser.encoded
  {
    parser.Valid() && parser.decode == Stream.DecoderOf(Stream.Host) && parser.stream == d.heard
  }

  /** emit_payload */
  method Send(tx: Transmit.TxPath, messageType: byte, step: u32, payload: seq<byte>, ghost d: Link.Downlink)
    requires TxShows(tx, d) && KnownType(messageType) && |payload| <= MAX_PAYLOAD
    modifies tx, tx.queue, tx.queue.storage
    ensures TxShows(tx, Link.Next(Transmit.FrameBytes, d, Link.Send(messageType, step, payload)))
  {
    var _ := Transmit.EmitPayload(tx, messageType, step, payload);
  }

  /** reserve_controller_bundle */
  method Reserve(tx: Transmit.TxPath, required: nat, ghost d: Link.Downlink) returns (ok: bool)
    requires TxShows(tx, d) && required <= Transmit.CAPACITY
    modifies tx, tx.queue, tx.queue.storage
    ensures TxShows(tx, if ok then d else Link.Next(Transmit.FrameBytes, d, Link.DropBacklog))
    ensures ok == (|d.queue| + required <= Transmit.CAPACITY)
  {
    ok := tx.Reserve(required);
  }

  /** The main loop: an idle stager takes the oldest frame. */
  method Stage(tx: Transmit.TxPath, stager: Stager.SerialTxStager, ghost d: Link.Downlink)
    requires TxShows(tx, d) && StagerShows(stager, d)
    modifies tx, tx.queue, tx.queue.storage, stager, stager.bytes
    ensures TxShows(tx, Link.Next(Transmit.FrameBytes, d, Link.Stage))
    ensures StagerShows(stager, Link.Next(Transmit.FrameBytes, d, Link.Stage))
  {
    if stager.Idle() {
      var size := tx.PopFrame(stager.bytes, MAX_WIRE);
      if size.Some? {
        var _ := stager.CommitFrame(size.value);
        Link.WireLast(Transmit.FrameBytes, d.taken, d.queue[0]);
      }
    }
  }

  /** What is staged is the rest of the frames taken. */
  lemma RestIsStaged(stager: Stager.SerialTxStager, d: Link.Downlink)
    requires StagerShows(stager, d)
    ensures d.wire + stager.bytes[stager.offset..stager.size] == Link.WireOf(Transmit.FrameBytes, d.taken)
    ensures stager.Remaining() == stager.size - stager.offset
  {
    assert stager.bytes[..stager.offset] + stager.bytes[stager.offset..stager.size] == stager.bytes[..stager.size];
  }

  /** The main loop: the port takes the next bytes, if that many are staged. */
  method Write(stager: Stager.SerialTxStager, count: nat, ghost d: Link.Downlink) returns (data: seq<byte>)
    requires StagerShows(stager, d)
    modifies stager
    ensures StagerShows(stager, Link.Next(Transmit.FrameBytes, d, Link.Write(count)))
    ensures Link.Next(Transmit.FrameBytes, d, Link.Write(count)).wire == d.wire + data
  {
    RestIsStaged(stager, d);
    data := [];
    if 0 < count <= stager.Remaining() {
      data := stager.bytes[stager.offset..stager.offset + count];
      var _ := stager.AcknowledgeWrite(count, count);
    }
  }

  /** The host reads the next bytes. */
  method Deliver(parser: Stream.StreamParser, data: seq<byte>, ghost d: Link.Downlink)
    requires ParserShows(parser, d) && d.heard + data <= d.wire
    modifies parser, parser.encoded
    ensures ParserShows(parser, Link.Next(Transmit.FrameBytes, d, Link.Deliver(|data|))) &&
            parser.earlier == old(parser.earlier)
  {
    var _ := parser.Feed(data);
    assert d.wire[..|d.heard| + |data|] == d.heard + data;
  }

  /** Bytes on the line, written and not yet read. */
  ghost predicate LineShows(line: seq<byte>, d: Link.Downlink) {
    d.wire == d.heard + line
  }

  /** One step with the objects. */
  method Perform(tx: Transmit.TxPath, stager: Stager.SerialTxStager, parser: Stream.StreamParser, line: seq<byte>,
                 step: Link.Step,
                 ghost d: Link.Downlink) returns (line': seq<byte>)
    requires TxShows(tx, d) && StagerShows(stager, d) && ParserShows(parser, d) && LineShows(line, d)
    modifies tx, tx.queue, tx.queue.storage, stager, stager.bytes, parser, parser.encoded
    ensures var e := Link.Next(Transmit.FrameBytes, d, step);
            TxShows(tx, e) && StagerShows(stager, e) && ParserShows(parser, e) && LineShows(line', e)
    ensures parser.earlier == old(parser.earlier)
  {
    if step.Deliver? {
      line' := Read(parser, line, step.count, d);
    } else {
      line' := Forward(tx, stager, line, step, d);
    }
  }

  /** The steps on the firmware's side. */
  method Forward(tx: Transmit.TxPath, stager: Stager.SerialTxStager, line: seq<byte>, step: Link.Step,
                 ghost d: Link.Downlink)
    returns (line': seq<byte>)
    requires TxShows(tx, d) && StagerShows(stager, d) && LineShows(line, d) && !step.Deliver?
    modifies tx, tx.queue, tx.queue.storage, stager, stager.bytes
    ensures var e := Link.Next(Transmit.FrameBytes, d, step);
            TxShows(tx, e) && StagerShows(stager, e) && LineShows(line', e) && e.heard == d.heard
  {
    line' := line;
    if step.Send? || step.DropBacklog? {
      Queue(tx, step, d);
    } else if step.Stage? {
      Stage(tx, stager, d);
    } else {
      var data := Write(stager, step.count, d);
      line' := line + data;
    }
  }

  /** The steps that only touch the queue. */
  method Queue(tx: Transmit.TxPath, step: Link.Step, ghost d: Link.Downlink)
    requires TxShows(tx, d) && (step.Send? || step.DropBacklog?)
    modifies tx, tx.queue, tx.queue.storage
    ensures TxShows(tx, Link.Next(Transmit.FrameBytes, d, step))
    ensures var e := Link.Next(Transmit.FrameBytes, d, step); e == d.(queue := e.queue, serial := e.serial)
  {
    match step
    case Send(t, id, payload) =>
      if KnownType(t) && |payload| <= MAX_PAYLOAD {
        Send(tx, t, id, payload, d);
      }
    case DropBacklog => var _ := Reserve(tx, Transmit.CAPACITY, d);
  }

  /** The host reads from the line, if that much is there. */
  method Read(parser: Stream.StreamParser, line: seq<byte>, count: nat, ghost d: Link.Downlink)
    returns (line': seq<byte>)
    requires ParserShows(parser, d) && LineShows(line, d)
    modifies parser, parser.encoded
    ensures var e := Link.Next(Transmit.FrameBytes, d, Link.Deliver(count));
            ParserShows(parser, e) && LineShows(line', e) && e == d.(heard := e.heard)
    ensures parser.earlier == old(parser.earlier)
  {
    line' := line;
    if count <= |line| {
      assert line == line[..count] + line[count..];
      Deliver(parser, line[..count], d);
      line' := line[count..];
    }
  }

  /** Main result on the objects: whatever sequence of steps drives fresh objects, the reports of the parser are exactly
      the frames taken from the queue and completely read, in order. */
  method Run(steps: seq<Link.Step>) returns (parser: Stream.StreamParser)
    ensures parser.Valid() && var d := Link.Session(steps); Link.Reports(parser.log, d.taken, Link.Arrived(d))
  {
    var tx := new Transmit.TxPath(Transmit.FrameBytes);
    var stager := new Stager.SerialTxStager();
    parser := new Stream.StreamParser(Stream.Host, Stream.DecoderOf(Stream.Host));
    var line := [];
    for k := 0 to |steps|
      invariant fresh(tx) && fresh(tx.queue) && fresh(tx.queue.storage) && fresh(stager) && fresh(stager.bytes)
      invariant fresh(parser) && fresh(parser.encoded) && parser.earlier == []
      invariant TxShows(tx, Link.Session(steps[..k])) && StagerShows(stager, Link.Session(steps[..k]))
      invariant ParserShows(parser, Link.Session(steps[..k])) && LineShows(line, Link.Session(steps[..k]))
    {
      assert steps[..k + 1][..k] == steps[..k];
      line := Perform(tx, stager, parser, line, steps[k], Link.Session(steps[..k]));
    }
    assert steps[..|steps|] == steps;
    Link.DeliversExactlyWhatWasSent(steps);
    assert parser.log == [] + Stream.Read(parser.decode, parser.stream).log;
  }
}
