/** The sending side of HostSession (host/src/navbench/session.py): sequence numbers, one transmit buffer, and
    a transport that may take any part of it. */
module HostSend {
  import opened Words
  import opened Packets
  import Link
  import Sequence
  import Stream
  import Transmit

  const HELLO: byte := 0x01
  const SMALLEST_BUFFER: nat := 256

  datatype Failure = PayloadTooLong | BufferOverflow | TransportFailed | BadWriteCount

  /** What one transport write answers. */
  datatype Write = Took(count: int) | Raised

  /** The packets of one connection carry consecutive sequence numbers from zero. */
  ghost predicate Consecutive(packets: seq<Packet>) {
    forall i :: 0 <= i < |packets| ==> packets[i].sequence == Wrap(i) && ValidPacket(packets[i])
  }

  // ------------------------------------------------------- what a transport takes

  /** What a flush has handed over, what still waits, and why it stopped early. */
  datatype Drain = Drain(taken: seq<byte>, left: seq<byte>, error: Option<Failure>)

  /** The transport's answers in turn, until the buffer is empty, it takes nothing, or it misbehaves. Answers that
      end early stand for a transport that takes nothing more. */
  function Drained(buffer: seq<byte>, writes: seq<Write>): Drain
    decreases |writes|
  {
    if buffer == [] || writes == [] then Drain([], buffer, None)
    else if writes[0].Raised? then Drain([], buffer, Some(TransportFailed))
    else
      var n := writes[0].count;
      if n < 0 || n > |buffer| then Drain([], buffer, Some(BadWriteCount))
      else if n == 0 then Drain([], buffer, None)
      else
        var d := Drained(buffer[n..], writes[1..]);
        d.(taken := buffer[..n] + d.taken)
  }

  function After(taken: seq<byte>, d: Drain): Drain {
    d.(taken := taken + d.taken)
  }

  lemma DrainNext(taken: seq<byte>, buffer: seq<byte>, w: Write, rest: seq<Write>, writes: seq<Write>)
    requires buffer != [] && writes != [] && writes[0] == w && writes[1..] == rest
    ensures After(taken, Drained(buffer, writes)) ==
            if w.Raised? then Drain(taken, buffer, Some(TransportFailed))
            else if w.count < 0 || w.count > |buffer| then Drain(taken, buffer, Some(BadWriteCount))
            else if w.count == 0 then Drain(taken, buffer, None)
            else After(taken + buffer[..w.count], Drained(buffer[w.count..], rest))
  {
    assert taken + [] == taken;
    if w.Took? && 0 < w.count <= |buffer| {
      Joined(taken, buffer[..w.count], Drained(buffer[w.count..], rest));
    }
  }

  lemma Joined(a: seq<byte>, b: seq<byte>, d: Drain)
    ensures After(a, d.(taken := b + d.taken)) == After(a + b, d)
  {
    assert a + (b + d.taken) == a + b + d.taken;
  }

  /** Main result on flushing: no byte is lost, repeated or reordered. */
  lemma {:induction false} DrainKeeps(buffer: seq<byte>, writes: seq<Write>)
    ensures Drained(buffer, writes).taken + Drained(buffer, writes).left == buffer
    decreases |writes|
  {
    if buffer != [] && writes != [] && writes[0].Took? && 0 < writes[0].count <= |buffer| {
      var n := writes[0].count;
      DrainKeeps(buffer[n..], writes[1..]);
      assert buffer == buffer[..n] + buffer[n..];
    }
  }

  /** A transport that takes something each time gets everything. */
  lemma {:induction false} DrainFinishes(buffer: seq<byte>, writes: seq<Write>)
    requires Drained(buffer, writes).error.None? && |writes| >= |buffer|
    requires forall k :: 0 <= k < |writes| ==> writes[k] != Took(0)
    ensures Drained(buffer, writes).left == []
    decreases |writes|
  {
    if buffer != [] {
      DrainFinishes(buffer[writes[0].count..], writes[1..]);
    }
  }

  class HostSession {
    const maxBuffer: nat
    const parser: Stream.StreamParser
    const rxSequence: Sequence.SequenceTracker
    var txSequence: u32
    var txBuffer: seq<byte>
    var peerLimit: Option<nat>
    var txPackets: nat
    var txBytes: nat
    var failed: bool
    /** The packets of this connection and every byte the transport has taken of them. */
    ghost const encode: Packet -> seq<byte>
    ghost var packets: seq<Packet>
    ghost var wire: seq<byte>

    /** Nothing is lost, repeated or reordered: what was taken and what waits are together the frames sent. */
    ghost predicate Valid()
      reads this
    {
      && encode == Transmit.FrameBytes && maxBuffer >= SMALLEST_BUFFER && |txBuffer| <= maxBuffer
      && wire + txBuffer == Link.WireOf(encode, packets)
      && Consecutive(packets) && txSequence == Wrap(|packets|)
    }

    constructor (maxBuffer: nat)
      requires maxBuffer >= SMALLEST_BUFFER
      ensures Valid() && packets == [] && wire == [] && this.maxBuffer == maxBuffer
      ensures fresh(parser) && fresh(parser.encoded) && fresh(rxSequence) && parser.Valid() && rxSequence.Valid()
    {
      this.maxBuffer, encode := maxBuffer, Transmit.FrameBytes;
      parser := new Stream.StreamParser(Stream.Host, Stream.DecoderOf(Stream.Host));
      rxSequence := new Sequence.SequenceTracker(32);
      txSequence, txBuffer, peerLimit, txPackets, txBytes, failed := 0, [], None, 0, 0, false;
      packets, wire := [], [];
    }

    /** start: a new connection reads and counts from the beginning, and opens with a HELLO. */
    method Start(hello: seq<byte>, writes: seq<Write>) returns (error: Option<Failure>)
      requires Valid() && parser.Valid() && rxSequence.Valid() && |hello| <= MAX_PAYLOAD
      modifies this, parser, rxSequence
      ensures Valid() && parser.Valid() && rxSequence.Valid()
      ensures parser.stream == [] && parser.log == old(parser.log) && rxSequence.progress == Sequence.Nothing
      ensures packets == [Packet(HELLO, 0, 0, hello)] && txSequence == 1 && peerLimit == None
      ensures Drain(wire, txBuffer, error) == Drained(encode(Packet(HELLO, 0, 0, hello)), writes)
    {
      ResetReading();
      error := Open(hello, writes);
    }

    method ResetReading()
      requires parser.Valid() && rxSequence.Valid()
      modifies parser, rxSequence
      ensures parser.Valid() && rxSequence.Valid()
      ensures parser.stream == [] && parser.log == old(parser.log) && rxSequence.progress == Sequence.Nothing
    {
      parser.Reset(false);
      rxSequence.Reset(false);
    }

    method Open(hello: seq<byte>, writes: seq<Write>) returns (error: Option<Failure>)
      requires Valid() && |hello| <= MAX_PAYLOAD
      modifies this
      ensures Valid() && packets == [Packet(HELLO, 0, 0, hello)] && txSequence == 1 && peerLimit == None
      ensures Drain(wire, txBuffer, error) == Drained(encode(Packet(HELLO, 0, 0, hello)), writes)
    {
      Restart();
      error := Send(HELLO, 0, hello, writes);
      assert [] + encode(Packet(HELLO, 0, 0, hello)) == encode(Packet(HELLO, 0, 0, hello));
    }

    /** The transmit side of a new connection: an empty buffer and a new sequence space. */
    method Restart()
      requires Valid()
      modifies this
      ensures Valid() && packets == [] && wire == [] && txBuffer == [] && txSequence == 0 && peerLimit == None &&
              !failed
    {
      txSequence, txBuffer, peerLimit, failed := 0, [], None, false;
      packets, wire := [], [];
    }

    /** _send: a refused packet changes nothing; an accepted one is numbered, buffered and pushed out as far as
        the transport takes it. */
    method Send(messageType: byte, step: u32, payload: seq<byte>, writes: seq<Write>) returns (error: Option<Failure>)
      requires Valid() && KnownType(messageType) && |payload| <= MAX_PAYLOAD
      modifies this`txBuffer, this`txSequence, this`txPackets, this`packets, this`txBytes, this`failed, this`wire
      ensures Valid()
      ensures var p := Packet(messageType, old(txSequence), step, payload);
              if messageType != HELLO && peerLimit.Some? && |payload| > peerLimit.value then
                error == Some(PayloadTooLong) && unchanged(this)
              else if |old(txBuffer)| + |encode(p)| > maxBuffer then
                error == Some(BufferOverflow) && unchanged(this)
              else
                var d := Drained(old(txBuffer) + encode(p), writes);
                packets == old(packets) + [p] && txBuffer == d.left && wire == old(wire) + d.taken && error == d.error
    {
      if messageType != HELLO && peerLimit.Some? && |payload| > peerLimit.value {
        return Some(PayloadTooLong);
      }
      var p := Packet(messageType, txSequence, step, payload);
      var frame := Transmit.EncodeFrame(p, encode);
      if |txBuffer| + |frame| > maxBuffer {
        return Some(BufferOverflow);
      }
      Append(p, frame);
      error := Flush(writes);
    }

    method Append(ghost p: Packet, frame: seq<byte>)
      requires Valid() && frame == encode(p) && ValidPacket(p) && p.sequence == txSequence &&
               |txBuffer| + |frame| <= maxBuffer
      modifies this`txBuffer, this`txSequence, this`txPackets, this`packets
      ensures Valid() && packets == old(packets) + [p] && txBuffer == old(txBuffer) + frame
    {
      AppendedFrame(encode, packets, wire, txBuffer, p, txSequence);
      txBuffer := txBuffer + frame;
      txSequence := Wrap(txSequence + 1);
      txPackets := txPackets + 1;
      packets := packets + [p];
    }

    /** _flush_tx */
    method Flush(writes: seq<Write>) returns (error: Option<Failure>)
      requires Valid()
      modifies this`txBuffer, this`txBytes, this`failed, this`wire
      ensures Valid() && old(wire) <= wire && |wire| - |old(wire)| == txBytes - old(txBytes)
      ensures Drain(wire[|old(wire)|..], txBuffer, error) == Drained(old(txBuffer), writes)
      ensures failed == (old(failed) || error.Some?)
    {
      ghost var taken;
      taken, error := Push(writes);
      assert wire[|old(wire)|..] == taken;
      DrainKeeps(old(txBuffer), writes);
      assert wire + txBuffer == old(wire) + (taken + txBuffer);
    }

    method Push(writes: seq<Write>) returns (ghost taken: seq<byte>, error: Option<Failure>)
      modifies this`txBuffer, this`txBytes, this`failed, this`wire
      ensures wire == old(wire) + taken && txBytes == old(txBytes) + |taken|
      ensures Drain(taken, txBuffer, error) == Drained(old(txBuffer), writes)
      ensures failed == (old(failed) || error.Some?)
    {
      error, taken := None, [];
      var k, stop := 0, false;
      ghost var goal := Drained(txBuffer, writes);
      while !stop && txBuffer != [] && k < |writes|
        invariant 0 <= k <= |writes| && failed == (old(failed) || error.Some?)
        invariant wire == old(wire) + taken && txBytes == old(txBytes) + |taken|
        invariant if stop then goal == Drain(taken, txBuffer, error)
                  else error.None? && goal == After(taken, Drained(txBuffer, writes[k..]))
        decreases |writes| - k
      {
        assert writes[k..][0] == writes[k] && writes[k..][1..] == writes[k + 1..];
        DrainNext(taken, txBuffer, writes[k], writes[k + 1..], writes[k..]);
        ghost var part;
        part, stop, error := Offer(writes[k]);
        assert old(wire) + taken + part == old(wire) + (taken + part);
        taken := taken + part;
        k := k + 1;
      }
    }

    /** One answer of the transport to the waiting bytes. */
    method Offer(w: Write) returns (ghost part: seq<byte>, stop: bool, error: Option<Failure>)
      modifies this`txBuffer, this`txBytes, this`failed, this`wire
      ensures wire == old(wire) + part && txBytes == old(txBytes) + |part|
      ensures error == if w.Raised? then Some(TransportFailed)
                       else if w.count < 0 || w.count > |old(txBuffer)| then Some(BadWriteCount) else None
      ensures failed == (old(failed) || error.Some?)
      ensures stop == (error.Some? || w.count == 0)
      ensures if stop then part == [] && txBuffer == old(txBuffer)
              else part == old(txBuffer)[..w.count] && txBuffer == old(txBuffer)[w.count..]
    {
      part := [];
      if w.Raised? {
        failed := true;
        return [], true, Some(TransportFailed);
      }
      if w.count < 0 || w.count > |txBuffer| {
        failed := true;
        return [], true, Some(BadWriteCount);
      }
      part := txBuffer[..w.count];
      wire := wire + part;
      txBuffer := txBuffer[w.count..];
      txBytes := txBytes + w.count;
      return part, w.count == 0, None;
    }
  }

  lemma AppendedFrame(encode: Packet -> seq<byte>, packets: seq<Packet>, wire: seq<byte>, buffer: seq<byte>, p: Packet,
                      serial: u32)
    requires wire + buffer == Link.WireOf(encode, packets) && Consecutive(packets) && ValidPacket(p)
    requires serial == Wrap(|packets|) == p.sequence
    ensures wire + (buffer + encode(p)) == Link.WireOf(encode, packets + [p])
    ensures Consecutive(packets + [p]) && Wrap(serial + 1) == Wrap(|packets + [p]|)
  {
    Link.WireLast(encode, packets, p);
    WrapShift(|packets|, serial, 1);
    assert wire + (buffer + encode(p)) == wire + buffer + encode(p);
  }

  /** Main result on the uplink: however the transport splits the bytes, the firmware parser reports exactly the
      packets whose frames it has taken completely, in order, and no error. */
  lemma UplinkDelivers(packets: seq<Packet>, wire: seq<byte>, buffered: seq<byte>)
    requires Consecutive(packets) && wire + buffered == Link.WireOf(Transmit.FrameBytes, packets)
    ensures Link.Reports(Stream.Read(Stream.DecoderOf(Stream.Firmware), wire).log, packets,
                         Link.Whole(Transmit.FrameBytes, packets, |wire|))
  {
    forall i | 0 <= i < |packets|
      ensures Link.Faithful(Stream.DecoderOf(Stream.Firmware), Transmit.FrameBytes, packets[i])
    {
      Link.ProtocolFaithful(Stream.Firmware, packets[i]);
    }
    Link.ParserReadsFrames(Stream.DecoderOf(Stream.Firmware), Transmit.FrameBytes, packets, |wire|);
    assert (wire + buffered)[..|wire|] == wire;
  }
}
