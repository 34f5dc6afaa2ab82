/** The transmit side of FirmwareSession (src/firmware_session.cpp): sequence numbering, the bounded
    queue of encoded frames, and what happens when it overflows. */
module Transmit {
  import opened Words
  import opened Packets
  import Cobs
  import Wire
  import Queue

  const CAPACITY := 8

  /** The frame of a valid packet; nothing is ever framed otherwise. */
  function FrameBytes(p: Packet): (s: seq<byte>)
    ensures ValidPacket(p) <==> 2 <= |s| <= MAX_WIRE
    ensures !ValidPacket(p) <==> s == []
  {
    if ValidPacket(p) then
      EncodedShort(Raw(p));
      Frame(p)
    else
      []
  }

  /** The queued bytes are the frames of `packets`, whose sequence numbers are the words of the serials
      just below `serial`, oldest first. */
  ghost predicate Numbered(encode: Packet -> seq<byte>, contents: seq<seq<byte>>, packets: seq<Packet>, serial: nat) {
    |packets| == |contents| <= serial &&
    forall i :: 0 <= i < |packets| ==>
      contents[i] == encode(packets[i]) && contents[i] != [] && packets[i].sequence == Wrap(serial - |packets| + i)
  }

  lemma NumberedAppend(encode: Packet -> seq<byte>, contents: seq<seq<byte>>, packets: seq<Packet>, serial: nat,
                       p: Packet)
    requires Numbered(encode, contents, packets, serial) && encode(p) != [] && p.sequence == Wrap(serial)
    ensures Numbered(encode, contents + [encode(p)], packets + [p], serial + 1)
  {
  }

  class TxPath {
    const queue: Queue.FixedQueue<seq<byte>>
    var txSequence: u32
    var txFrames: u32
    var txDropped: u32
    /** The packets behind the queued frames, the unbounded serial of the next one in this session,
        and how many frames left the queue, popped or dropped, since construction. */
    ghost const encode: Packet -> seq<byte>
    ghost var packets: seq<Packet>
    ghost var serial: nat
    ghost var popped: nat
    ghost var dropped: nat

    /** The queue holds the frames of consecutive serials, the newest last, and every frame ever
        enqueued is popped, dropped or pending. */
    ghost predicate Valid()
      reads this, queue, queue.storage
    {
      && queue.Valid() && queue.storage.Length == CAPACITY
      && Numbered(encode, queue.contents, packets, serial)
      && txSequence == Wrap(serial)
      && txFrames == Wrap(popped + dropped + |packets|) && txDropped == Wrap(dropped)
    }

    constructor (ghost encode: Packet -> seq<byte>)
      ensures this.encode == encode && Valid() && fresh(queue) && fresh(queue.storage) && packets == [] &&
              serial == 0 && popped == 0 && dropped == 0
    {
      this.encode := encode;
      queue := new Queue.FixedQueue(CAPACITY);
      txSequence, txFrames, txDropped, packets, serial, popped, dropped := 0, 0, 0, [], 0, 0, 0;
    }

    /** The last steps of emit_payload: queues the frame of the packet that carries the next serial.
        A full queue loses everything older. */
    method Emit(ghost p: Packet, frame: seq<byte>) returns (overflowed: bool)
      requires Valid() && frame == encode(p) && frame != [] && p.sequence == txSequence
      modifies this, queue, queue.storage
      ensures Valid() && serial == old(serial) + 1 && popped == old(popped)
      ensures overflowed == (|old(packets)| == CAPACITY)
      ensures packets == (if overflowed then [] else old(packets)) + [p]
      ensures dropped == old(dropped) + if overflowed then CAPACITY else 0
    {
      overflowed := Enqueue(p, frame);
      WrapShift(serial, txSequence, 1);
      txSequence := Wrap(txSequence + 1);
      serial := serial + 1;
    }

    /** Queues one frame that still lacks its serial in the account. */
    method Enqueue(ghost p: Packet, frame: seq<byte>) returns (overflowed: bool)
      requires Valid() && frame == encode(p) && frame != [] && p.sequence == txSequence
      modifies this`txFrames, this`txDropped, this`packets, this`dropped, queue, queue.storage
      ensures queue.Valid() && Numbered(encode, queue.contents, packets, serial + 1)
      ensures overflowed == (|old(packets)| == CAPACITY)
      ensures packets == (if overflowed then [] else old(packets)) + [p]
      ensures dropped == old(dropped) + if overflowed then CAPACITY else 0
      ensures txFrames == Wrap(popped + dropped + |packets|) && txDropped == Wrap(dropped)
    {
      var pushed := TryAppend(p, frame);
      overflowed := !pushed;
      if !pushed {
        DropAll();
        pushed := TryAppend(p, frame);
      }
    }

    method TryAppend(ghost p: Packet, frame: seq<byte>) returns (pushed: bool)
      requires Valid() && frame == encode(p) && frame != [] && p.sequence == txSequence
      modifies this`txFrames, this`packets, queue, queue.storage
      ensures pushed == (|old(packets)| < CAPACITY)
      ensures packets == if pushed then old(packets) + [p] else old(packets)
      ensures queue.Valid() && Numbered(encode, queue.contents, packets, if pushed then serial + 1 else serial)
      ensures txFrames == Wrap(popped + dropped + |packets|)
    {
      NumberedAppend(encode, queue.contents, packets, serial, p);
      pushed := queue.Push(frame);
      if pushed {
        WrapShift(popped + dropped + |packets|, txFrames, 1);
        packets := packets + [p];
        txFrames := Wrap(txFrames + 1);
      }
    }

    /** Everything pending is counted dropped. */
    method DropAll()
      requires queue.Valid() && |packets| == |queue.contents|
      requires txFrames == Wrap(popped + dropped + |packets|) && txDropped == Wrap(dropped)
      modifies this`txDropped, this`packets, this`dropped, queue
      ensures queue.Valid() && queue.contents == [] && packets == []
      ensures dropped == old(dropped) + |old(packets)|
      ensures txFrames == Wrap(popped + dropped) && txDropped == Wrap(dropped)
    {
      WrapShift(dropped, txDropped, queue.size);
      txDropped := Wrap(txDropped + queue.size);
      dropped := dropped + |packets|;
      packets := [];
      queue.Clear();
    }

    /** reserve_controller_bundle: makes room for a whole bundle, by dropping the backlog if need be. */
    method Reserve(required: nat) returns (ok: bool)
      requires Valid() && required <= CAPACITY
      modifies this, queue, queue.storage
      ensures Valid() && serial == old(serial) && popped == old(popped)
      ensures ok == (|old(packets)| + required <= CAPACITY)
      ensures packets == if ok then old(packets) else []
      ensures dropped == old(dropped) + if ok then 0 else |old(packets)|
    {
      if required <= queue.storage.Length - queue.size {
        return true;
      }
      DropAll();
      return false;
    }

    /** The transmit part of an accepted HELLO: a new sequence space and an empty queue. */
    method Restart()
      requires Valid()
      modifies this, queue, queue.storage
      ensures Valid() && packets == [] && serial == 0 && popped == old(popped)
      ensures dropped == old(dropped) + |old(packets)|
    {
      DropAll();
      txSequence, serial := 0, 0;
    }

    /** pop_frame: moves the oldest frame out whole, or leaves everything as it was. */
    method PopFrame(output: array<byte>, capacity: nat) returns (size: Option<nat>)
      requires Valid() && capacity <= output.Length
      modifies this, queue, queue.storage, output
      ensures Valid() && serial == old(serial) && dropped == old(dropped)
      ensures size.Some? <==> old(packets) != [] && |encode(old(packets)[0])| <= capacity
      ensures size.Some? ==> size.value <= output.Length && output[..size.value] == encode(old(packets)[0])
      ensures size.Some? ==> packets == old(packets)[1..] && popped == old(popped) + 1
      ensures size.None? ==> packets == old(packets) && popped == old(popped) && output[..] == old(output[..])
    {
      var frame := queue.Peek();
      if frame.None? {
        return None;
      }
      if capacity < |frame.value| {
        return None;
      }
      Advance();
      Cobs.Copy(output, 0, frame.value);
      return Some(|frame.value|);
    }

    method Advance()
      requires Valid() && packets != []
      modifies this`packets, this`popped, queue
      ensures Valid() && packets == old(packets)[1..] && popped == old(popped) + 1
    {
      var _ := queue.Pop();
      packets, popped := packets[1..], popped + 1;
    }
  }

  /** emit_payload: encodes a payload as the next packet of the session and queues it. */
  method EmitPayload(tx: TxPath, messageType: byte, step: u32, payload: seq<byte>) returns (overflowed: bool)
    requires tx.Valid() && tx.encode == FrameBytes && KnownType(messageType) && |payload| <= MAX_PAYLOAD
    modifies tx, tx.queue, tx.queue.storage
    ensures tx.Valid() && tx.serial == old(tx.serial) + 1 && tx.popped == old(tx.popped)
    ensures overflowed == (|old(tx.packets)| == CAPACITY)
    ensures tx.packets == (if overflowed then [] else old(tx.packets))
                          + [Packet(messageType, Wrap(old(tx.serial)), step, payload)]
    ensures tx.dropped == old(tx.dropped) + if overflowed then CAPACITY else 0
  {
    var p := Packet(messageType, tx.txSequence, step, payload);
    var frame := EncodeFrame(p, tx.encode);
    overflowed := tx.Emit(p, frame);
  }

  method EncodeFrame(p: Packet, ghost encode: Packet -> seq<byte>) returns (frame: seq<byte>)
    requires ValidPacket(p) && encode == FrameBytes
    ensures frame == encode(p) && frame != []
  {
    var buffer := new byte[MAX_WIRE];
    var encoded := Wire.EncodePacket(p, buffer, MAX_WIRE);
    EncodedShort(Raw(p));
    frame := buffer[..encoded.value];
  }
}
