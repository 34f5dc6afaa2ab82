/** SerialTxStager of src/serial_io.cpp: one frame at a time, over writes that may be partial. */
module Stager {
  import opened Words
  import opened Packets

  function Concat(frames: seq<seq<byte>>): seq<byte> {
    if frames == [] then [] else Concat(frames[..|frames| - 1]) + frames[|frames| - 1]
  }

  lemma ConcatLast(frames: seq<seq<byte>>, last: seq<byte>)
    ensures Concat(frames + [last]) == Concat(frames) + last
  {
    assert (frames + [last])[..|frames|] == frames;
  }

  class SerialTxStager {
    const bytes: array<byte>
    var size: nat
    var offset: nat
    var totalBytesWritten: u32
    var completedFrames: u32
    var invalidWriteResults: u32
    /** Every byte the serial port has taken, and the frames that went out completely. */
    ghost var wire: seq<byte>
    ghost var sent: seq<seq<byte>>

    /** The wire carries the completed frames in order, then the written part of the staged one. */
    ghost predicate Valid()
      reads this, bytes
    {
      && bytes.Length == MAX_WIRE && size <= MAX_WIRE && offset <= size && (size > 0 ==> offset < size)
      && wire == Concat(sent) + bytes[..offset]
      && totalBytesWritten == Saturate(|wire|) && completedFrames == Saturate(|sent|)
    }

    constructor ()
      ensures Valid() && fresh(bytes) && Idle() && wire == [] && sent == []
    {
      bytes := new byte[MAX_WIRE];
      size, offset, totalBytesWritten, completedFrames, invalidWriteResults := 0, 0, 0, 0, 0;
      wire, sent := [], [];
    }

    predicate Idle()
      reads this
    {
      size == 0
    }

    /** The frame being written, empty when idle. */
    ghost function Staged(): seq<byte>
      reads this, bytes
      requires Valid()
    {
      bytes[..size]
    }

    function Remaining(): nat
      reads this, bytes
      requires Valid()
    {
      size - offset
    }

    /** The caller has filled the first `length` bytes of the idle buffer. */
    method CommitFrame(length: nat) returns (ok: bool)
      requires Valid()
      modifies this
      ensures Valid() && wire == old(wire) && sent == old(sent)
      ensures ok == (old(Idle()) && 0 < length <= MAX_WIRE)
      ensures Staged() == if ok then bytes[..length] else old(Staged())
    {
      if !Idle() || length == 0 || length > bytes.Length {
        return false;
      }
      size, offset := length, 0;
      return true;
    }

    method NextWriteSize(maximum: nat) returns (count: nat)
      requires Valid()
      ensures count == if Remaining() < maximum then Remaining() else maximum
    {
      if maximum == 0 || Idle() {
        return 0;
      }
      return if Remaining() < maximum then Remaining() else maximum;
    }

    /** The port took `written` of the `requested` next bytes. Impossible results move nothing. */
    method AcknowledgeWrite(requested: nat, written: nat) returns (ok: bool)
      requires Valid()
      modifies this
      ensures Valid()
      ensures ok == (0 < requested <= old(Remaining()) && written <= requested)
      ensures ok ==> wire == old(wire) + old(Staged()[offset..offset + written])
      ensures ok && written < old(Remaining()) ==> Staged() == old(Staged()) && sent == old(sent)
      ensures ok && written == old(Remaining()) ==> Idle() && sent == old(sent) + [old(Staged())]
      ensures !ok ==> wire == old(wire) && sent == old(sent) && Staged() == old(Staged())
      ensures Remaining() == if ok then old(Remaining()) - written else old(Remaining())
    {
      if Idle() || requested == 0 || requested > Remaining() || written > requested {
        invalidWriteResults := SaturatingAdd(invalidWriteResults, 1);
        return false;
      }
      SaturatingAddIsSaturate(|wire|, written);
      Extend(written);
      totalBytesWritten := SaturatingAdd(totalBytesWritten, written);
      if offset == size {
        Complete();
      }
      return true;
    }

    /** The last byte of the frame is out. */
    method Complete()
      requires bytes.Length == MAX_WIRE && 0 < size == offset <= MAX_WIRE && wire == Concat(sent) + bytes[..offset]
      requires totalBytesWritten == Saturate(|wire|) && completedFrames == Saturate(|sent|)
      modifies this`completedFrames, this`sent, this`size, this`offset
      ensures Valid() && Idle() && sent == old(sent) + [old(bytes[..size])]
    {
      SaturatingAddIsSaturate(|sent|, 1);
      ConcatLast(sent, bytes[..size]);
      completedFrames := SaturatingAdd(completedFrames, 1);
      sent := sent + [bytes[..size]];
      size, offset := 0, 0;
      assert bytes[..0] == [];
    }

    method Extend(written: nat)
      requires bytes.Length == MAX_WIRE && offset + written <= size <= MAX_WIRE
      requires wire == Concat(sent) + bytes[..offset]
      modifies this`wire, this`offset
      ensures offset == old(offset) + written && wire == Concat(sent) + bytes[..offset]
      ensures wire == old(wire) + bytes[old(offset)..offset]
    {
      ghost var slice := bytes[offset..offset + written];
      assert bytes[..offset] + slice == bytes[..offset + written];
      assert Concat(sent) + bytes[..offset] + slice == Concat(sent) + (bytes[..offset] + slice);
      wire := wire + slice;
      offset := offset + written;
    }
  }
}
