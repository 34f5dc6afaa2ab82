/** The bounded cursor classes of src/protocol.cpp, and the packet codec built on them. */
module Wire {
  import opened Words
  import opened Packets
  import Crc
  import Cobs

  /** isfinite of an IEEE 754 binary32 value, given as its 32-bit word: the exponent is not all ones. */
  predicate Finite(word: u32) {
    word / 0x80_0000 % 0x100 != 0xff
  }

  class Writer {
    const data: array<byte>
    var position: nat
    var error: Option<Status>

    ghost predicate Valid()
      reads this
    {
      position <= data.Length
    }

    ghost function Written(): seq<byte>
      reads this, data
      requires Valid()
    {
      data[..position]
    }

    constructor (data: array<byte>)
      ensures Valid() && this.data == data && Written() == [] && error == None
    {
      this.data, position, error := data, 0, None;
    }

    /** Appends all of `value` or, on a sticky error or without room, nothing. */
    method PutBytes(value: seq<byte>)
      requires Valid()
      modifies this, data
      ensures Valid()
      ensures old(error.None?) && |old(Written())| + |value| <= data.Length ==>
                error == None && Written() == old(Written()) + value
      ensures old(error.None?) && |old(Written())| + |value| > data.Length ==> error == Some(BufferTooSmall)
      ensures old(error.Some?) ==> error == old(error)
      ensures error.Some? ==> Written() == old(Written())
    {
      if error.Some? {
        return;
      }
      if |value| > data.Length - position {
        error := Some(BufferTooSmall);
        return;
      }
      Cobs.Copy(data, position, value);
      position := position + |value|;
    }

    /** A float that is not finite poisons the writer and writes nothing. */
    method PutF32(word: u32)
      requires Valid()
      modifies this, data
      ensures Valid()
      ensures old(error.None?) && Finite(word) && |old(Written())| + 4 <= data.Length ==>
                error == None && Written() == old(Written()) + Le32(word)
      ensures old(error.None?) && !Finite(word) ==> error == Some(InvalidValue)
      ensures old(error.None?) && Finite(word) && |old(Written())| + 4 > data.Length ==> error == Some(BufferTooSmall)
      ensures old(error.Some?) ==> error == old(error)
      ensures error.Some? ==> Written() == old(Written())
    {
      if !Finite(word) {
        if error.None? {
          error := Some(InvalidValue);
        }
        return;
      }
      PutBytes(Le32(word));
    }
  }

  /** Reading past the end: the first error sticks. */
  function Failed(before: Option<Status>): Option<Status> {
    if before.Some? then before else Some(PayloadLengthMismatch)
  }

  class Reader {
    const data: seq<byte>
    var position: nat
    var error: Option<Status>

    ghost predicate Valid()
      reads this
    {
      position <= |data|
    }

    constructor (data: seq<byte>)
      ensures Valid() && this.data == data && position == 0 && error == None
    {
      this.data, position, error := data, 0, None;
    }

    method Reserve(size: nat) returns (ok: bool)
      requires Valid()
      modifies this`error
      ensures ok == (old(error).None? && position + size <= |data|)
      ensures error == if old(error).Some? || ok then old(error) else Some(PayloadLengthMismatch)
    {
      if error.Some? {
        return false;
      }
      if size > |data| - position {
        error := Some(PayloadLengthMismatch);
        return false;
      }
      return true;
    }

    method GetU8() returns (value: byte)
      requires Valid()
      modifies this
      ensures Valid()
      ensures old(error).None? && old(position) + 1 <= |data| ==>
                error == None && position == old(position) + 1 && value == data[old(position)]
      ensures old(error).Some? || old(position) + 1 > |data| ==> value == 0 && error == Failed(old(error))
    {
      var ok := Reserve(1);
      if !ok {
        return 0;
      }
      value := data[position];
      position := position + 1;
    }

    method GetU16() returns (value: u16)
      requires Valid()
      modifies this
      ensures Valid()
      ensures old(error).None? && old(position) + 2 <= |data| ==>
                error == None && position == old(position) + 2 && value == U16At(data, old(position))
      ensures old(error).Some? || old(position) + 2 > |data| ==> value == 0 && error == Failed(old(error))
    {
      var ok := Reserve(2);
      if !ok {
        return 0;
      }
      value := U16At(data, position);
      position := position + 2;
    }

    method GetU32() returns (value: u32)
      requires Valid()
      modifies this
      ensures Valid()
      ensures old(error).None? && old(position) + 4 <= |data| ==>
                error == None && position == old(position) + 4 && value == U32At(data, old(position))
      ensures old(error).Some? || old(position) + 4 > |data| ==> value == 0 && error == Failed(old(error))
    {
      var ok := Reserve(4);
      if !ok {
        return 0;
      }
      value := U32At(data, position);
      position := position + 4;
    }

    method GetF32() returns (word: u32)
      requires Valid()
      modifies this
      ensures Valid()
      ensures old(error).None? && old(position) + 4 <= |data| ==>
                && position == old(position) + 4 && word == U32At(data, old(position))
                && error == if Finite(word) then None else Some(InvalidValue)
      ensures old(error).Some? || old(position) + 4 > |data| ==> word == 0 && error == Failed(old(error))
    {
      word := GetU32();
      if error.None? && !Finite(word) {
        error := Some(InvalidValue);
      }
    }
  }

  method WriteRaw(p: Packet) returns (raw: seq<byte>)
    requires ValidPacket(p)
    ensures raw == Raw(p)
  {
    var buffer := new byte[MAX_RAW];
    var writer := new Writer(buffer);
    writer.PutBytes([VERSION]);
    writer.PutBytes([p.messageType]);
    writer.PutBytes(Le16(|p.payload|));
    writer.PutBytes(Le32(p.sequence));
    writer.PutBytes(Le32(p.step));
    assert writer.Written() == Header(p);
    writer.PutBytes(p.payload);
    assert writer.Written() == Header(p) + p.payload;
    var checksum := Crc.Crc16Ccitt(buffer[..writer.position]);
    writer.PutBytes(Le16(checksum));
    raw := buffer[..writer.position];
  }

  /** encodePacket: writes exactly Frame(p), or reports why it cannot and how. */
  method EncodePacket(p: Packet, output: array<byte>, capacity: nat) returns (r: Result<nat, Status>)
    requires |p.payload| < 0x1_0000 && capacity <= output.Length
    modifies output
    ensures !KnownType(p.messageType) ==> r == Err(UnknownMessageType)
    ensures KnownType(p.messageType) && |p.payload| > MAX_PAYLOAD ==> r == Err(PayloadTooLarge)
    ensures ValidPacket(p) && |Frame(p)| > capacity ==> r == Err(BufferTooSmall)
    ensures ValidPacket(p) && |Frame(p)| <= capacity ==>
              r == Ok(|Frame(p)|) && output[..|Frame(p)|] == Frame(p)
  {
    if !KnownType(p.messageType) {
      return Err(UnknownMessageType);
    }
    if |p.payload| > MAX_PAYLOAD {
      return Err(PayloadTooLarge);
    }
    EncodedShort(Raw(p));
    if capacity < 2 {
      return Err(BufferTooSmall);
    }
    var raw := WriteRaw(p);
    var encoded := Cobs.CobsEncode(raw, output, capacity - 1);
    if encoded.BufferTooSmall? {
      return Err(BufferTooSmall);
    }
    output[encoded.size] := 0;
    assert output[..encoded.size + 1] == output[..encoded.size] + [0];
    return Ok(encoded.size + 1);
  }

  /** decodePacket: agrees with the specification on every input, and the decoder's 142-byte
      buffer is never too small. */
  method DecodePacket(frame: seq<byte>) returns (r: Result<Packet, Status>)
    ensures r == DecodeFrame(frame)
  {
    var s := frame;
    if |s| != 0 && s[|s| - 1] == 0 {
      s := s[..|s| - 1];
    }
    if |s| == 0 {
      return Err(EmptyFrame);
    }
    if |s| > MAX_ENCODED {
      return Err(OversizedFrame);
    }
    for index := 0 to |s|
      invariant forall i :: 0 <= i < index ==> s[i] != 0
    {
      if s[index] == 0 {
        return Err(UnexpectedDelimiter);
      }
    }
    var buffer := new byte[MAX_RAW];
    var decoded := Cobs.CobsDecode(s, buffer);
    if decoded.Malformed? {
      return Err(CobsMalformed);
    }
    var raw := buffer[..decoded.size];
    r := ReadRaw(raw);
  }

  method ReadRaw(raw: seq<byte>) returns (r: Result<Packet, Status>)
    requires |raw| <= MAX_RAW
    ensures r == DecodeRaw(raw)
  {
    if |raw| < HEADER_SIZE + CRC_SIZE {
      return Err(PacketTooShort);
    }
    var received := U16At(raw, |raw| - 2);
    var calculated := Crc.Crc16Ccitt(raw[..|raw| - CRC_SIZE]);
    U16Field(raw, |raw| - 2, calculated);
    if received != calculated {
      return Err(CrcMismatch);
    }
    var reader := new Reader(raw[..|raw| - CRC_SIZE]);
    var version := reader.GetU8();
    var typeValue := reader.GetU8();
    var payloadSize := reader.GetU16();
    var sequence := reader.GetU32();
    var step := reader.GetU32();
    if version != VERSION {
      return Err(UnsupportedVersion);
    }
    if !KnownType(typeValue) {
      return Err(UnknownMessageType);
    }
    if payloadSize > MAX_PAYLOAD {
      return Err(PayloadTooLarge);
    }
    if |reader.data| - reader.position != payloadSize {
      return Err(PayloadLengthMismatch);
    }
    return Ok(Packet(typeValue, sequence, step, raw[HEADER_SIZE..HEADER_SIZE + payloadSize]));
  }
}
