/** Protocol v1 packets: little-endian fields, the raw layout, and the framed form on the wire. */
module Packets {
  import opened Words
  import Crc
  import Cobs

  const VERSION: byte := 1
  const HEADER_SIZE := 12
  const CRC_SIZE := 2
  const MAX_PAYLOAD := 128
  const MAX_RAW := 142
  const MAX_ENCODED := 143
  const MAX_WIRE := 144

  datatype Status =
    | BufferTooSmall | EmptyFrame | UnexpectedDelimiter | CobsMalformed | PacketTooShort | CrcMismatch
    | UnsupportedVersion | UnknownMessageType | PayloadLengthMismatch | PayloadTooLarge | InvalidValue
    | OversizedFrame | TruncatedFrame

  datatype Packet = Packet(messageType: byte, sequence: u32, step: u32, payload: seq<byte>)

  predicate KnownType(t: byte) {
    t == 0x01 || t == 0x02 || t == 0x10 || t == 0x11 || t == 0x20 || t == 0x21 || t == 0x22 || t == 0x23 ||
    t == 0x7e || t == 0x7f
  }

  predicate ValidPacket(p: Packet) {
    KnownType(p.messageType) && |p.payload| <= MAX_PAYLOAD
  }

  // ------------------------------------------------------- little-endian fields

  function Le16(v: u16): (s: seq<byte>)
    ensures |s| == 2
  {
    [v % 256, v / 256]
  }

  function Le32(v: u32): (s: seq<byte>)
    ensures |s| == 4
  {
    Le16(v % 0x1_0000) + Le16(v / 0x1_0000)
  }

  function U16At(s: seq<byte>, i: nat): u16
    requires i + 2 <= |s|
  {
    (s[i] as int) + 256 * (s[i + 1] as int)
  }

  function U32At(s: seq<byte>, i: nat): u32
    requires i + 4 <= |s|
  {
    (U16At(s, i) as int) + 0x1_0000 * (U16At(s, i + 2) as int)
  }

  /** A field that was written reads back, and a field that was read writes back. */
  lemma U16Field(s: seq<byte>, i: nat, v: u16)
    requires i + 2 <= |s|
    ensures s[i..i + 2] == Le16(v) <==> U16At(s, i) == v
  {
    assert s[i..i + 2] == [s[i], s[i + 1]];
  }

  lemma U32Field(s: seq<byte>, i: nat, v: u32)
    requires i + 4 <= |s|
    ensures s[i..i + 4] == Le32(v) <==> U32At(s, i) == v
  {
    var low, high := v % 0x1_0000, v / 0x1_0000;
    U16Field(s, i, low);
    U16Field(s, i + 2, high);
    assert s[i..i + 4] == s[i..i + 2] + s[i + 2..i + 4];
    assert s[i..i + 4][..2] == s[i..i + 2] && s[i..i + 4][2..] == s[i + 2..i + 4];
    assert Le32(v)[..2] == Le16(low) && Le32(v)[2..] == Le16(high);
  }

  // ------------------------------------------------------- layout

  function Header(p: Packet): (s: seq<byte>)
    requires |p.payload| < 0x1_0000
    ensures |s| == HEADER_SIZE
  {
    [VERSION, p.messageType] + Le16(|p.payload|) + Le32(p.sequence) + Le32(p.step)
  }

  function Checksum(body: seq<byte>): seq<byte> {
    Le16(Crc.Crc16(body))
  }

  function Raw(p: Packet): (s: seq<byte>)
    requires |p.payload| < 0x1_0000
    ensures |s| == |p.payload| + HEADER_SIZE + CRC_SIZE
  {
    Header(p) + p.payload + Checksum(Header(p) + p.payload)
  }

  function Frame(p: Packet): seq<byte>
    requires |p.payload| < 0x1_0000
  {
    Cobs.Encode(Raw(p)) + [0]
  }

  /** Main result on the layout, byte by byte: version, type, then length, sequence and step low byte first, the payload
      as it is, and the checksum of all that low byte first. */
  lemma RawLayout(p: Packet)
    requires |p.payload| < 0x1_0000
    ensures var raw, n := Raw(p), |p.payload|;
            && |raw| == n + 14 && raw[0] == 1 && raw[1] == p.messageType
            && n == Number(raw[2], raw[3], 0, 0)
            && p.sequence == Number(raw[4], raw[5], raw[6], raw[7])
            && p.step == Number(raw[8], raw[9], raw[10], raw[11])
            && raw[12..12 + n] == p.payload
            && Crc.Crc16(raw[..12 + n]) == Number(raw[12 + n], raw[13 + n], 0, 0)
  {
    HeaderLayout(p);
    Parts(Header(p), p.payload, Checksum(Header(p) + p.payload));
  }

  lemma HeaderLayout(p: Packet)
    requires |p.payload| < 0x1_0000
    ensures var h := Header(p);
            && h[0] == 1 && h[1] == p.messageType && |p.payload| == Number(h[2], h[3], 0, 0)
            && p.sequence == Number(h[4], h[5], h[6], h[7]) && p.step == Number(h[8], h[9], h[10], h[11])
  {
    FourBytes(p.sequence);
    FourBytes(p.step);
  }

  lemma Parts(header: seq<byte>, payload: seq<byte>, checksum: seq<byte>)
    ensures var raw, n := header + payload + checksum, |header| + |payload|;
            && raw[..|header|] == header && raw[..n] == header + payload && raw[|header|..n] == payload
            && raw[n..] == checksum
            && (forall i {:trigger header[i]} :: 0 <= i < |header| ==> raw[i] == header[i])
            && (forall i {:trigger checksum[i]} :: 0 <= i < |checksum| ==> raw[n + i] == checksum[i])
  {
  }

  /** Four bytes as a number, the first one lowest. */
  function Number(a: int, b: int, c: int, d: int): int {
    a + 0x100 * b + 0x1_0000 * c + 0x100_0000 * d
  }

  lemma FourBytes(v: u32)
    ensures var s := Le32(v); v == Number(s[0], s[1], s[2], s[3])
  {
  }

  /** Interpretation of a decoded raw packet, in the order in which the firmware checks it. */
  function DecodeRaw(raw: seq<byte>): Result<Packet, Status> {
    if |raw| < HEADER_SIZE + CRC_SIZE then Err(PacketTooShort)
    else if |raw| > MAX_RAW then Err(PayloadTooLarge)
    else if Checksum(raw[..|raw| - 2]) != raw[|raw| - 2..] then Err(CrcMismatch)
    else if raw[0] != VERSION then Err(UnsupportedVersion)
    else if !KnownType(raw[1]) then Err(UnknownMessageType)
    else if U16At(raw, 2) > MAX_PAYLOAD then Err(PayloadTooLarge)
    else if U16At(raw, 2) != |raw| - HEADER_SIZE - CRC_SIZE then Err(PayloadLengthMismatch)
    else Ok(Packet(raw[1], U32At(raw, 4), U32At(raw, 8), raw[HEADER_SIZE..|raw| - 2]))
  }

  /** The host checks the message type last. */
  function HostDecodeRaw(raw: seq<byte>): Result<Packet, Status> {
    if |raw| < HEADER_SIZE + CRC_SIZE then Err(PacketTooShort)
    else if |raw| > MAX_RAW then Err(PayloadTooLarge)
    else if Checksum(raw[..|raw| - 2]) != raw[|raw| - 2..] then Err(CrcMismatch)
    else if raw[0] != VERSION then Err(UnsupportedVersion)
    else if U16At(raw, 2) > MAX_PAYLOAD then Err(PayloadTooLarge)
    else if U16At(raw, 2) != |raw| - HEADER_SIZE - CRC_SIZE then Err(PayloadLengthMismatch)
    else if !KnownType(raw[1]) then Err(UnknownMessageType)
    else Ok(Packet(raw[1], U32At(raw, 4), U32At(raw, 8), raw[HEADER_SIZE..|raw| - 2]))
  }

  function Strip(frame: seq<byte>): seq<byte> {
    if frame != [] && frame[|frame| - 1] == 0 then frame[..|frame| - 1] else frame
  }

  function DecodeFrame(frame: seq<byte>): Result<Packet, Status> {
    var s := Strip(frame);
    if s == [] then Err(EmptyFrame)
    else if |s| > MAX_ENCODED then Err(OversizedFrame)
    else if !Cobs.ZeroFree(s) then Err(UnexpectedDelimiter)
    else match Cobs.Decode(s)
      case None => Err(CobsMalformed)
      case Some(raw) => DecodeRaw(raw)
  }

  /** The host looks for stray delimiters before it looks at the length. */
  function HostDecodeFrame(frame: seq<byte>): Result<Packet, Status> {
    var s := Strip(frame);
    if s == [] then Err(EmptyFrame)
    else if !Cobs.ZeroFree(s) then Err(UnexpectedDelimiter)
    else if |s| > MAX_ENCODED then Err(OversizedFrame)
    else match Cobs.Decode(s)
      case None => Err(CobsMalformed)
      case Some(raw) => HostDecodeRaw(raw)
  }

  // ------------------------------------------------------- framing is a bijection

  lemma RawFields(p: Packet, raw: seq<byte>)
    requires |p.payload| == |raw| - HEADER_SIZE - CRC_SIZE < 0x1_0000
    ensures raw == Raw(p) <==>
            && raw[0] == VERSION && raw[1] == p.messageType && U16At(raw, 2) == |p.payload|
            && U32At(raw, 4) == p.sequence && U32At(raw, 8) == p.step && raw[12..|raw| - 2] == p.payload
            && raw[|raw| - 2..] == Checksum(raw[..|raw| - 2])
  {
    U16Field(raw, 2, |p.payload|);
    U32Field(raw, 4, p.sequence);
    U32Field(raw, 8, p.step);
    var body := raw[..|raw| - 2];
    assert raw == body + raw[|raw| - 2..];
    assert body == raw[..12] + raw[12..|raw| - 2];
    HeaderFields(p, raw[..12]);
    assert raw[..12][2..4] == raw[2..4] && raw[..12][4..8] == raw[4..8] && raw[..12][8..12] == raw[8..12];
    if raw == Raw(p) {
      assert raw[..12] == Header(p) && raw[12..|raw| - 2] == p.payload;
    }
  }

  lemma HeaderFields(p: Packet, h: seq<byte>)
    requires |p.payload| < 0x1_0000 && |h| == 12
    ensures h == Header(p) <==> h[0] == VERSION && h[1] == p.messageType && h[2..4] == Le16(|p.payload|) &&
                                h[4..8] == Le32(p.sequence) && h[8..12] == Le32(p.step)
  {
    assert h == [h[0], h[1]] + h[2..4] + h[4..8] + h[8..12];
    var e := Header(p);
    assert e[2..4] == Le16(|p.payload|) && e[4..8] == Le32(p.sequence) && e[8..12] == Le32(p.step);
  }

  lemma DecodeRawExact(raw: seq<byte>, p: Packet)
    ensures DecodeRaw(raw) == Ok(p) <==> ValidPacket(p) && raw == Raw(p)
  {
    if |p.payload| == |raw| - HEADER_SIZE - CRC_SIZE < 0x1_0000 {
      RawFields(p, raw);
    }
  }

  lemma EncodedShort(raw: seq<byte>)
    requires |raw| <= MAX_RAW
    ensures |Cobs.Encode(raw)| == |raw| + 1 && Cobs.ZeroFree(Cobs.Encode(raw))
  {
    Cobs.EncodeLength([], raw);
    Cobs.FullBlocksBound(0, raw);
    Cobs.EncodeZeroFree([], raw);
  }

  lemma {:induction false} ShortNeverFull(code: seq<byte>)
    requires Cobs.Decode(code).Some? && |code| < 255
    ensures !Cobs.EndsFull(code)
    decreases |code|
  {
    if code[0] < |code| {
      ShortNeverFull(code[code[0]..]);
    }
  }

  lemma StripsTo(p: Packet, frame: seq<byte>)
    requires ValidPacket(p)
    ensures frame == Frame(p) || frame + [0] == Frame(p) <==>
            Strip(frame) == Cobs.Encode(Raw(p))
  {
    var code := Cobs.Encode(Raw(p));
    EncodedShort(Raw(p));
    assert (code + [0])[..|code|] == code;
    if frame + [0] == code + [0] {
      assert frame == (frame + [0])[..|frame|] == code;
    }
    if Strip(frame) == code && frame != code {
      assert frame == frame[..|frame| - 1] + [0];
    }
  }

  lemma FrameDecodes(p: Packet, frame: seq<byte>)
    requires ValidPacket(p) && Strip(frame) == Cobs.Encode(Raw(p))
    ensures DecodeFrame(frame) == Ok(p)
  {
    EncodedShort(Raw(p));
    Cobs.DecodeEncode([], Raw(p));
    assert [] + Raw(p) == Raw(p);
    DecodeRawExact(Raw(p), p);
  }

  lemma DecodedIsFrame(p: Packet, frame: seq<byte>)
    requires DecodeFrame(frame) == Ok(p)
    ensures ValidPacket(p) && Strip(frame) == Cobs.Encode(Raw(p))
  {
    var s := Strip(frame);
    DecodeRawExact(Cobs.Decode(s).value, p);
    ShortNeverFull(s);
    Cobs.EncodeDecode(s);
  }

  /** Main result: a frame decodes to p exactly when p is valid and the frame is the encoding of p,
      with or without its trailing delimiter. */
  lemma FramingBijection(frame: seq<byte>, p: Packet)
    ensures DecodeFrame(frame) == Ok(p) <==> ValidPacket(p) && (frame == Frame(p) || frame + [0] == Frame(p))
  {
    if ValidPacket(p) {
      StripsTo(p, frame);
      if Strip(frame) == Cobs.Encode(Raw(p)) {
        FrameDecodes(p, frame);
      }
    }
    if DecodeFrame(frame) == Ok(p) {
      DecodedIsFrame(p, frame);
    }
  }

  // ------------------------------------------------------- host and firmware agree

  /** Both ends accept the same frames with the same packets. Their error classes differ in exactly
      two families: an overlong frame that also holds a stray zero, and an intact raw packet whose
      type and length field are both wrong. */
  lemma HostAgreesWithFirmware(frame: seq<byte>)
    ensures DecodeFrame(frame).Ok? <==> HostDecodeFrame(frame).Ok?
    ensures DecodeFrame(frame) != HostDecodeFrame(frame) <==>
            var s := Strip(frame);
            || (|s| > MAX_ENCODED && !Cobs.ZeroFree(s))
            || (0 < |s| <= MAX_ENCODED && Cobs.ZeroFree(s) && Cobs.Decode(s).Some? &&
                var raw := Cobs.Decode(s).value;
                && HEADER_SIZE + CRC_SIZE <= |raw| <= MAX_RAW
                && Checksum(raw[..|raw| - 2]) == raw[|raw| - 2..] && raw[0] == VERSION
                && !KnownType(raw[1]) && U16At(raw, 2) != |raw| - HEADER_SIZE - CRC_SIZE)
  {
  }

  /** One frame of the first family. */
  lemma OverlongDiffers()
    ensures var frame := [1, 0] + seq(MAX_ENCODED, _ => 1);
            DecodeFrame(frame) == Err(OversizedFrame) && HostDecodeFrame(frame) == Err(UnexpectedDelimiter)
  {
    var frame := [1, 0] + seq(MAX_ENCODED, _ => 1);
    assert Strip(frame) == frame && frame[1] == 0;
  }

  /** The second family has a frame for every header with a wrong type and a wrong length. */
  lemma BadHeaderDiffers(header: seq<byte>)
    requires |header| == HEADER_SIZE && header[0] == VERSION && !KnownType(header[1]) &&
             0 < U16At(header, 2) <= MAX_PAYLOAD
    ensures var frame := Cobs.Encode(header + Checksum(header));
            DecodeFrame(frame) == Err(UnknownMessageType) && HostDecodeFrame(frame) == Err(PayloadLengthMismatch)
  {
    var raw := header + Checksum(header);
    EncodedShort(raw);
    Cobs.DecodeEncode([], raw);
    assert [] + raw == raw && raw[..|raw| - 2] == header && raw[|raw| - 2..] == Checksum(header);
    assert U16At(raw, 2) == U16At(header, 2);
    assert Strip(Cobs.Encode(raw)) == Cobs.Encode(raw);
  }

  /** A burst inside two adjacent bytes of header or payload never gets past the checksum. */
  lemma CorruptBodyRejected(p: Packet, body: seq<byte>, i: nat)
    requires ValidPacket(p) && |body| == |Header(p) + p.payload| && i + 2 <= |body|
    requires body != Header(p) + p.payload
    requires forall k :: 0 <= k < |body| && k != i && k != i + 1 ==> body[k] == (Header(p) + p.payload)[k]
    ensures DecodeRaw(body + Checksum(Header(p) + p.payload)) == Err(CrcMismatch)
  {
    var sent := Header(p) + p.payload;
    var prefix, suffix := sent[..i], sent[i + 2..];
    assert sent == prefix + [sent[i], sent[i + 1]] + suffix;
    assert body == prefix + [body[i], body[i + 1]] + suffix;
    Crc.AdjacentByteErrorsDetected(prefix, sent[i], sent[i + 1], body[i], body[i + 1], suffix);
    var raw := body + Checksum(sent);
    assert raw[..|raw| - 2] == body && raw[|raw| - 2..] == Checksum(sent);
    var x, y := Crc.Crc16(sent), Crc.Crc16(body);
    assert Le16(x) == Le16(y) ==> x == y by {
      U16Field(Le16(x), 0, y);
      U16Field(Le16(x), 0, x);
      assert Le16(x)[0..2] == Le16(x);
    }
  }

  /** The errors a stream parser can see: its frames are neither empty, nor too long, nor cut at a zero. */
  predicate ClassifiedError(e: Status) {
    e.CobsMalformed? || e.CrcMismatch? || e.UnsupportedVersion? || e.UnknownMessageType? ||
    e.PacketTooShort? || e.PayloadLengthMismatch? || e.PayloadTooLarge?
  }

  lemma BufferedFrameErrors(s: seq<byte>)
    requires Cobs.ZeroFree(s) && 0 < |s| <= MAX_ENCODED
    ensures DecodeFrame(s).Err? ==> ClassifiedError(DecodeFrame(s).error)
    ensures HostDecodeFrame(s).Err? ==> ClassifiedError(HostDecodeFrame(s).error)
  {
    assert Strip(s) == s;
  }
}
