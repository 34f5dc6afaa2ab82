/** The incremental frame parsers (StreamParser in src/protocol.cpp and in host/.../protocol.py)
    refine one batch specification: cut the whole byte stream at its zeros. */
module Stream {
  import opened Words
  import opened Packets
  import Cobs

  /** The two ends differ in the order of two decoder checks and in saturating their counters. */
  datatype End = Firmware | Host

  datatype Event = EmptyDelimiter | Received(packet: Packet) | Rejected(status: Status) | Oversized | Truncated

  datatype Kind =
    | Accepted | Empty | Long | Cut | CobsError | CrcError | VersionError | TypeError | LengthError | OtherError

  type Decoder = seq<byte> -> Result<Packet, Status>

  function DecoderOf(end: End): Decoder {
    if end == Firmware then DecodeFrame else HostDecodeFrame
  }

  function Digest(decode: Decoder, segment: seq<byte>): Event {
    if segment == [] then EmptyDelimiter
    else if |segment| > MAX_ENCODED then Oversized
    else match decode(segment)
      case Ok(p) => Received(p)
      case Err(e) => Rejected(e)
  }

  // ------------------------------------------------------- byte by byte

  /** What has been reported about a byte stream, and its bytes since the last zero. */
  datatype Reading = Reading(log: seq<Event>, open: seq<byte>)

  function Read(decode: Decoder, s: seq<byte>): Reading {
    if s == [] then Reading([], [])
    else
      var r, b := Read(decode, s[..|s| - 1]), s[|s| - 1];
      if b == 0 then Reading(r.log + Closing(decode, r.open), [])
      else Reading(r.log + Growing(r.open), r.open + [b])
  }

  /** A zero closes the open segment, which is reported unless it had already been given up. */
  function Closing(decode: Decoder, segment: seq<byte>): seq<Event> {
    if |segment| > MAX_ENCODED then [] else [Digest(decode, segment)]
  }

  /** Outgrowing the buffer is reported once. */
  function Growing(segment: seq<byte>): seq<Event> {
    if |segment| == MAX_ENCODED then [Oversized] else []
  }

  lemma ReadNext(decode: Decoder, s: seq<byte>, b: byte)
    ensures var r := Read(decode, s);
            Read(decode, s + [b]) == if b == 0 then Reading(r.log + Closing(decode, r.open), [])
                                     else Reading(r.log + Growing(r.open), r.open + [b])
  {
    assert (s + [b])[..|s|] == s;
  }

  // ------------------------------------------------------- the batch specification

  function FirstZero(s: seq<byte>): (i: nat)
    ensures i <= |s|
  {
    if s == [] || s[0] == 0 then 0 else 1 + FirstZero(s[1..])
  }

  /** Cut the whole stream at its zeros: one report for every closed segment, and one for an open
      segment that does not fit the buffer. */
  function Batch(decode: Decoder, s: seq<byte>): Reading
    decreases |s|
  {
    var i := FirstZero(s);
    if i == |s| then Reading(if |s| > MAX_ENCODED then [Oversized] else [], s)
    else
      var r := Batch(decode, s[i + 1..]);
      Reading([Digest(decode, s[..i])] + r.log, r.open)
  }

  lemma {:induction false} FirstZeroIsFirst(s: seq<byte>)
    ensures Cobs.ZeroFree(s[..FirstZero(s)]) && (FirstZero(s) < |s| ==> s[FirstZero(s)] == 0)
  {
    if s != [] && s[0] != 0 {
      FirstZeroIsFirst(s[1..]);
      assert s[..FirstZero(s)] == [s[0]] + s[1..][..FirstZero(s[1..])];
    }
  }

  lemma {:induction false} ReadOpen(decode: Decoder, s: seq<byte>)
    requires Cobs.ZeroFree(s)
    ensures Read(decode, s) == Reading(if |s| > MAX_ENCODED then [Oversized] else [], s)
  {
    if s != [] {
      var init := s[..|s| - 1];
      ReadOpen(decode, init);
      assert s[|s| - 1] != 0 && init + [s[|s| - 1]] == s;
    }
  }

  /** A closed segment in front contributes its own report and nothing else. */
  lemma {:induction false} ReadAfterSegment(decode: Decoder, segment: seq<byte>, rest: seq<byte>)
    requires Cobs.ZeroFree(segment)
    ensures Read(decode, segment + [0] + rest) ==
            Reading([Digest(decode, segment)] + Read(decode, rest).log, Read(decode, rest).open)
    decreases |rest|
  {
    var s := segment + [0] + rest;
    if rest == [] {
      assert s == segment + [0];
      ReadNext(decode, segment, 0);
      ReadOpen(decode, segment);
    } else {
      var init, last := rest[..|rest| - 1], rest[|rest| - 1];
      assert s == (segment + [0] + init) + [last];
      ReadAfterSegment(decode, segment, init);
      ReadNext(decode, segment + [0] + init, last);
    }
  }

  lemma SplitAtZero(s: seq<byte>, i: nat)
    requires i < |s| && s[i] == 0
    ensures s == s[..i] + [0] + s[i + 1..]
  {
  }

  /** Main result: reading byte by byte is cutting the whole stream at its zeros. */
  lemma {:induction false} ReadIsBatch(decode: Decoder, s: seq<byte>)
    ensures Read(decode, s) == Batch(decode, s)
    decreases |s|
  {
    var i := FirstZero(s);
    FirstZeroIsFirst(s);
    if i == |s| {
      assert s[..i] == s;
      ReadOpen(decode, s);
    } else {
      var segment, rest := s[..i], s[i + 1..];
      ReadIsBatch(decode, rest);
      ReadAfterSegment(decode, segment, rest);
      SplitAtZero(s, i);
    }
  }

  // ------------------------------------------------------- counters

  function KindOf(e: Event): Kind {
    match e
    case EmptyDelimiter => Empty
    case Received(_) => Accepted
    case Oversized => Long
    case Truncated => Cut
    case Rejected(CobsMalformed) => CobsError
    case Rejected(CrcMismatch) => CrcError
    case Rejected(UnsupportedVersion) => VersionError
    case Rejected(UnknownMessageType) => TypeError
    case Rejected(PacketTooShort) => LengthError
    case Rejected(PayloadLengthMismatch) => LengthError
    case Rejected(PayloadTooLarge) => LengthError
    case Rejected(_) => OtherError
  }

  function Tally(log: seq<Event>, kind: Kind): nat {
    if log == [] then 0
    else Tally(log[..|log| - 1], kind) + if KindOf(log[|log| - 1]) == kind then 1 else 0
  }

  function Frames(log: seq<Event>): nat {
    if log == [] then 0
    else Frames(log[..|log| - 1]) + if log[|log| - 1].Received? || log[|log| - 1].Rejected? then 1 else 0
  }

  /** What a parser can report about a frame it has buffered: never an unclassified error. */
  lemma SegmentErrors(end: End, segment: seq<byte>)
    requires Cobs.ZeroFree(segment) && 0 < |segment| <= MAX_ENCODED
    ensures KindOf(Digest(DecoderOf(end), segment)) != OtherError
  {
    BufferedFrameErrors(segment);
  }

  /** A decoder that never fails a buffered frame with an unclassified error. */
  ghost predicate Classifies(decode: Decoder) {
    forall segment {:trigger Digest(decode, segment)} ::
      Cobs.ZeroFree(segment) && 0 < |segment| <= MAX_ENCODED ==> KindOf(Digest(decode, segment)) != OtherError
  }

  lemma {:induction false} ReadClassified(decode: Decoder, s: seq<byte>)
    requires Classifies(decode)
    ensures var r := Read(decode, s);
            Cobs.ZeroFree(r.open) && forall i :: 0 <= i < |r.log| ==> KindOf(r.log[i]) != OtherError
  {
    if s != [] {
      ReadClassified(decode, s[..|s| - 1]);
    }
  }

  lemma {:induction false} TallyAll(log: seq<Event>)
    requires forall i :: 0 <= i < |log| ==> KindOf(log[i]) != OtherError
    ensures Tally(log, OtherError) == 0
    ensures Frames(log) == Tally(log, Accepted) + Tally(log, CobsError) + Tally(log, CrcError) +
                           Tally(log, VersionError) + Tally(log, TypeError) + Tally(log, LengthError)
  {
    if log != [] {
      TallyAll(log[..|log| - 1]);
    }
  }

  /** Main result on counters: over any byte stream, every buffered frame is accepted or falls into
      exactly one of the five error classes. */
  lemma FramesConserved(end: End, s: seq<byte>)
    ensures var log := Read(DecoderOf(end), s).log;
            && Tally(log, OtherError) == 0
            && Frames(log) == Tally(log, Accepted) + Tally(log, CobsError) + Tally(log, CrcError) +
                              Tally(log, VersionError) + Tally(log, TypeError) + Tally(log, LengthError)
  {
    forall segment | Cobs.ZeroFree(segment) && 0 < |segment| <= MAX_ENCODED
      ensures KindOf(Digest(DecoderOf(end), segment)) != OtherError
    {
      SegmentErrors(end, segment);
    }
    ReadClassified(DecoderOf(end), s);
    TallyAll(Read(DecoderOf(end), s).log);
  }

  /** The counters: bytes and buffered frames, and one counter for each kind of report. */
  datatype ParserStats = ParserStats(bytesReceived: nat, framesReceived: nat, counts: map<Kind, nat>)

  const NO_COUNTS: map<Kind, nat> :=
    map[Accepted := 0, Empty := 0, Long := 0, Cut := 0, CobsError := 0, CrcError := 0, VersionError := 0,
        TypeError := 0, LengthError := 0, OtherError := 0]

  /** A counter as this end shows it. */
  function Shown(end: End, n: nat): nat {
    if end == Firmware then Saturate(n) else n
  }

  function Add(end: End, value: nat, increment: nat): nat {
    if end == Host then value + increment
    else if value > MAX32 || increment > MAX32 then MAX32
    else SaturatingAdd(value, increment)
  }

  /** The counters show exactly the tallies of everything received and reported. */
  ghost predicate Shows(end: End, stats: ParserStats, bytes: nat, log: seq<Event>) {
    && stats.bytesReceived == Shown(end, bytes)
    && stats.framesReceived == Shown(end, Frames(log))
    && forall k: Kind :: k in stats.counts && stats.counts[k] == Shown(end, Tally(log, k))
  }

  lemma NothingShown(end: End)
    ensures Shows(end, ParserStats(0, 0, NO_COUNTS), 0, [])
  {
    forall k: Kind ensures k in NO_COUNTS && NO_COUNTS[k] == 0 {
      assert k in {Accepted, Empty, Long, Cut, CobsError, CrcError, VersionError, TypeError, LengthError,
                   OtherError} by {
        match k {
          case Accepted => case Empty => case Long => case Cut => case CobsError => case CrcError =>
          case VersionError => case TypeError => case LengthError => case OtherError =>
        }
      }
    }
  }

  function CountEvent(end: End, s: ParserStats, e: Event): ParserStats
    requires KindOf(e) in s.counts
  {
    var k := KindOf(e);
    ParserStats(s.bytesReceived,
                if e.Received? || e.Rejected? then Add(end, s.framesReceived, 1) else s.framesReceived,
                s.counts[k := Add(end, s.counts[k], 1)])
  }

  lemma ShownAdd(end: End, n: nat, increment: nat)
    ensures Add(end, Shown(end, n), increment) == Shown(end, n + increment)
  {
  }

  lemma CountEventShows(end: End, stats: ParserStats, bytes: nat, log: seq<Event>, e: Event)
    requires Shows(end, stats, bytes, log)
    ensures Shows(end, CountEvent(end, stats, e), bytes, log + [e])
  {
    assert (log + [e])[..|log|] == log;
    ShownAdd(end, Frames(log), 1);
    ShownAdd(end, Tally(log, KindOf(e)), 1);
  }

  function Reported(e: Option<Event>): seq<Event> {
    if e.Some? then [e.value] else []
  }

  lemma NextByte(before: seq<byte>, data: seq<byte>, index: nat)
    requires index < |data|
    ensures before + data[..index + 1] == before + data[..index] + [data[index]]
  {
    assert data[..index + 1] == data[..index] + [data[index]];
  }

  lemma LogGrows(a: seq<Event>, b: seq<Event>, c: seq<Event>)
    ensures a + (b + c) == a + b + c
  {
  }

  // ------------------------------------------------------- the parser

  class StreamParser {
    const end: End
    const decode: Decoder  // decodePacket or decode_packet
    const encoded: array<byte>
    var size: nat
    var discard: bool
    var stats: ParserStats
    /** Bytes since the last reset or finish; all bytes and events since the counters were cleared. */
    ghost var stream: seq<byte>
    ghost var bytes: nat
    ghost var log: seq<Event>
    ghost var earlier: seq<Event>

    /** The parser is where the batch specification says it should be. */
    ghost predicate Valid()
      reads this, encoded
    {
      && encoded.Length == MAX_ENCODED && size <= MAX_ENCODED
      && discard == (|Read(decode, stream).open| > MAX_ENCODED)
      && (if discard then size == 0 else encoded[..size] == Read(decode, stream).open)
      && log == earlier + Read(decode, stream).log
      && Shows(end, stats, bytes, log)
    }

    constructor (end: End, decode: Decoder)
      ensures Valid() && fresh(encoded) && this.end == end && this.decode == decode && stream == [] && log == [] &&
              bytes == 0 && earlier == []
    {
      this.end, this.decode := end, decode;
      encoded := new byte[MAX_ENCODED];
      size, discard, stats := 0, false, ParserStats(0, 0, NO_COUNTS);
      stream, bytes, log, earlier := [], 0, [], [];
      NothingShown(end);
    }

    method Reset(clearStats: bool)
      requires Valid()
      modifies this
      ensures Valid() && stream == []
      ensures if clearStats then log == [] && bytes == 0 else log == old(log) && bytes == old(bytes)
    {
      size, discard, stream := 0, false, [];
      NothingShown(end);
      if clearStats {
        stats, bytes, log := ParserStats(0, 0, NO_COUNTS), 0, [];
      }
      earlier := log;
    }

    /** Main result: whatever the chunking, state, reports and counters are those of the batch
        specification on all bytes received so far. */
    method Feed(data: seq<byte>) returns (events: seq<Event>)
      requires Valid()
      modifies this, encoded
      ensures Valid() && stream == old(stream) + data && bytes == old(bytes) + |data|
      ensures earlier == old(earlier) && log == old(log) + events
    {
      CountBytes(|data|);
      events := [];
      for index := 0 to |data|
        invariant Valid() && stream == old(stream) + data[..index] && bytes == old(bytes) + |data|
        invariant earlier == old(earlier) && log == old(log) + events
      {
        events := FeedNext(data, index, events, old(stream), old(log));
      }
      assert data[..|data|] == data;
    }

    method FeedNext(data: seq<byte>, index: nat, events: seq<Event>, ghost before: seq<byte>,
                    ghost reported: seq<Event>)
      returns (next: seq<Event>)
      requires Valid() && index < |data| && stream == before + data[..index] && log == reported + events
      modifies this, encoded
      ensures Valid() && stream == before + data[..index + 1] && log == reported + next
      ensures bytes == old(bytes) && earlier == old(earlier)
    {
      var e := FeedByte(data[index]);
      NextByte(before, data, index);
      next := events + Reported(e);
      LogGrows(reported, events, Reported(e));
    }

    method CountBytes(count: nat)
      requires Valid()
      modifies this`stats, this`bytes
      ensures Valid() && bytes == old(bytes) + count
    {
      ShownAdd(end, bytes, count);
      stats := stats.(bytesReceived := Add(end, stats.bytesReceived, count));
      bytes := bytes + count;
    }

    method FeedByte(value: byte) returns (e: Option<Event>)
      requires Valid()
      modifies this, encoded
      ensures Valid() && stream == old(stream) + [value] && bytes == old(bytes) && earlier == old(earlier)
      ensures log == old(log) + Reported(e)
    {
      if value == 0 {
        e := Close();
      } else {
        e := Store(value);
      }
    }

    method Close() returns (e: Option<Event>)
      requires Valid()
      modifies this
      ensures Valid() && stream == old(stream) + [0] && bytes == old(bytes) && earlier == old(earlier)
      ensures log == old(log) + Reported(e)
    {
      ReadNext(decode, stream, 0);
      ghost var next := earlier + Read(decode, stream + [0]).log;
      assert log + Closing(decode, Read(decode, stream).open) == next;
      e := None;
      if discard {
        discard := false;
      } else {
        var event := Classify(encoded[..size]);
        Report(event);
        e := Some(event);
      }
      assert log == next;
      size := 0;
      stream := stream + [0];
    }

    method Classify(segment: seq<byte>) returns (e: Event)
      requires |segment| <= MAX_ENCODED
      ensures e == Digest(decode, segment)
    {
      if |segment| == 0 {
        return EmptyDelimiter;
      }
      var r := decode(segment);
      return if r.Ok? then Received(r.value) else Rejected(r.error);
    }

    method Store(value: byte) returns (e: Option<Event>)
      requires Valid() && value != 0
      modifies this, encoded
      ensures Valid() && stream == old(stream) + [value] && bytes == old(bytes) && earlier == old(earlier)
      ensures log == old(log) + Reported(e)
    {
      ReadNext(decode, stream, value);
      if !discard && size >= MAX_ENCODED {
        e := Discard(value);
      } else {
        e := None;
        Keep(value);
      }
    }

    /** A byte that fits the buffer, or comes after the segment was given up. */
    method Keep(value: byte)
      requires Valid() && value != 0 && (discard || size < MAX_ENCODED)
      requires Read(decode, stream + [value]) == Reading(Read(decode, stream).log, Read(decode, stream).open + [value])
      modifies this`size, this`stream, encoded
      ensures Valid() && stream == old(stream) + [value]
    {
      if !discard {
        encoded[size] := value;
        size := size + 1;
        assert encoded[..size] == Read(decode, stream).open + [value];
      }
      stream := stream + [value];
    }

    /** The byte that outgrows the buffer. */
    method Discard(value: byte) returns (e: Option<Event>)
      requires Valid() && value != 0 && !discard && size == MAX_ENCODED
      requires Read(decode, stream + [value])
               == Reading(Read(decode, stream).log + [Oversized], Read(decode, stream).open + [value])
      modifies this`size, this`discard, this`stream, this`stats, this`log
      ensures Valid() && stream == old(stream) + [value] && log == old(log) + Reported(e)
    {
      LogGrows(earlier, Read(decode, stream).log, [Oversized]);
      size, discard := 0, true;
      Report(Oversized);
      stream := stream + [value];
      return Some(Oversized);
    }

    method Report(e: Event)
      requires Shows(end, stats, bytes, log)
      modifies this`stats, this`log
      ensures log == old(log) + [e] && Shows(end, stats, bytes, log)
    {
      CountEventShows(end, stats, bytes, log, e);
      stats := CountEvent(end, stats, e);
      log := log + [e];
    }

    /** End of input: a pending or oversized frame is reported once as truncated. */
    method Finish() returns (e: Option<Event>)
      requires Valid()
      modifies this
      ensures Valid() && stream == [] && bytes == old(bytes)
      ensures e == (if Read(decode, old(stream)).open == [] then None else Some(Truncated))
      ensures log == old(log) + Reported(e)
    {
      if size == 0 && !discard {
        stream, earlier := [], log;
        return None;
      }
      size, discard := 0, false;
      Report(Truncated);
      stream, earlier := [], log;
      return Some(Truncated);
    }
  }
}
