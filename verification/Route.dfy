/** ROUTE_CHUNK: its payload codec (src/protocol.cpp), the host chunker (host/.../session.py) and the
    firmware assembler (src/firmware_session.cpp). Floats are their 32-bit words. */
module Route {
  import opened Words
  import opened Packets
  import Wire

  const MAX_POINTS := 5
  const PREFIX_SIZE := 8
  const POINT_SIZE := 16
  const MAX_WAYPOINTS := 32

  datatype Waypoint = Waypoint(x: u32, y: u32, speed: u32, radius: u32)
  datatype Chunk = Chunk(routeId: u16, start: u16, total: u16, flags: byte, points: seq<Waypoint>)

  predicate Clears(flags: byte) { flags % 2 == 1 }
  predicate Finishes(flags: byte) { flags / 2 % 2 == 1 }
  predicate Loops(flags: byte) { flags / 4 % 2 == 1 }

  predicate FinitePoint(w: Waypoint) {
    Wire.Finite(w.x) && Wire.Finite(w.y) && Wire.Finite(w.speed) && Wire.Finite(w.radius)
  }

  predicate WellFormed(c: Chunk) {
    && c.flags < 8
    && (c.points != [] ==> c.total != 0 && c.start + |c.points| <= c.total)
    && (c.points == [] ==> Clears(c.flags))
  }

  predicate ValidChunk(c: Chunk) {
    |c.points| <= MAX_POINTS && WellFormed(c) && forall i :: 0 <= i < |c.points| ==> FinitePoint(c.points[i])
  }

  // ------------------------------------------------------- codec

  function PointBytes(w: Waypoint): (s: seq<byte>)
    ensures |s| == POINT_SIZE
  {
    Le32(w.x) + Le32(w.y) + Le32(w.speed) + Le32(w.radius)
  }

  function PointsBytes(ps: seq<Waypoint>): (s: seq<byte>)
    ensures |s| == POINT_SIZE * |ps|
  {
    if ps == [] then [] else PointsBytes(ps[..|ps| - 1]) + PointBytes(ps[|ps| - 1])
  }

  function PrefixBytes(c: Chunk): (s: seq<byte>)
    requires |c.points| <= MAX_POINTS
    ensures |s| == PREFIX_SIZE
  {
    Le16(c.routeId) + Le16(c.start) + Le16(c.total) + [|c.points|, c.flags]
  }

  function ChunkBytes(c: Chunk): seq<byte>
    requires |c.points| <= MAX_POINTS
  {
    PrefixBytes(c) + PointsBytes(c.points)
  }

  lemma {:induction false} PointsBytesAt(ps: seq<Waypoint>, i: nat)
    requires i < |ps|
    ensures PointsBytes(ps)[POINT_SIZE * i..POINT_SIZE * (i + 1)] == PointBytes(ps[i])
  {
    var init := ps[..|ps| - 1];
    if i < |ps| - 1 {
      PointsBytesAt(init, i);
      assert PointsBytes(ps)[POINT_SIZE * i..POINT_SIZE * (i + 1)]
          == PointsBytes(init)[POINT_SIZE * i..POINT_SIZE * (i + 1)];
    }
  }

  /** A point, byte by byte: both coordinates, the speed and the radius, each low byte first. */
  lemma PointLayout(w: Waypoint)
    ensures var s := PointBytes(w);
            && |s| == 16 && w.x == Number(s[0], s[1], s[2], s[3]) && w.y == Number(s[4], s[5], s[6], s[7])
            && w.speed == Number(s[8], s[9], s[10], s[11]) && w.radius == Number(s[12], s[13], s[14], s[15])
  {
    FourBytes(w.x);
    FourBytes(w.y);
    FourBytes(w.speed);
    FourBytes(w.radius);
  }

  /** Main result on the layout of a chunk, byte by byte: route, start and total low byte first, the count, the flags,
      and sixteen bytes for each point. */
  lemma ChunkLayout(c: Chunk, i: nat)
    requires |c.points| <= MAX_POINTS && i < |c.points|
    ensures var s := ChunkBytes(c);
            && |s| == 8 + 16 * |c.points|
            && c.routeId == Number(s[0], s[1], 0, 0) && c.start == Number(s[2], s[3], 0, 0)
            && c.total == Number(s[4], s[5], 0, 0) && |c.points| == s[6] as int && c.flags == s[7]
            && s[8 + 16 * i..24 + 16 * i] == PointBytes(c.points[i])
  {
    PointsBytesAt(c.points, i);
  }

  function PointAt(s: seq<byte>, i: nat): Waypoint
    requires i + POINT_SIZE <= |s|
  {
    Waypoint(U32At(s, i), U32At(s, i + 4), U32At(s, i + 8), U32At(s, i + 12))
  }

  function PointsAt(s: seq<byte>, count: nat): (ps: seq<Waypoint>)
    requires PREFIX_SIZE + POINT_SIZE * count <= |s|
    ensures |ps| == count
  {
    if count == 0 then [] else PointsAt(s, count - 1) + [PointAt(s, PREFIX_SIZE + POINT_SIZE * (count - 1))]
  }

  function DecodeChunk(s: seq<byte>): Result<Chunk, Status> {
    if |s| < PREFIX_SIZE then Err(PayloadLengthMismatch)
    else if s[6] > MAX_POINTS || |s| != PREFIX_SIZE + s[6] * POINT_SIZE then Err(PayloadLengthMismatch)
    else
      var c := Chunk(U16At(s, 0), U16At(s, 2), U16At(s, 4), s[7], PointsAt(s, s[6]));
      if ValidChunk(c) then Ok(c) else Err(InvalidValue)
  }

  lemma PointField(s: seq<byte>, i: nat, w: Waypoint)
    requires i + POINT_SIZE <= |s|
    ensures s[i..i + 16] == PointBytes(w) <==> PointAt(s, i) == w
  {
    U32Field(s, i, w.x);
    U32Field(s, i + 4, w.y);
    U32Field(s, i + 8, w.speed);
    U32Field(s, i + 12, w.radius);
    var t, e := s[i..i + 16], PointBytes(w);
    assert t[..4] == s[i..i + 4] && t[4..8] == s[i + 4..i + 8] && t[8..12] == s[i + 8..i + 12] &&
           t[12..] == s[i + 12..i + 16];
    assert t == t[..4] + t[4..8] + t[8..12] + t[12..];
    assert e[..4] == Le32(w.x) && e[4..8] == Le32(w.y) && e[8..12] == Le32(w.speed) && e[12..] == Le32(w.radius);
  }

  lemma {:induction false} PointsField(s: seq<byte>, ps: seq<Waypoint>)
    requires PREFIX_SIZE + POINT_SIZE * |ps| <= |s|
    ensures s[8..8 + 16 * |ps|] == PointsBytes(ps) <==> PointsAt(s, |ps|) == ps
  {
    if ps != [] {
      var n := |ps| - 1;
      PointsField(s, ps[..n]);
      PointField(s, 8 + 16 * n, ps[n]);
      FieldAppends(s, 16 * n, PointsBytes(ps[..n]), PointBytes(ps[n]), PointsBytes(ps),
                   PointsAt(s, n), PointAt(s, 8 + 16 * n), PointsAt(s, n + 1), ps);
    }
  }

  /** A field read from the bytes at 8 up, and one more point from the 16 bytes behind it. */
  lemma FieldAppends(s: seq<byte>, k: nat, a: seq<byte>, b: seq<byte>, ab: seq<byte>,
                     qs: seq<Waypoint>, x: Waypoint, qx: seq<Waypoint>, ps: seq<Waypoint>)
    requires 8 + k + 16 <= |s| && |a| == k && |b| == 16 && ab == a + b && qx == qs + [x] && |ps| == |qs| + 1
    requires (s[8..8 + k] == a <==> qs == ps[..|qs|]) && (s[8 + k..8 + k + 16] == b <==> x == ps[|qs|])
    ensures s[8..8 + k + 16] == ab <==> qx == ps
  {
    SliceSplits(s, 8, k, 16, a, b);
    LastSplits(qs, x, ps[..|qs|], ps[|qs|]);
    assert ps == ps[..|qs|] + [ps[|qs|]];
  }

  lemma LastSplits(a: seq<Waypoint>, x: Waypoint, b: seq<Waypoint>, y: Waypoint)
    requires |a| == |b|
    ensures a + [x] == b + [y] <==> a == b && x == y
  {
    if a + [x] == b + [y] {
      assert (a + [x])[..|a|] == a && (b + [y])[..|a|] == b;
      assert (a + [x])[|a|] == x && (b + [y])[|a|] == y;
    }
  }

  lemma SliceSplits(s: seq<byte>, at: nat, k: nat, m: nat, a: seq<byte>, b: seq<byte>)
    requires at + k + m <= |s| && |a| == k && |b| == m
    ensures s[at..at + k + m] == a + b <==> s[at..at + k] == a && s[at + k..at + k + m] == b
  {
    var t := s[at..at + k + m];
    assert t[..k] == s[at..at + k] && t[k..] == s[at + k..at + k + m];
    assert t == t[..k] + t[k..];
    assert (a + b)[..k] == a && (a + b)[k..] == b;
  }

  lemma PrefixField(s: seq<byte>, c: Chunk)
    requires |s| >= PREFIX_SIZE && |c.points| <= MAX_POINTS
    ensures s[..8] == PrefixBytes(c) <==>
            U16At(s, 0) == c.routeId && U16At(s, 2) == c.start && U16At(s, 4) == c.total && s[6] == |c.points| &&
            s[7] == c.flags
  {
    U16Field(s, 0, c.routeId);
    U16Field(s, 2, c.start);
    U16Field(s, 4, c.total);
    var t, e := s[..8], PrefixBytes(c);
    assert t == s[0..2] + s[2..4] + s[4..6] + [s[6], s[7]];
    assert e[0..2] == Le16(c.routeId) && e[2..4] == Le16(c.start) && e[4..6] == Le16(c.total);
    assert t[0..2] == s[0..2] && t[2..4] == s[2..4] && t[4..6] == s[4..6];
  }

  /** Main result on the codec: a payload decodes to c exactly when c is valid and the payload is the
      encoding of c. */
  lemma ChunkBijection(s: seq<byte>, c: Chunk)
    ensures DecodeChunk(s) == Ok(c) <==> ValidChunk(c) && s == ChunkBytes(c)
  {
    if |c.points| <= MAX_POINTS && |s| == PREFIX_SIZE + POINT_SIZE * |c.points| {
      PrefixField(s, c);
      PointsField(s, c.points);
      assert s == s[..8] + s[8..8 + 16 * |c.points|];
      assert ChunkBytes(c)[..8] == PrefixBytes(c) && ChunkBytes(c)[8..] == PointsBytes(c.points);
    }
  }

  /** encodePayload for a chunk: the whole layout or an error, through the bounded writer. */
  method EncodeChunk(c: Chunk, output: array<byte>) returns (r: Result<nat, Status>)
    requires |c.points| <= MAX_POINTS && output.Length >= MAX_PAYLOAD
    modifies output
    ensures ValidChunk(c) ==> r == Ok(|ChunkBytes(c)|) && output[..|ChunkBytes(c)|] == ChunkBytes(c)
    ensures !ValidChunk(c) ==> r == Err(InvalidValue)
  {
    if !WellFormed(c) {
      return Err(InvalidValue);
    }
    var writer := new Wire.Writer(output);
    PutPrefix(writer, c);
    PutPoints(writer, c.points);
    if writer.error.Some? {
      return Err(InvalidValue);
    }
    return Ok(writer.position);
  }

  method PutPrefix(writer: Wire.Writer, c: Chunk)
    requires writer.Valid() && writer.Written() == [] && writer.error == None && PREFIX_SIZE <= writer.data.Length
    requires |c.points| <= MAX_POINTS
    modifies writer, writer.data
    ensures writer.Valid() && writer.Written() == PrefixBytes(c) && writer.error == None
  {
    writer.PutBytes(Le16(c.routeId));
    writer.PutBytes(Le16(c.start));
    writer.PutBytes(Le16(c.total));
    writer.PutBytes([|c.points|, c.flags]);
  }

  method PutPoints(writer: Wire.Writer, points: seq<Waypoint>)
    requires writer.Valid() && writer.error == None
    requires |writer.Written()| + POINT_SIZE * |points| <= writer.data.Length
    modifies writer, writer.data
    ensures writer.Valid()
    ensures writer.error == if AllFinite(points) then None else Some(InvalidValue)
    ensures writer.error == None ==> writer.Written() == old(writer.Written()) + PointsBytes(points)
  {
    ghost var start := writer.Written();
    for i := 0 to |points|
      invariant writer.Valid()
      invariant |writer.Written()| <= |start| + POINT_SIZE * i
      invariant writer.error == if AllFinite(points[..i]) then None else Some(InvalidValue)
      invariant writer.error == None ==> writer.Written() == start + PointsBytes(points[..i])
    {
      ghost var before := writer.Written();
      PutPoint(writer, points[i]);
      NextPoint(points, i, start, before);
    }
    assert points[..|points|] == points;
  }

  lemma NextPoint(points: seq<Waypoint>, i: nat, start: seq<byte>, before: seq<byte>)
    requires i < |points|
    ensures AllFinite(points[..i + 1]) <==> AllFinite(points[..i]) && FinitePoint(points[i])
    ensures before == start + PointsBytes(points[..i]) ==>
              before + PointBytes(points[i]) == start + PointsBytes(points[..i + 1])
  {
    assert points[..i + 1] == points[..i] + [points[i]];
    FiniteLast(points[..i], points[i]);
    PointsBytesLast(points[..i], points[i]);
  }

  lemma PointsBytesLast(ps: seq<Waypoint>, w: Waypoint)
    ensures PointsBytes(ps + [w]) == PointsBytes(ps) + PointBytes(w)
  {
    assert (ps + [w])[..|ps|] == ps;
  }

  lemma FiniteLast(ps: seq<Waypoint>, w: Waypoint)
    ensures AllFinite(ps + [w]) <==> AllFinite(ps) && FinitePoint(w)
  {
    if AllFinite(ps + [w]) {
      assert FinitePoint((ps + [w])[|ps|]);
      forall i | 0 <= i < |ps| ensures FinitePoint(ps[i]) {
        assert FinitePoint((ps + [w])[i]);
      }
    }
  }

  predicate AllFinite(ps: seq<Waypoint>) {
    forall i :: 0 <= i < |ps| ==> FinitePoint(ps[i])
  }

  method PutPoint(writer: Wire.Writer, w: Waypoint)
    requires writer.Valid() && |writer.Written()| + POINT_SIZE <= writer.data.Length
    modifies writer, writer.data
    ensures writer.Valid()
    ensures writer.error == if old(writer.error).Some? || FinitePoint(w) then old(writer.error) else Some(InvalidValue)
    ensures |writer.Written()| <= |old(writer.Written())| + POINT_SIZE
    ensures writer.error == None ==> writer.Written() == old(writer.Written()) + PointBytes(w)
  {
    writer.PutF32(w.x);
    writer.PutF32(w.y);
    writer.PutF32(w.speed);
    writer.PutF32(w.radius);
  }

  /** decodePayload for a chunk, through the bounded reader, agrees with the specification. */
  method ParseChunk(s: seq<byte>) returns (r: Result<Chunk, Status>)
    requires |s| < 0x1_0000
    ensures r == DecodeChunk(s)
  {
    if |s| < PREFIX_SIZE {
      return Err(PayloadLengthMismatch);
    }
    var reader := new Wire.Reader(s);
    var routeId := reader.GetU16();
    var start := reader.GetU16();
    var total := reader.GetU16();
    var count := reader.GetU8();
    var flags := reader.GetU8();
    if count > MAX_POINTS || |s| != PREFIX_SIZE + count * POINT_SIZE {
      return Err(PayloadLengthMismatch);
    }
    var points := GetPoints(reader, count);
    if reader.error.Some? {
      return Err(InvalidValue);
    }
    var c := Chunk(routeId, start, total, flags, points);
    return if WellFormed(c) then Ok(c) else Err(InvalidValue);
  }

  method GetPoints(reader: Wire.Reader, count: nat) returns (points: seq<Waypoint>)
    requires reader.Valid() && reader.error == None && reader.position == PREFIX_SIZE
    requires PREFIX_SIZE + POINT_SIZE * count <= |reader.data|
    modifies reader
    ensures reader.error == if AllFinite(PointsAt(reader.data, count)) then None else Some(InvalidValue)
    ensures reader.error == None ==> points == PointsAt(reader.data, count)
  {
    points := [];
    for i := 0 to count
      invariant reader.Valid()
      invariant reader.error == if AllFinite(PointsAt(reader.data, i)) then None else Some(InvalidValue)
      invariant reader.error == None ==>
                  points == PointsAt(reader.data, i) && reader.position == PREFIX_SIZE + POINT_SIZE * i
    {
      FiniteLast(PointsAt(reader.data, i), PointAt(reader.data, PREFIX_SIZE + POINT_SIZE * i));
      var w := GetPoint(reader);
      points := points + [w];
    }
  }

  method GetPoint(reader: Wire.Reader) returns (w: Waypoint)
    requires reader.Valid() && (reader.error == None ==> reader.position + POINT_SIZE <= |reader.data|)
    modifies reader
    ensures reader.Valid()
    ensures old(reader.error).Some? ==> reader.error == old(reader.error)
    ensures old(reader.error).None? ==>
              var p := PointAt(reader.data, old(reader.position));
              && reader.error == (if FinitePoint(p) then None else Some(InvalidValue))
              && (FinitePoint(p) ==> w == p && reader.position == old(reader.position) + POINT_SIZE)
  {
    var x := reader.GetF32();
    var y := reader.GetF32();
    var speed := reader.GetF32();
    var radius := reader.GetF32();
    w := Waypoint(x, y, speed, radius);
  }
}
