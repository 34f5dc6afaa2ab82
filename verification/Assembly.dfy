/** A route on its way: cut into chunks by HostSession.send_route (host/.../session.py) and put
    together again by FirmwareSession::handle_route (src/firmware_session.cpp). */
module Assembly {
  import opened Words
  import opened Route

  // ------------------------------------------------------- the host cuts

  datatype SendError = EmptyRoute | RouteTooLong | LimitTooSmall

  /** Waypoints per chunk under the negotiated payload limit. */
  function PerChunk(limit: nat): int {
    if (limit - PREFIX_SIZE) / POINT_SIZE < MAX_POINTS then (limit - PREFIX_SIZE) / POINT_SIZE else MAX_POINTS
  }

  function FlagsAt(start: nat, end: nat, total: nat, loopRoute: bool): byte {
    (if start == 0 then 1 else 0) + (if end == total then 2 else 0) + (if loopRoute then 4 else 0)
  }

  function ChunkAt(routeId: u16, points: seq<Waypoint>, k: nat, loopRoute: bool, start: nat): Chunk
    requires start <= |points| < 0x1_0000
  {
    var end := if start + k < |points| then start + k else |points|;
    Chunk(routeId, start, |points|, FlagsAt(start, end, |points|, loopRoute), points[start..end])
  }

  /** The chunks from waypoint `start` on. */
  function Chunks(routeId: u16, points: seq<Waypoint>, k: nat, loopRoute: bool, start: nat): seq<Chunk>
    requires k > 0 && start <= |points| < 0x1_0000
    decreases |points| - start
  {
    if start == |points| then []
    else
      var c := ChunkAt(routeId, points, k, loopRoute, start);
      [c] + Chunks(routeId, points, k, loopRoute, start + |c.points|)
  }

  /** send_route: the chunks handed to _send, or why there are none. */
  method SendRoute(routeId: u16, points: seq<Waypoint>, limit: nat, loopRoute: bool)
    returns (r: Result<seq<Chunk>, SendError>)
    ensures |points| == 0 ==> r == Err(EmptyRoute)
    ensures |points| > 0xffff ==> r == Err(RouteTooLong)
    ensures 0 < |points| <= 0xffff && PerChunk(limit) <= 0 ==> r == Err(LimitTooSmall)
    ensures 0 < |points| <= 0xffff && PerChunk(limit) > 0 ==>
              r == Ok(Chunks(routeId, points, PerChunk(limit), loopRoute, 0))
  {
    if |points| == 0 {
      return Err(EmptyRoute);
    }
    if |points| > 0xffff {
      return Err(RouteTooLong);
    }
    var k := PerChunk(limit);
    if k <= 0 {
      return Err(LimitTooSmall);
    }
    var start, sent := 0, [];
    while start < |points|
      invariant 0 <= start <= |points|
      invariant sent + Chunks(routeId, points, k, loopRoute, start) == Chunks(routeId, points, k, loopRoute, 0)
    {
      var end := if start + k < |points| then start + k else |points|;
      var flags: byte := 0;
      if start == 0 {
        flags := flags + 1;
      }
      if end == |points| {
        flags := flags + 2;
      }
      if loopRoute {
        flags := flags + 4;
      }
      var c := Chunk(routeId, start, |points|, flags, points[start..end]);
      assert sent + ([c] + Chunks(routeId, points, k, loopRoute, end))
             == sent + [c] + Chunks(routeId, points, k, loopRoute, end);
      sent := sent + [c];
      start := end;
    }
    assert sent + [] == sent;
    return Ok(sent);
  }

  // ------------------------------------------------------- the firmware assembles

  /** The assembler's registers and the waypoints collected for the current route. */
  datatype State = State(routeId: u16, expected: u16, points: seq<Waypoint>)
  datatype Outcome = Rejected | Stored | Activated(route: seq<Waypoint>) | Refused(route: seq<Waypoint>)

  predicate Fits(a: State) {
    |a.points| <= a.expected <= MAX_WAYPOINTS
  }

  /** Only these chunks reach the registers at all. Looped routes never do. */
  predicate Admissible(c: Chunk) {
    0 < c.total <= MAX_WAYPOINTS && c.points != [] && !Loops(c.flags) && c.start + |c.points| <= c.total
  }

  function Cleared(a: State, c: Chunk): State {
    if Clears(c.flags) then State(c.routeId, c.total, []) else a
  }

  predicate Continues(a: State, c: Chunk) {
    Admissible(c) && c.routeId == a.routeId && c.total == a.expected && c.start == |a.points|
  }

  function AssembleChunk(accept: seq<Waypoint> -> bool, a: State, c: Chunk): (State, Outcome) {
    var b := Cleared(a, c);
    if !Admissible(c) then (a, Rejected)
    else if !Continues(b, c) then (b, Rejected)
    else
      var s := b.(points := b.points + c.points);
      (s, if !Finishes(c.flags) then Stored
          else if |s.points| != s.expected then Rejected
          else if accept(s.points) then Activated(s.points)
          else Refused(s.points))
  }

  function Assemble(accept: seq<Waypoint> -> bool, a: State, payload: seq<byte>): (State, Outcome) {
    var d := DecodeChunk(payload);
    if d.Err? then (a, Rejected) else AssembleChunk(accept, a, d.value)
  }

  /** The collected waypoints never outgrow the route buffer, whatever arrives, and only a complete
      accepted route is activated. */
  lemma AssembleFits(accept: seq<Waypoint> -> bool, a: State, payload: seq<byte>)
    requires Fits(a)
    ensures var (b, o) := Assemble(accept, a, payload);
            && Fits(b)
            && (o.Activated? || o.Refused? ==>
                  o.route == b.points && |o.route| == b.expected && accept(o.route) == o.Activated?)
  {
  }

  /** A refused chunk that leaves its mark: it clears the assembler for a route it does not start, or it ends
      a route that is not complete; unless the assembler happens to be in that state already. */
  predicate LeavesMark(a: State, c: Chunk) {
    var b := Cleared(a, c);
    Admissible(c) &&
    if Clears(c.flags) && c.start != 0 then a != b
    else Continues(b, c) && Finishes(c.flags) && |b.points| + |c.points| != b.expected &&
         a != b.(points := b.points + c.points)
  }

  /** Main result on refused chunks: exactly these change the assembler, the first to an empty route that a later
      chunk without the clear flag can continue, the second to a longer one that it can complete. */
  lemma RefusalMarks(accept: seq<Waypoint> -> bool, a: State, c: Chunk)
    ensures var (b, o) := AssembleChunk(accept, a, c);
            && (o.Rejected? ==> (b != a <==> LeavesMark(a, c)))
            && (LeavesMark(a, c) ==>
                  && o.Rejected?
                  && b == if Clears(c.flags) && c.start != 0 then State(c.routeId, c.total, [])
                          else Cleared(a, c).(points := Cleared(a, c).points + c.points))
  {
    assert |Cleared(a, c).points + c.points| == |Cleared(a, c).points| + |c.points|;
  }

  /** One input of each kind. In the first the refused chunk's route can still be sent without a clear flag; in the
      second the points of the refused chunk become part of the route that the next one completes. */
  lemma RefusedYetKept(accept: seq<Waypoint> -> bool, w: Waypoint, v: Waypoint)
    requires accept([w, v])
    ensures var cleared := AssembleChunk(accept, State(0, 0, []), Chunk(7, 1, 2, 1, [v]));
            && cleared == (State(7, 2, []), Rejected)
            && AssembleChunk(accept, cleared.0, Chunk(7, 0, 2, 0, [w])) == (State(7, 2, [w]), Stored)
    ensures var short := AssembleChunk(accept, State(7, 2, []), Chunk(7, 0, 2, 2, [w]));
            && short == (State(7, 2, [w]), Rejected)
            && AssembleChunk(accept, short.0, Chunk(7, 1, 2, 2, [v])) == (State(7, 2, [w, v]), Activated([w, v]))
  {
    assert [] + [w] == [w] && [w] + [v] == [w, v];
  }

  class RouteAssembler {
    const route: array<Waypoint>
    const accept: seq<Waypoint> -> bool  // RouteManager::set_route of the controller core
    var routeId: u16
    var expected: u16
    var received: u16

    ghost predicate Valid()
      reads this
    {
      route.Length == MAX_WAYPOINTS && received <= expected <= MAX_WAYPOINTS
    }

    ghost function Value(): (a: State)
      reads this, route
      requires Valid()
      ensures Fits(a)
    {
      State(routeId, expected, route[..received])
    }

    constructor (accept: seq<Waypoint> -> bool)
      ensures Valid() && fresh(route) && this.accept == accept && Value() == State(0, 0, [])
    {
      this.accept := accept;
      route := new Waypoint[MAX_WAYPOINTS](_ => Waypoint(0, 0, 0, 0));
      routeId, expected, received := 0, 0, 0;
    }

    /** A HELLO forgets the route under way. */
    method Reset()
      requires Valid()
      modifies this`routeId, this`expected, this`received
      ensures Valid() && Value() == State(0, 0, [])
    {
      routeId, expected, received := 0, 0, 0;
    }

    /** handle_route does exactly what the specification says, within the 32-entry buffer. */
    method HandleRoute(payload: seq<byte>) returns (o: Outcome)
      requires Valid() && |payload| < 0x1_0000
      modifies this, route
      ensures Valid() && (Value(), o) == Assemble(accept, old(Value()), payload)
    {
      var parsed := ParseChunk(payload);
      if parsed.Err? || !Admissible(parsed.value) {
        return Rejected;
      }
      var c := parsed.value;
      if Clears(c.flags) {
        routeId, expected, received := c.routeId, c.total, 0;
      }
      ghost var b := Value();
      if c.routeId != routeId || c.total != expected || c.start != received {
        return Rejected;
      }
      Store(c.points);
      if Finishes(c.flags) {
        if received != expected {
          return Rejected;
        }
        return if accept(route[..received]) then Activated(route[..received]) else Refused(route[..received]);
      }
      return Stored;
    }

    method Store(points: seq<Waypoint>)
      requires Valid() && received + |points| <= expected
      modifies this`received, route
      ensures Valid() && Value() == old(Value()).(points := old(Value()).points + points)
    {
      for index := 0 to |points|
        invariant received == old(received) && route[..received] == old(route[..received])
        invariant route[received..received + index] == points[..index]
      {
        route[received + index] := points[index];
        assert points[..index + 1] == points[..index] + [points[index]];
      }
      assert points[..|points|] == points;
      assert route[..received + |points|] == route[..received] + route[received..received + |points|];
      received := received + |points|;
    }
  }

  // ------------------------------------------------------- round trip

  /** Folding the assembler over a list of payloads. */
  function Deliver(accept: seq<Waypoint> -> bool, a: State, payloads: seq<seq<byte>>): (State, seq<Outcome>)
    decreases |payloads|
  {
    if payloads == [] then (a, [])
    else
      var r := Assemble(accept, a, payloads[0]);
      var rest := Deliver(accept, r.0, payloads[1..]);
      (rest.0, [r.1] + rest.1)
  }

  function DeliverChunks(accept: seq<Waypoint> -> bool, a: State, chunks: seq<Chunk>): (State, seq<Outcome>)
    decreases |chunks|
  {
    if chunks == [] then (a, [])
    else
      var r := AssembleChunk(accept, a, chunks[0]);
      var rest := DeliverChunks(accept, r.0, chunks[1..]);
      (rest.0, [r.1] + rest.1)
  }

  /** These payloads carry these chunks. */
  ghost predicate Carry(payloads: seq<seq<byte>>, chunks: seq<Chunk>) {
    |payloads| == |chunks| && forall i :: 0 <= i < |chunks| ==> DecodeChunk(payloads[i]) == Ok(chunks[i])
  }

  lemma {:induction false} DeliverCarried(accept: seq<Waypoint> -> bool, a: State, payloads: seq<seq<byte>>,
                                          chunks: seq<Chunk>)
    requires Carry(payloads, chunks)
    ensures Deliver(accept, a, payloads) == DeliverChunks(accept, a, chunks)
    decreases |chunks|
  {
    if chunks != [] {
      DeliverCarried(accept, Assemble(accept, a, payloads[0]).0, payloads[1..], chunks[1..]);
    }
  }

  lemma ChunkDecodes(routeId: u16, points: seq<Waypoint>, k: nat, loopRoute: bool, start: nat)
    requires 0 < k <= MAX_POINTS && start < |points| < 0x1_0000 && AllFinite(points)
    ensures var c := ChunkAt(routeId, points, k, loopRoute, start);
            DecodeChunk(ChunkBytes(c)) == Ok(c)
  {
    var c := ChunkAt(routeId, points, k, loopRoute, start);
    ChunkBijection(ChunkBytes(c), c);
  }

  /** What the host encodes is what the firmware decodes, and the payload keeps to the limit. */
  ghost predicate Carriable(c: Chunk, limit: nat) {
    |c.points| <= MAX_POINTS && |ChunkBytes(c)| <= limit && DecodeChunk(ChunkBytes(c)) == Ok(c)
  }

  ghost predicate AllCarriable(chunks: seq<Chunk>, limit: nat) {
    forall i :: 0 <= i < |chunks| ==> Carriable(chunks[i], limit)
  }

  lemma CarriableFirst(c: Chunk, rest: seq<Chunk>, limit: nat)
    requires Carriable(c, limit) && AllCarriable(rest, limit)
    ensures AllCarriable([c] + rest, limit)
  {
  }

  lemma {:induction false} ChunksCarriable(routeId: u16, points: seq<Waypoint>, limit: nat, loopRoute: bool, start: nat)
    requires PerChunk(limit) > 0 && start <= |points| < 0x1_0000 && AllFinite(points)
    ensures AllCarriable(Chunks(routeId, points, PerChunk(limit), loopRoute, start), limit)
    decreases |points| - start
  {
    if start < |points| {
      var c := ChunkAt(routeId, points, PerChunk(limit), loopRoute, start);
      ChunkDecodes(routeId, points, PerChunk(limit), loopRoute, start);
      ChunksCarriable(routeId, points, limit, loopRoute, start + |c.points|);
      CarriableFirst(c, Chunks(routeId, points, PerChunk(limit), loopRoute, start + |c.points|), limit);
    }
  }

  lemma PayloadsCarry(chunks: seq<Chunk>, limit: nat)
    requires AllCarriable(chunks, limit)
    ensures forall i :: 0 <= i < |chunks| ==> |chunks[i].points| <= MAX_POINTS
    ensures Carry(PayloadsOf(chunks), chunks)
  {
    assert forall i :: 0 <= i < |chunks| ==> Carriable(chunks[i], limit);
  }

  function PayloadsOf(chunks: seq<Chunk>): (ps: seq<seq<byte>>)
    requires forall i :: 0 <= i < |chunks| ==> |chunks[i].points| <= MAX_POINTS
    ensures |ps| == |chunks| && forall i :: 0 <= i < |ps| ==> ps[i] == ChunkBytes(chunks[i])
  {
    seq(|chunks|, i requires 0 <= i < |chunks| => ChunkBytes(chunks[i]))
  }

  lemma FlagBits(start: nat, end: nat, total: nat, loopRoute: bool)
    ensures var f := FlagsAt(start, end, total, loopRoute);
            (Clears(f) <==> start == 0) && (Loops(f) <==> loopRoute) && (Finishes(f) <==> end == total)
  {
  }

  lemma OneChunkAssembles(accept: seq<Waypoint> -> bool, a: State, routeId: u16, points: seq<Waypoint>, k: nat,
                          start: nat)
    requires 0 < k && start < |points| <= MAX_WAYPOINTS && accept(points)
    requires start > 0 ==> a == State(routeId, |points|, points[..start])
    ensures var c := ChunkAt(routeId, points, k, false, start);
            var end := start + |c.points|;
            AssembleChunk(accept, a, c) ==
            (State(routeId, |points|, points[..end]), if end == |points| then Activated(points) else Stored)
  {
    var c := ChunkAt(routeId, points, k, false, start);
    FlagBits(start, start + |c.points|, |points|, false);
    assert points[..start] + c.points == points[..start + |c.points|];
    assert points[..|points|] == points;
  }

  ghost predicate StoredThenActive(os: seq<Outcome>, points: seq<Waypoint>) {
    os != [] && os[|os| - 1] == Activated(points) && forall i :: 0 <= i < |os| - 1 ==> os[i] == Stored
  }

  lemma {:induction false} ChunksAssemble(accept: seq<Waypoint> -> bool, a: State, routeId: u16, points: seq<Waypoint>,
                                          k: nat, start: nat)
    requires 0 < k && start < |points| <= MAX_WAYPOINTS && accept(points)
    requires start > 0 ==> a == State(routeId, |points|, points[..start])
    ensures var r := DeliverChunks(accept, a, Chunks(routeId, points, k, false, start));
            r.0 == State(routeId, |points|, points) && StoredThenActive(r.1, points)
    decreases |points| - start
  {
    OneChunkAssembles(accept, a, routeId, points, k, start);
    var c := ChunkAt(routeId, points, k, false, start);
    var end := start + |c.points|;
    var rest := Chunks(routeId, points, k, false, end);
    assert Chunks(routeId, points, k, false, start)[1..] == rest;
    if end < |points| {
      ChunksAssemble(accept, State(routeId, |points|, points[..end]), routeId, points, k, end);
    } else {
      assert points[..end] == points;
    }
  }

  /** Main result: whatever the assembler held before, the payloads of a route that the controller
      accepts, cut to any negotiated limit that carries a point, make exactly that route active, and
      only the last payload does. */
  lemma RouteRoundTrip(accept: seq<Waypoint> -> bool, a: State, routeId: u16, points: seq<Waypoint>, limit: nat)
    requires PerChunk(limit) > 0 && 0 < |points| <= MAX_WAYPOINTS && AllFinite(points) && accept(points)
    ensures var chunks := Chunks(routeId, points, PerChunk(limit), false, 0);
            && AllCarriable(chunks, limit) && (forall i :: 0 <= i < |chunks| ==> |chunks[i].points| <= MAX_POINTS)
            && var r := Deliver(accept, a, PayloadsOf(chunks));
               r.0 == State(routeId, |points|, points) && StoredThenActive(r.1, points)
  {
    var chunks := Chunks(routeId, points, PerChunk(limit), false, 0);
    ChunksCarriable(routeId, points, limit, false, 0);
    PayloadsCarry(chunks, limit);
    DeliverCarried(accept, a, PayloadsOf(chunks), chunks);
    ChunksAssemble(accept, a, routeId, points, PerChunk(limit), 0);
  }

  /** A looped route, which the host can send, is refused chunk by chunk and changes nothing. */
  lemma {:induction false} LoopRouteRefused(accept: seq<Waypoint> -> bool, a: State, routeId: u16,
                                            points: seq<Waypoint>, k: nat, start: nat)
    requires 0 < k && start <= |points| < 0x1_0000
    ensures var r := DeliverChunks(accept, a, Chunks(routeId, points, k, true, start));
            r.0 == a && forall i :: 0 <= i < |r.1| ==> r.1[i] == Rejected
    decreases |points| - start
  {
    if start < |points| {
      var c := ChunkAt(routeId, points, k, true, start);
      FlagBits(start, start + |c.points|, |points|, true);
      assert Chunks(routeId, points, k, true, start)[1..] == Chunks(routeId, points, k, true, start + |c.points|);
      LoopRouteRefused(accept, a, routeId, points, k, start + |c.points|);
    }
  }

  // ------------------------------------------------------- every run

  function After(accept: seq<Waypoint> -> bool, payloads: seq<seq<byte>>): State {
    if payloads == [] then State(0, 0, [])
    else Assemble(accept, After(accept, payloads[..|payloads| - 1]), payloads[|payloads| - 1]).0
  }

  /** The chunks taken since the last clear flag, after one more payload. */
  function KeptNext(a: State, kept: seq<Chunk>, payload: seq<byte>): seq<Chunk> {
    var d := DecodeChunk(payload);
    if d.Err? || !Admissible(d.value) then kept
    else
      var base := if Clears(d.value.flags) then [] else kept;
      if Continues(Cleared(a, d.value), d.value) then base + [d.value] else base
  }

  /** The chunks taken since the last clear flag. */
  function Kept(accept: seq<Waypoint> -> bool, payloads: seq<seq<byte>>): seq<Chunk> {
    if payloads == [] then []
    else
      var init := payloads[..|payloads| - 1];
      KeptNext(After(accept, init), Kept(accept, init), payloads[|payloads| - 1])
  }

  function PointsOf(chunks: seq<Chunk>): seq<Waypoint> {
    if chunks == [] then [] else PointsOf(chunks[..|chunks| - 1]) + chunks[|chunks| - 1].points
  }

  /** The i-th chunk belongs to the current route and starts where the ones before it end. */
  predicate PieceOf(a: State, chunks: seq<Chunk>, i: nat)
    requires i < |chunks|
  {
    var c := chunks[i];
    c.routeId == a.routeId && c.total == a.expected && c.points != [] && c.start == |PointsOf(chunks[..i])|
  }

  predicate OneRoute(a: State, chunks: seq<Chunk>) {
    forall i :: 0 <= i < |chunks| ==> PieceOf(a, chunks, i)
  }

  /** Main result on runs: the collected waypoints are always the concatenation of the chunks taken
      since the last clear flag, which are consecutive pieces of one route of at most 32 waypoints. */
  lemma {:induction false} CollectedIsKept(accept: seq<Waypoint> -> bool, payloads: seq<seq<byte>>)
    ensures var a, kept := After(accept, payloads), Kept(accept, payloads);
            Fits(a) && a.points == PointsOf(kept) && OneRoute(a, kept)
  {
    if payloads != [] {
      var init := payloads[..|payloads| - 1];
      CollectedIsKept(accept, init);
      CollectedNext(accept, After(accept, init), Kept(accept, init), payloads[|payloads| - 1]);
    }
  }

  lemma CollectedNext(accept: seq<Waypoint> -> bool, a: State, kept: seq<Chunk>, payload: seq<byte>)
    requires Fits(a) && a.points == PointsOf(kept) && OneRoute(a, kept)
    ensures var b := Assemble(accept, a, payload).0;
            Fits(b) && b.points == PointsOf(KeptNext(a, kept, payload)) && OneRoute(b, KeptNext(a, kept, payload))
  {
    AssembleFits(accept, a, payload);
    var d := DecodeChunk(payload);
    if d.Ok? && Admissible(d.value) {
      var b, base := Cleared(a, d.value), if Clears(d.value.flags) then [] else kept;
      assert b.points == PointsOf(base) && OneRoute(b, base);
      if Continues(b, d.value) {
        KeepOne(b, base, d.value);
      }
    }
  }

  lemma KeepOne(b: State, base: seq<Chunk>, c: Chunk)
    requires b.points == PointsOf(base) && OneRoute(b, base) && Continues(b, c)
    ensures PointsOf(base + [c]) == b.points + c.points
    ensures OneRoute(b.(points := b.points + c.points), base + [c])
  {
    var all := base + [c];
    assert all[..|base|] == base;
    forall i | 0 <= i < |all| ensures PieceOf(b.(points := b.points + c.points), all, i) {
      if i < |base| {
        assert PieceOf(b, base, i) && all[i] == base[i];
        assert all[..i] == base[..i];
      }
    }
  }
}
