/** What an accepted landmark of src/ekf.cpp does to the estimate, and what its model row by row means on the plane. */
module Landmarks {
  import opened Corrections
  import opened Ekf
  import opened EstimatorRuns
  import opened KalmanPair
  import opened LinearAlgebra
  import opened Reals
  import opened Words

  // ------------------------------------------------------- any pair of measurements

  /** What two rows see of the gains that solve for them. */
  lemma RowsSeeGains(p: Mat, h0: Vec, h1: Vec, r0: real, r1: real)
    requires Square(p, N) && Symmetric(p) && |h0| == |h1| == N
    requires Determinant(InnovationOf(p, h0, h1, r0, r1)) != 0.0
    ensures var s, g0, g1 := InnovationOf(p, h0, h1, r0, r1), Right(p, h0), Right(p, h1);
            var k0, k1, m := FirstGain(g0, g1, s), SecondGain(g0, g1, s), InverseOf(s);
            && Dot(h0, k0) == 1.0 - Times(r0, m.i00) && Dot(h0, k1) == -Times(r0, m.i01)
            && Dot(h1, k0) == -Times(r1, m.i10) && Dot(h1, k1) == 1.0 - Times(r1, m.i11)
  {
    var s, g0, g1 := InnovationOf(p, h0, h1, r0, r1), Right(p, h0), Right(p, h1);
    var m := InverseOf(s);
    FormSymmetric(p, h0, h1);
    SeesBlend(m.i00, g0, m.i10, g1, h0);
    SeesBlend(m.i01, g0, m.i11, g1, h0);
    SeesBlend(m.i00, g0, m.i10, g1, h1);
    SeesBlend(m.i01, g0, m.i11, g1, h1);
    InverseAlgebra(s, m, Dot(h0, g0), Dot(h0, g1), Dot(h1, g1), r0, r1);
  }

  lemma InverseAlgebra(s: Innovation, m: Inverse, a: real, b: real, d: real, r0: real, r1: real)
    requires s == Innovation(r0 + a, b, r1 + d) && Determinant(s) != 0.0 && m == InverseOf(s)
    ensures Times(m.i00, a) + Times(m.i10, b) == 1.0 - Times(r0, m.i00)
    ensures Times(m.i01, a) + Times(m.i11, b) == -Times(r0, m.i01)
    ensures Times(m.i00, b) + Times(m.i10, d) == -Times(r1, m.i10)
    ensures Times(m.i01, b) + Times(m.i11, d) == 1.0 - Times(r1, m.i11)
  {
    GainAlgebra(s, a, b, d, r0, r1, 1.0 / Determinant(s));
  }

  lemma SeesBlend(a: real, u: Vec, b: real, v: Vec, h: Vec)
    requires |u| == |v| == |h|
    ensures Dot(h, Blend(a, u, b, v)) == Times(a, Dot(h, u)) + Times(b, Dot(h, v))
  {
    BlendDot(a, u, b, v, h);
    DotCommutes(Blend(a, u, b, v), h);
    DotCommutes(u, h);
    DotCommutes(v, h);
  }

  /** The change of the state, whose heading may have lost whole turns. */
  lemma ChangeSeen(x: Vec, k0: Vec, k1: Vec, y0: real, y1: real, h: Vec) returns (k: int)
    requires |x| == |k0| == |k1| == |h| == N
    ensures Dot(h, Gaps(CorrectedPair(x, k0, k1, y0, y1), x))
         == Times(Dot(h, k0), y0) + Times(Dot(h, k1), y1) - Times(h[HEADING], Turns(k))
    ensures CorrectedPair(x, k0, k1, y0, y1)[HEADING] == MovedByPair(x, k0, k1, y0, y1)[HEADING] - Turns(k)
  {
    var moved := MovedByPair(x, k0, k1, y0, y1);
    k := NormalizeTurns(moved[HEADING]);
    var b, g := Blend(y0, k0, y1, k1), Gaps(CorrectedPair(x, k0, k1, y0, y1), x);
    SeesBlend(y0, k0, y1, k1, h);
    forall i | 0 <= i < N ensures b[i] == moved[i] - x[i] {
    }
    TurnedDot(h, b, g, Turns(k));
  }

  lemma TurnedDot(h: Vec, b: Vec, g: Vec, turn: real)
    requires |h| == |b| == |g| == N && g == b[HEADING := b[HEADING] - turn]
    ensures Dot(h, g) == Dot(h, b) - Times(h[HEADING], turn)
  {
    SixTerms(h, b);
    SixTerms(h, g);
    assert h[2] * (b[2] - turn) == h[2] * b[2] - h[2] * turn;
  }

  /** Main result on pairs: after an accepted one, what each row still lacks of its innovation is its measurement
      variance times the weighted innovation, up to whole turns where the row sees the heading. */
  lemma PairPulls(c: Config, f: Filter, y0: real, y1: real, h0: Vec, h1: Vec, r0: real, r1: real, gate: real,
                  turn: bool)
    returns (k: int)
    requires ValidConfig(c) && Sound(c, f) && f.initialized && |h0| == |h1| == N && r0 > 0.0 && r1 > 0.0 && gate > 0.0
    requires PairStep(c, f, y0, y1, h0, h1, r0, r1, gate, turn).1.result == Accepted
    ensures var f', s := PairStep(c, f, y0, y1, h0, h1, r0, r1, gate, turn).0, InnovationOf(f.cov, h0, h1, r0, r1);
            var z1 := if turn then Normalize(y1) else y1;
            && Shaped(f') && Determinant(s) > 0.0
            && var d, w := Gaps(f'.state, f.state), Weighted(s, y0, z1);
               && y0 - Dot(h0, d) == Times(r0, w.0) + Times(h0[HEADING], Turns(k))
               && z1 - Dot(h1, d) == Times(r1, w.1) + Times(h1[HEADING], Turns(k))
  {
    PairStepExact(c, f, y0, y1, h0, h1, r0, r1, gate, turn);
    var s, g0, g1 := InnovationOf(f.cov, h0, h1, r0, r1), Right(f.cov, h0), Right(f.cov, h1);
    var z1 := if turn then Normalize(y1) else y1;
    k := RowsPull(f.state, f.cov, y0, z1, h0, h1, r0, r1);
  }

  lemma RowsPull(x: Vec, p: Mat, y0: real, y1: real, h0: Vec, h1: Vec, r0: real, r1: real) returns (k: int)
    requires |x| == |h0| == |h1| == N && Square(p, N) && Symmetric(p)
    requires Determinant(InnovationOf(p, h0, h1, r0, r1)) != 0.0
    ensures var s, g0, g1 := InnovationOf(p, h0, h1, r0, r1), Right(p, h0), Right(p, h1);
            var d := Gaps(CorrectedPair(x, FirstGain(g0, g1, s), SecondGain(g0, g1, s), y0, y1), x);
            var w := Weighted(s, y0, y1);
            && y0 - Dot(h0, d) == Times(r0, w.0) + Times(h0[HEADING], Turns(k))
            && y1 - Dot(h1, d) == Times(r1, w.1) + Times(h1[HEADING], Turns(k))
  {
    var s, g0, g1 := InnovationOf(p, h0, h1, r0, r1), Right(p, h0), Right(p, h1);
    var k0, k1, m := FirstGain(g0, g1, s), SecondGain(g0, g1, s), InverseOf(s);
    RowsSeeGains(p, h0, h1, r0, r1);
    k := ChangeSeen(x, k0, k1, y0, y1, h0);
    var j := ChangeSeen(x, k0, k1, y0, y1, h1);
    assert Turns(j) == Turns(k);
    LeftOver(Dot(h0, k0), Dot(h0, k1), r0, m.i00, m.i01, y0, y1);
    LeftOver(Dot(h1, k1), Dot(h1, k0), r1, m.i11, m.i10, y1, y0);
  }

  // ------------------------------------------------------- a landmark

  /** The motion (u, v) along the line of sight (dx, dy) of length d. */
  function Along(dx: real, dy: real, d: real, u: real, v: real): real
    requires d != 0.0
  {
    (Times(dx, u) + Times(dy, v)) / d
  }

  /** By what angle the line of sight turns, to first order, when the vehicle moves by (u, v). */
  function Around(dx: real, dy: real, d: real, u: real, v: real): real
    requires d > 0.0
  {
    SqrPositive(d);
    (Times(dy, u) - Times(dx, v)) / Sqr(d)
  }

  /** From state x to g: what the change along the line of sight lacks of the range innovation y0, and the change of
      direction of the bearing innovation y1, are the measurement variances times the weighted innovations. */
  ghost predicate Pulled(c: Config, x: Vec, g: Vec, s: Innovation, y0: real, y1: real, dx: real, dy: real, d: real,
                         k: int)
    requires |x| == |g| == N
  {
    d > 0.0 && Determinant(s) > 0.0 &&
    var u, v, turn := g[0] - x[0], g[1] - x[1], g[HEADING] - x[HEADING];
    && y0 + Along(dx, dy, d, u, v) == Times(c.landmarkRange, Weighted(s, y0, y1).0)
    && y1 - Around(dx, dy, d, u, v) + turn + Turns(k) == Times(c.landmarkBearing, Weighted(s, y0, y1).1)
  }

  /** Main result on landmarks: the innovations are the measured range less the distance to the landmark, and the
      measured bearing less the direction to it from the heading; an accepted landmark pulls the state towards both, up
      to what vanishes with the noise. */
  lemma LandmarkPulls(c: Config, t: Trig, f: Filter, m: Landmark)
    returns (dx: real, dy: real, d: real, y0: real, y1: real, h0: Vec, h1: Vec, k: int)
    requires ValidConfig(c) && Sound(c, f) && PositiveRoots(t) && ExactRoots(t)
    requires SeeLandmark(c, t, f, m).1.result == Accepted
    ensures dx == m.x - f.state[0] && dy == m.y - f.state[1]
    ensures LandmarkInnovation(t, m, f.state[HEADING], dx, dy, d, y0, y1) && Rows(h0, h1, dx, dy, d)
    ensures Shaped(SeeLandmark(c, t, f, m).0) && SeeLandmark(c, t, f, m).0.seen.landmark == Some(m.at)
    ensures Pulled(c, f.state, SeeLandmark(c, t, f, m).0.state,
                   InnovationOf(f.cov, h0, h1, c.landmarkRange, c.landmarkBearing), y0, y1, dx, dy, d, k)
  {
    var turned;
    dx, dy, d, y0, turned, h0, h1 := LandmarkSeen(c, t, f, m);
    y1 := Normalize(turned);
    k := SightPulls(c, f, SeeLandmark(c, t, f, m).0, y0, turned, h0, h1, dx, dy, d);
  }

  lemma LandmarkSeen(c: Config, t: Trig, f: Filter, m: Landmark)
    returns (dx: real, dy: real, d: real, y0: real, turned: real, h0: Vec, h1: Vec)
    requires ValidConfig(c) && Sound(c, f) && PositiveRoots(t) && ExactRoots(t)
    requires SeeLandmark(c, t, f, m).1.result == Accepted
    ensures f.initialized && |h0| == |h1| == N && dx == m.x - f.state[0] && dy == m.y - f.state[1]
    ensures LandmarkInnovation(t, m, f.state[HEADING], dx, dy, d, y0, Normalize(turned)) && Rows(h0, h1, dx, dy, d)
    ensures var r := PairStep(c, f, y0, Normalize(turned), h0, h1, c.landmarkRange, c.landmarkBearing, c.landmarkGate,
                              true);
            r.1.result == Accepted && SeeLandmark(c, t, f, m).0 == r.0.(seen := f.seen.(landmark := Some(m.at)))
  {
    var s := SeenLandmark(c, t, f, m);
    dx, dy := SightShape(t, f.state, m, c.minRange);
    d, y0, turned, h0, h1 := s.range, Gap(m.range, s.range), Gap(m.bearing, s.bearing), s.rangeRow, s.bearingRow;
  }

  /** The rows of a line of sight (dx, dy) of length d. */
  predicate Rows(h0: Vec, h1: Vec, dx: real, dy: real, d: real) {
    && d > 0.0 && Sqr(d) > 0.0
    && h0 == [-dx / d, -dy / d, 0.0, 0.0, 0.0, 0.0] && h1 == [dy / Sqr(d), -dx / Sqr(d), -1.0, 0.0, 0.0, 0.0]
  }

  /** Distance and innovations of a landmark at (dx, dy) from a vehicle with this heading. */
  predicate LandmarkInnovation(t: Trig, m: Landmark, heading: real, dx: real, dy: real, d: real, y0: real, y1: real) {
    && d > 0.0 && Sqr(d) == Sqr(dx) + Sqr(dy)
    && y0 == m.range - d && y1 == Normalize(m.bearing - Normalize(t.atan2(dy, dx) - heading))
  }

  lemma SightShape(t: Trig, x: Vec, m: Landmark, minRange: real) returns (dx: real, dy: real)
    requires |x| == N && minRange > 0.0 && PositiveRoots(t) && ExactRoots(t) && Sight(t, x, m.x, m.y, minRange).Some?
    ensures dx == m.x - x[0] && dy == m.y - x[1]
    ensures var s := Sight(t, x, m.x, m.y, minRange).value;
            && LandmarkInnovation(t, m, x[HEADING], dx, dy, s.range, Gap(m.range, s.range),
                                  Normalize(Gap(m.bearing, s.bearing)))
            && Rows(s.rangeRow, s.bearingRow, dx, dy, s.range)
  {
    SqrPositive(minRange);
    dx, dy := m.x - x[0], m.y - x[1];
  }

  /** The paired step an accepted landmark takes. */
  lemma SeenLandmark(c: Config, t: Trig, f: Filter, m: Landmark) returns (s: Sighting)
    requires ValidConfig(c) && Sound(c, f) && PositiveRoots(t) && SeeLandmark(c, t, f, m).1.result == Accepted
    ensures f.initialized && Sight(t, f.state, m.x, m.y, c.minRange) == Some(s)
    ensures var r := PairStep(c, f, Gap(m.range, s.range), Normalize(Gap(m.bearing, s.bearing)), s.rangeRow,
                              s.bearingRow,
                              c.landmarkRange, c.landmarkBearing, c.landmarkGate, true);
            r.1.result == Accepted && SeeLandmark(c, t, f, m).0 == r.0.(seen := f.seen.(landmark := Some(m.at)))
  {
    s := Sight(t, f.state, m.x, m.y, c.minRange).value;
  }

  /** The paired step of a landmark, for any rows of this form. */
  lemma SightPulls(c: Config, f: Filter, g: Filter, y0: real, turned: real, h0: Vec, h1: Vec, dx: real, dy: real,
                   d: real)
    returns (k: int)
    requires ValidConfig(c) && Sound(c, f) && f.initialized && |h0| == |h1| == N && Rows(h0, h1, dx, dy, d)
    requires var r := PairStep(c, f, y0, Normalize(turned), h0, h1, c.landmarkRange, c.landmarkBearing, c.landmarkGate,
                               true);
             r.1.result == Accepted && g == r.0.(seen := g.seen)
    ensures Shaped(g) && Pulled(c, f.state, g.state, InnovationOf(f.cov, h0, h1, c.landmarkRange, c.landmarkBearing),
                                y0,
                                Normalize(turned), dx, dy, d, k)
  {
    NormalizedTwice(turned);
    k := PairPulls(c, f, y0, Normalize(turned), h0, h1, c.landmarkRange, c.landmarkBearing, c.landmarkGate, true);
    var change := Gaps(g.state, f.state);
    RangeRowSees(h0, change, dx, dy, d);
    BearingRowSees(h1, change, dx, dy, d);
    ZeroTurns(k);
  }

  lemma NormalizedTwice(a: real)
    ensures Normalize(Normalize(a)) == Normalize(a)
  {
    var _ := NormalizeTurns(a);
    NormalizeFixed(Normalize(a));
  }

  lemma ZeroTurns(k: int)
    ensures Times(0.0, Turns(k)) == 0.0 && Times(-1.0, Turns(k)) == -Turns(k)
  {
  }

  lemma RangeRowSees(row: Vec, g: Vec, dx: real, dy: real, d: real)
    requires |row| == |g| == N && d > 0.0 && row == [-dx / d, -dy / d, 0.0, 0.0, 0.0, 0.0]
    ensures Dot(row, g) == -Along(dx, dy, d, g[0], g[1])
  {
    SixTerms(row, g);
    Quotients(-dx, -dy, d, g[0], g[1]);
    Quotients(dx, dy, d, g[0], g[1]);
    NegatedSum(dx, dy, d, g[0], g[1]);
  }

  lemma NegatedSum(a: real, b: real, d: real, u: real, v: real)
    requires d > 0.0
    ensures (Times(-a, u) + Times(-b, v)) / d == -((Times(a, u) + Times(b, v)) / d)
  {
    TimesNegates(a, u);
    TimesNegates(b, v);
  }

  lemma BearingRowSees(row: Vec, g: Vec, dx: real, dy: real, d: real)
    requires |row| == |g| == N && d > 0.0 && Sqr(d) > 0.0
    requires row == [dy / Sqr(d), -dx / Sqr(d), -1.0, 0.0, 0.0, 0.0]
    ensures Dot(row, g) == Around(dx, dy, d, g[0], g[1]) - g[HEADING]
  {
    SixTerms(row, g);
    Quotients(dy, -dx, Sqr(d), g[0], g[1]);
    TimesNegates(dx, g[1]);
  }

  lemma Quotients(a: real, b: real, s: real, u: real, v: real)
    requires s > 0.0
    ensures a / s * u + b / s * v == (Times(a, u) + Times(b, v)) / s
  {
    assert a / s * u == a * u / s && b / s * v == b * v / s;
  }

  // ------------------------------------------------------- what the rows are

  /** The predicted bearing, turned by the heading, points from the vehicle to the landmark. */
  lemma SightPoints(t: Trig, x: Vec, lx: real, ly: real, minRange: real)
    requires |x| == N && minRange > 0.0 && PositiveRoots(t) && Periodic(t) && Directs(t)
    requires Sight(t, x, lx, ly, minRange).Some?
    ensures var s := Sight(t, x, lx, ly, minRange).value;
            && Times(s.range, t.cos(s.bearing + x[HEADING])) == lx - x[0]
            && Times(s.range, t.sin(s.bearing + x[HEADING])) == ly - x[1]
  {
    var dx, dy := lx - x[0], ly - x[1];
    SqrPositive(minRange);
    var s, a := Sight(t, x, lx, ly, minRange).value, t.atan2(dy, dx);
    assert DirectionLaw(t, dy, dx) && Length2(t, dx, dy) == s.range;
    var k := NormalizeTurns(a - x[HEADING]);
    WholeTurns(t, a, k);
    assert s.bearing + x[HEADING] == a - Turns(k);
  }

  /** Main result on the range row: it is the exact first-order part of the squared distance. */
  lemma RangeRowExact(t: Trig, x: Vec, y: Vec, lx: real, ly: real, minRange: real)
    requires |x| == |y| == N && minRange > 0.0 && PositiveRoots(t) && ExactRoots(t)
    requires Sight(t, x, lx, ly, minRange).Some? && Sight(t, y, lx, ly, minRange).Some?
    ensures var r, s, d := Sight(t, x, lx, ly, minRange).value, Sight(t, y, lx, ly, minRange).value, Gaps(y, x);
            Sqr(s.range) == Sqr(r.range) + 2.0 * Times(r.range, Dot(r.rangeRow, d)) + Sqr(d[0]) + Sqr(d[1])
  {
    SqrPositive(minRange);
    var r, s, d := Sight(t, x, lx, ly, minRange).value, Sight(t, y, lx, ly, minRange).value, Gaps(y, x);
    var dx, dy := lx - x[0], ly - x[1];
    RangeRowSees(r.rangeRow, d, dx, dy, r.range);
    CancelQuotient(Times(dx, d[0]) + Times(dy, d[1]), r.range);
    MovedSquare(dx, d[0]);
    MovedSquare(dy, d[1]);
    assert lx - y[0] == dx - d[0] && ly - y[1] == dy - d[1];
    TimesNegates(r.range, Along(dx, dy, r.range, d[0], d[1]));
  }

  lemma CancelQuotient(a: real, s: real)
    requires s > 0.0
    ensures Times(s, a / s) == a
  {
  }

  lemma MovedSquare(a: real, u: real)
    ensures Sqr(a - u) == Sqr(a) - 2.0 * Times(a, u) + Sqr(u)
  {
  }

  /** Main result on the bearing row: from two positions with one heading, its first-order change is, exactly, the sine
      of the change of bearing between the two lines of sight, scaled by their lengths. */
  lemma BearingRowExact(t: Trig, x: Vec, y: Vec, lx: real, ly: real, minRange: real)
    requires |x| == |y| == N && x[HEADING] == y[HEADING] && minRange > 0.0 && PositiveRoots(t) && ExactRoots(t)
    requires Periodic(t) && Directs(t) && Subtracts(t)
    requires Sight(t, x, lx, ly, minRange).Some? && Sight(t, y, lx, ly, minRange).Some?
    ensures var r, s, d := Sight(t, x, lx, ly, minRange).value, Sight(t, y, lx, ly, minRange).value, Gaps(y, x);
            Times(Times(s.range, r.range), t.sin(s.bearing - r.bearing)) == Times(Sqr(r.range), Dot(r.bearingRow, d))
  {
    SqrPositive(minRange);
    var r, s, d := Sight(t, x, lx, ly, minRange).value, Sight(t, y, lx, ly, minRange).value, Gaps(y, x);
    var dx, dy := lx - x[0], ly - x[1];
    SightPoints(t, x, lx, ly, minRange);
    SightPoints(t, y, lx, ly, minRange);
    var a, b := r.bearing + x[HEADING], s.bearing + y[HEADING];
    assert DifferenceLaw(t, b, a) && b - a == s.bearing - r.bearing;
    Crossed(s.range, r.range, t.sin(b), t.cos(b), t.sin(a), t.cos(a));
    SqrPositive(r.range);
    BearingRowSees(r.bearingRow, d, dx, dy, r.range);
    CancelQuotient(Times(dy, d[0]) - Times(dx, d[1]), Sqr(r.range));
    assert lx - y[0] == dx - d[0] && ly - y[1] == dy - d[1];
    CrossMoved(dx, dy, d[0], d[1]);
  }

  lemma Crossed(s: real, r: real, sb: real, cb: real, sa: real, ca: real)
    ensures Times(Times(s, r), Times(sb, ca) - Times(cb, sa))
         == Times(Times(s, sb), Times(r, ca)) - Times(Times(s, cb), Times(r, sa))
  {
  }

  lemma CrossMoved(dx: real, dy: real, u: real, v: real)
    ensures Times(dy - v, dx) - Times(dx - u, dy) == Times(dy, u) - Times(dx, v)
  {
  }
}
