/** What an accepted measurement does to the estimate in src/ekf.cpp: how much of the gap it closes, and what
    variance it leaves. */
module Corrections {
  import opened Covariance
  import opened Ekf
  import opened EstimatorRuns
  import opened Kalman
  import opened KalmanPair
  import opened LinearAlgebra
  import opened Reals
  import opened Words

  function AtLeast(v: real, floor: real): real {
    if v < floor then floor else v
  }

  /** The fraction of the gap a measurement with noise r closes, and the fraction it leaves. */
  function Taken(p: real, r: real): real
    requires p + r != 0.0
  {
    p / (p + r)
  }

  function Remaining(p: real, r: real): real
    requires p + r != 0.0
  {
    r / (p + r)
  }

  lemma UnitGain(p: Mat, i: nat, j: nat)
    requires Square(p, |p|) && i < |p| && j < |p|
    ensures Right(p, Unit(|p|, i))[j] == p[j][i] && Dot(Unit(|p|, i), Right(p, Unit(|p|, i))) == p[i][i]
  {
    DotCommutes(p[j], Unit(|p|, i));
    DotUnit(i, p[j]);
    DiagonalQuad(p, i);
  }

  lemma GainAt(p: Mat, i: nat, r: real)
    requires Square(p, |p|) && i < |p| && p[i][i] + r != 0.0
    ensures InnovationVariance(p, Unit(|p|, i), r) == p[i][i] + r
    ensures Gain(Right(p, Unit(|p|, i)), p[i][i] + r)[i] == Taken(p[i][i], r)
  {
    UnitGain(p, i, i);
  }

  lemma PosteriorAt(p: Mat, i: nat, r: real)
    requires Square(p, |p|) && i < |p| && p[i][i] > 0.0 && r > 0.0
    ensures InnovationVariance(p, Unit(|p|, i), r) == p[i][i] + r
    ensures Posterior(p, Unit(|p|, i), r)[i][i] == Times(Remaining(p[i][i], r), p[i][i])
  {
    GainAt(p, i, r);
    UnitGain(p, i, i);
    var k, g := Gain(Right(p, Unit(|p|, i)), p[i][i] + r), Right(p, Unit(|p|, i));
    DowndateEntry(p, k, g, i, i);
    Remainder(p[i][i], r, p[i][i]);
  }

  /** What is left of g after the fraction p / (p + r) of it is taken. */
  lemma Remainder(p: real, r: real, g: real)
    requires p > 0.0 && r > 0.0
    ensures g - Times(Taken(p, r), g) == Times(Remaining(p, r), g)
  {
    QuotientSum(p, r);
    var k, q := p / (p + r), r / (p + r);
    assert g - k * g == (1.0 - k) * g;
  }

  lemma QuotientSum(p: real, r: real)
    requires p + r > 0.0
    ensures 1.0 - p / (p + r) == r / (p + r)
  {
    var s := p + r;
    assert p / s + r / s == s / s == 1.0;
  }

  /** A direct measurement of one component, the heading excepted: with prior variance p and noise r the gap to
      the measurement shrinks by r / (p + r), and so does the variance, down to the floor. */
  lemma DirectCorrection(c: Config, f: Filter, z: real, i: nat, r: real, gate: real)
    requires ValidConfig(c) && Sound(c, f) && f.initialized && i < N && i != HEADING && r > 0.0 && gate > 0.0
    requires ScalarStep(c, f, Gap(z, f.state[i]), Unit(N, i), r, gate).1.result == Accepted
    ensures Shaped(ScalarStep(c, f, Gap(z, f.state[i]), Unit(N, i), r, gate).0)
    ensures Corrects(f, ScalarStep(c, f, Gap(z, f.state[i]), Unit(N, i), r, gate).0, z, i, r, c.floor)
  {
    ScalarStepExact(c, f, Gap(z, f.state[i]), Unit(N, i), r, gate);
    Corrected1(c, f, z, i, r);
  }

  ghost predicate Corrects(f: Filter, f': Filter, z: real, i: nat, r: real, floor: real)
    requires Shaped(f) && Shaped(f') && i < N
  {
    var p := f.cov[i][i];
    p + r > 0.0 && Closer(f.state[i], f'.state[i], z, p, r) && f'.cov[i][i] == AtLeast(Times(Remaining(p, r), p), floor)
  }

  /** The gap to the measurement shrinks by the remaining share. */
  predicate Closer(x: real, x': real, z: real, p: real, r: real)
    requires p + r > 0.0
  {
    z - x' == Times(Remaining(p, r), Gap(z, x))
  }

  lemma Corrected1(c: Config, f: Filter, z: real, i: nat, r: real)
    requires ValidConfig(c) && Sound(c, f) && f.initialized && i < N && i != HEADING && r > 0.0
    ensures var h := Unit(N, i);
            var s := InnovationVariance(f.cov, h, r);
            && s > 0.0
            && Corrects(f, f.(state := Corrected(f.state, Gain(Right(f.cov, h), s), Gap(z, f.state[i])),
                              cov := Enforced(Posterior(f.cov, h, r), c.floor), healthy := true), z, i, r, c.floor)
  {
    DirectState(c, f, z, i, r);
    DirectCov(c, f, i, r);
  }

  lemma DirectCov(c: Config, f: Filter, i: nat, r: real)
    requires ValidConfig(c) && Sound(c, f) && f.initialized && i < N && r > 0.0
    ensures f.cov[i][i] > 0.0 && InnovationVariance(f.cov, Unit(N, i), r) == f.cov[i][i] + r
    ensures Enforced(Posterior(f.cov, Unit(N, i), r), c.floor)[i][i]
         == AtLeast(Times(Remaining(f.cov[i][i], r), f.cov[i][i]), c.floor)
  {
    PosteriorAt(f.cov, i, r);
    EnforcedEntry(Posterior(f.cov, Unit(N, i), r), c.floor, i, i);
  }

  lemma DirectState(c: Config, f: Filter, z: real, i: nat, r: real)
    requires ValidConfig(c) && Sound(c, f) && f.initialized && i < N && i != HEADING && r > 0.0
    ensures f.cov[i][i] > 0.0 && InnovationVariance(f.cov, Unit(N, i), r) == f.cov[i][i] + r
    ensures z - Corrected(f.state, Gain(Right(f.cov, Unit(N, i)), f.cov[i][i] + r), Gap(z, f.state[i]))[i]
            == Times(Remaining(f.cov[i][i], r), Gap(z, f.state[i]))
  {
    var p := f.cov[i][i];
    var k := Gain(Right(f.cov, Unit(N, i)), p + r);
    GainAt(f.cov, i, r);
    CorrectedAt(f.state, k, Gap(z, f.state[i]), i);
    GapAfter(z, f.state[i], p, r);
  }

  lemma GapAfter(z: real, x: real, p: real, r: real)
    requires p > 0.0 && r > 0.0
    ensures z - (x + Times(Taken(p, r), Gap(z, x))) == Times(Remaining(p, r), Gap(z, x))
  {
    Remainder(p, r, Gap(z, x));
  }

  lemma CorrectedAt(x: Vec, k: Vec, y: real, i: nat)
    requires |x| == |k| == N && i < N && i != HEADING
    ensures Corrected(x, k, y)[i] == x[i] + Times(k[i], y)
  {
  }

  /** Main result on the wheel: an accepted speed pulls the estimate towards it and never past it. */
  lemma WheelPulls(c: Config, f: Filter, speed: real, at: u32)
    requires ValidConfig(c) && Sound(c, f) && Wheel(c, f, speed, at).1.result == Accepted
    ensures Corrects(f, Wheel(c, f, speed, at).0, speed, SPEED, c.wheelVariance, c.floor)
    ensures Wheel(c, f, speed, at).0.seen.wheel == Some(at)
  {
    DirectCorrection(c, f, speed, SPEED, c.wheelVariance, c.wheelGate);
  }

  /** ... and on the measured yaw rate. */
  lemma YawRatePulls(c: Config, f: Filter, m: Imu)
    requires ValidConfig(c) && Sound(c, f) && f.initialized && YawCorrected(c, f, m).1.result == Accepted
    ensures Corrects(f, YawCorrected(c, f, m).0, m.yawRate, YAW_RATE, c.imuYawVariance, c.floor)
  {
    DirectCorrection(c, f.(seen := f.seen.(imu := Some(m.at))), m.yawRate, YAW_RATE, c.imuYawVariance, c.imuGate);
  }

  /** Main result on the gate: a plausible wheel speed is refused exactly if the squared gap exceeds the gate times the
      variances of estimate and measurement. */
  lemma WheelGated(c: Config, f: Filter, speed: real, at: u32) returns (y: real, s: real)
    requires ValidConfig(c) && Sound(c, f) && f.initialized && f.healthy && Abs(speed) <= c.maxSpeed
    ensures y == speed - f.state[SPEED] && s == f.cov[SPEED][SPEED] + c.wheelVariance
    ensures Wheel(c, f, speed, at).1.result == RejectedGate <==> Sqr(y) > Times(c.wheelGate, s)
  {
    y := Gap(speed, f.state[SPEED]);
    s := ScalarGated(c, f, y, Unit(N, SPEED), c.wheelVariance, c.wheelGate);
    DirectCov(c, f, SPEED, c.wheelVariance);
  }

  lemma ScalarGated(c: Config, f: Filter, y: real, h: Vec, r: real, gate: real) returns (s: real)
    requires ValidConfig(c) && Sound(c, f) && f.initialized && |h| == N && r > 0.0 && gate > 0.0
    ensures s == InnovationVariance(f.cov, h, r)
    ensures ScalarStep(c, f, y, h, r, gate).1.result == RejectedGate <==> Sqr(y) > Times(gate, s)
  {
    s := InnovationVariance(f.cov, h, r);
    ScalarStepExact(c, f, y, h, r, gate);
    GateOnProduct(y, s, gate);
  }

  lemma GateOnProduct(y: real, s: real, gate: real)
    requires s > 0.0
    ensures ScalarNis(y, s) > gate <==> Sqr(y) > Times(gate, s)
  {
    var q := ScalarNis(y, s);
    assert q * s == Sqr(y);
    if q > gate {
      PositiveProduct(q - gate, s);
    } else {
      NonnegativeProduct(gate - q, s);
    }
  }

  // ------------------------------------------------------- a position fix

  /** The innovation weighted by the inverse innovation covariance. */
  function Weighted(s: Innovation, y0: real, y1: real): (real, real)
    requires Determinant(s) != 0.0
  {
    (Times(InverseOf(s).i00, y0) + Times(InverseOf(s).i01, y1),
     Times(InverseOf(s).i10, y0) + Times(InverseOf(s).i11, y1))
  }

  lemma PairGains(p: Mat, s: Innovation, r0: real, r1: real)
    requires |p| == N && Square(p, N) && Symmetric(p) && Determinant(s) != 0.0
    requires s == InnovationOf(p, Unit(N, 0), Unit(N, 1), r0, r1)
    ensures var g0, g1 := Right(p, Unit(N, 0)), Right(p, Unit(N, 1));
            var k0, k1, m := FirstGain(g0, g1, s), SecondGain(g0, g1, s), InverseOf(s);
            && k0[0] == 1.0 - Times(r0, m.i00) && k1[0] == -Times(r0, m.i01)
            && k0[1] == -Times(r1, m.i10) && k1[1] == 1.0 - Times(r1, m.i11)
  {
    UnitGain(p, 0, 0);
    UnitGain(p, 1, 1);
    UnitGain(p, 0, 1);
    UnitGain(p, 1, 0);
    DotUnit(0, Right(p, Unit(N, 1)));
    GainAlgebra(s, p[0][0], p[0][1], p[1][1], r0, r1, 1.0 / Determinant(s));
  }

  lemma GainAlgebra(s: Innovation, a: real, b: real, d: real, r0: real, r1: real, c: real)
    requires s == Innovation(r0 + a, b, r1 + d) && c * Determinant(s) == 1.0
    ensures s.s11 * c * a + -s.s01 * c * b == 1.0 - r0 * (s.s11 * c) &&
            -s.s01 * c * a + s.s00 * c * b == -(r0 * (-s.s01 * c))
    ensures s.s11 * c * b + -s.s01 * c * d == -(r1 * (-s.s01 * c)) &&
            -s.s01 * c * b + s.s00 * c * d == 1.0 - r1 * (s.s00 * c)
  {
    assert a == s.s00 - r0 && b == s.s01 && d == s.s11 - r1;
    assert s.s11 * c * s.s00 - s.s01 * c * s.s01 == c * Determinant(s);
  }

  /** Main result on position fixes: after an accepted one the gap in each coordinate is its measurement variance
      times the weighted innovation, so it vanishes with the noise and the fix is never overshot by more. */
  lemma FixPulls(c: Config, f: Filter, x: real, y: real, at: u32)
    requires ValidConfig(c) && Sound(c, f) && Gnss(c, f, x, y, at).1.result == Accepted
    ensures var f', s := Gnss(c, f, x, y, at).0, InnovationOf(f.cov, Unit(N, 0), Unit(N, 1), c.gnssX, c.gnssY);
            && Determinant(s) > 0.0 && f'.seen.gnss == Some(at)
            && var w := Weighted(s, Gap(x, f.state[0]), Gap(y, f.state[1]));
               x - f'.state[0] == Times(c.gnssX, w.0) && y - f'.state[1] == Times(c.gnssY, w.1)
  {
    var y0, y1 := Gap(x, f.state[0]), Gap(y, f.state[1]);
    PairStepExact(c, f, y0, y1, Unit(N, 0), Unit(N, 1), c.gnssX, c.gnssY, c.gnssGate, false);
    var s := InnovationOf(f.cov, Unit(N, 0), Unit(N, 1), c.gnssX, c.gnssY);
    FixGap(c, f, x, y, s);
  }

  lemma FixGap(c: Config, f: Filter, x: real, y: real, s: Innovation)
    requires ValidConfig(c) && Sound(c, f) && f.initialized && Determinant(s) != 0.0
    requires s == InnovationOf(f.cov, Unit(N, 0), Unit(N, 1), c.gnssX, c.gnssY)
    ensures var g0, g1 := Right(f.cov, Unit(N, 0)), Right(f.cov, Unit(N, 1));
            var y0, y1 := Gap(x, f.state[0]), Gap(y, f.state[1]);
            var z := CorrectedPair(f.state, FirstGain(g0, g1, s), SecondGain(g0, g1, s), y0, y1);
            x - z[0] == Times(c.gnssX, Weighted(s, y0, y1).0) && y - z[1] == Times(c.gnssY, Weighted(s, y0, y1).1)
  {
    var g0, g1, m := Right(f.cov, Unit(N, 0)), Right(f.cov, Unit(N, 1)), InverseOf(s);
    PairGains(f.cov, s, c.gnssX, c.gnssY);
    var k0, k1 := FirstGain(g0, g1, s), SecondGain(g0, g1, s);
    var y0, y1 := Gap(x, f.state[0]), Gap(y, f.state[1]);
    LeftOver(k0[0], k1[0], c.gnssX, m.i00, m.i01, y0, y1);
    LeftOver(k1[1], k0[1], c.gnssY, m.i11, m.i10, y1, y0);
    PairCorrectedAt(f.state, k0, k1, y0, y1, 0);
    PairCorrectedAt(f.state, k0, k1, y0, y1, 1);
  }

  lemma LeftOver(k: real, l: real, r: real, a: real, b: real, y: real, z: real)
    requires k == 1.0 - Times(r, a) && l == -Times(r, b)
    ensures y - (Times(k, y) + Times(l, z)) == Times(r, Times(a, y) + Times(b, z))
  {
  }

  lemma PairCorrectedAt(x: Vec, k0: Vec, k1: Vec, y0: real, y1: real, i: nat)
    requires |x| == |k0| == |k1| == N && i < N && i != HEADING
    ensures CorrectedPair(x, k0, k1, y0, y1)[i] == x[i] + (Times(k0[i], y0) + Times(k1[i], y1))
  {
  }

  /** A plausible fix with a regular innovation is refused exactly if its statistic exceeds the gate. */
  lemma FixGated(c: Config, f: Filter, x: real, y: real, at: u32) returns (y0: real, y1: real)
    requires ValidConfig(c) && Sound(c, f) && f.initialized && f.healthy
    requires Abs(x) <= c.maxPosition && Abs(y) <= c.maxPosition
    requires Determinant(InnovationOf(f.cov, Unit(N, 0), Unit(N, 1), c.gnssX, c.gnssY)) > MINIMUM_DETERMINANT
    ensures y0 == x - f.state[0] && y1 == y - f.state[1]
    ensures Gnss(c, f, x, y, at).1.result == RejectedGate
            <==> PairNis(InnovationOf(f.cov, Unit(N, 0), Unit(N, 1), c.gnssX, c.gnssY), y0, y1) > c.gnssGate
  {
    y0, y1 := Gap(x, f.state[0]), Gap(y, f.state[1]);
    PairStepExact(c, f, y0, y1, Unit(N, 0), Unit(N, 1), c.gnssX, c.gnssY, c.gnssGate, false);
  }

  // ------------------------------------------------------- landmark geometry

  /** The rows of the landmark model: range changes one for one along the line of sight, bearing across it at one
      over the range, and turning the vehicle turns the bearing the other way. */
  lemma SightRows(t: Trig, x: Vec, lx: real, ly: real, minRange: real)
    requires |x| == N && minRange > 0.0 && PositiveRoots(t) && ExactRoots(t) && Sight(t, x, lx, ly, minRange).Some?
    ensures var s := Sight(t, x, lx, ly, minRange).value;
            && s.range > 0.0 && Sqr(s.range) == Sqr(lx - x[0]) + Sqr(ly - x[1])
            && Sqr(s.rangeRow[0]) + Sqr(s.rangeRow[1]) == 1.0
            && Times(s.rangeRow[0], s.bearingRow[0]) + Times(s.rangeRow[1], s.bearingRow[1]) == 0.0
            && Times(Sqr(s.bearingRow[0]) + Sqr(s.bearingRow[1]), Sqr(s.range)) == 1.0 && s.bearingRow[HEADING] == -1.0
  {
    var dx, dy := lx - x[0], ly - x[1];
    var squared := Sqr(dx) + Sqr(dy);
    SqrPositive(minRange);
    var range := t.root(squared);
    assert range > 0.0 && Sqr(range) == squared;
    UnitRow(dx, dy, range);
    AcrossRow(dx, dy, range, squared);
  }

  lemma UnitRow(dx: real, dy: real, range: real)
    requires range > 0.0 && Sqr(range) == Sqr(dx) + Sqr(dy)
    ensures Sqr(-dx / range) + Sqr(-dy / range) == 1.0
  {
    var u, v := -dx / range, -dy / range;
    assert u * range == -dx && v * range == -dy;
    SquaresScale(u, v, range, dx, dy);
    SqrPositive(range);
    UnitQuotient(Sqr(u) + Sqr(v), Sqr(range));
  }

  lemma SquaresScale(u: real, v: real, r: real, a: real, b: real)
    requires (u * r == a || u * r == -a) && (v * r == b || v * r == -b)
    ensures Times(Sqr(u) + Sqr(v), Sqr(r)) == Sqr(a) + Sqr(b)
  {
    assert Times(Sqr(u) + Sqr(v), Sqr(r)) == (u * r) * (u * r) + (v * r) * (v * r);
  }

  lemma UnitQuotient(a: real, s: real)
    requires s > 0.0 && Times(a, s) == s
    ensures a == 1.0
  {
    assert a == a * s / s;
  }

  lemma AcrossRow(dx: real, dy: real, range: real, squared: real)
    requires range > 0.0 && squared > 0.0 && Sqr(range) == squared == Sqr(dx) + Sqr(dy)
    ensures Times(-dx / range, dy / squared) + Times(-dy / range, -dx / squared) == 0.0
    ensures Times(Sqr(dy / squared) + Sqr(-dx / squared), squared) == 1.0
  {
    var u, v := dy / squared, -dx / squared;
    assert u * squared == dy && v * squared == -dx;
    var a, b := -dx / range, -dy / range;
    assert a * range == -dx && b * range == -dy;
    assert (a * u + b * v) * (range * squared) == -dx * dy + -dy * -dx;
    PositiveProduct(range, squared);
    ZeroQuotient(a * u + b * v, range * squared);
    SquaresScale(u, v, squared, dy, dx);
    Regroup(Sqr(u) + Sqr(v), squared);
    UnitQuotient(Times(Sqr(u) + Sqr(v), squared), squared);
  }

  lemma Regroup(a: real, s: real)
    ensures Times(Times(a, s), s) == Times(a, Sqr(s))
  {
  }

  lemma ZeroQuotient(a: real, s: real)
    requires s > 0.0 && a * s == 0.0
    ensures a == 0.0
  {
  }
}
