/** The six-state filter of src/ekf.cpp in exact arithmetic: what each call makes of the state and the
    covariance, and what every run of calls keeps. */
module Ekf {
  import opened Covariance
  import opened Kalman
  import opened KalmanPair
  import opened LinearAlgebra
  import opened Reals
  import opened Words

  const N: nat := 6
  const HEADING: nat := 2
  const SPEED: nat := 3
  const YAW_RATE: nat := 4
  const MINIMUM_DETERMINANT: real := 0.000000000001

  datatype Config = Config(initialVariance: Vec, processNoise: Vec, imuYawVariance: real, wheelVariance: real,
                           gnssX: real, gnssY: real, landmarkRange: real, landmarkBearing: real,
                           imuGate: real, wheelGate: real, gnssGate: real, landmarkGate: real,
                           minRange: real, maxRange: real, maxPosition: real, maxSpeed: real, maxAcceleration: real,
                           maxYawRate: real, maxDt: real, floor: real, maxCovariance: real,
                           imuTimeout: u32, wheelTimeout: u32, gnssTimeout: u32, landmarkTimeout: u32)

  predicate ValidConfig(c: Config) {
    && |c.initialVariance| == N && |c.processNoise| == N
    && (forall i :: 0 <= i < N ==> c.initialVariance[i] > 0.0) && (forall i :: 0 <= i < N ==> c.processNoise[i] >= 0.0)
    && c.imuYawVariance > 0.0 && c.wheelVariance > 0.0 && c.gnssX > 0.0 && c.gnssY > 0.0
    && c.landmarkRange > 0.0 && c.landmarkBearing > 0.0
    && c.imuGate > 0.0 && c.wheelGate > 0.0 && c.gnssGate > 0.0 && c.landmarkGate > 0.0
    && 0.0 < c.minRange < c.maxRange && c.maxPosition > 0.0 && c.maxSpeed > 0.0 && c.maxAcceleration > 0.0
    && c.maxYawRate > 0.0 && c.maxDt > 0.0 && 0.0 < c.floor < c.maxCovariance
    && c.imuTimeout > 0 && c.wheelTimeout > 0 && c.gnssTimeout > 0 && c.landmarkTimeout > 0
  }

  datatype UpdateResult = Accepted | RejectedGate | InvalidMeasurement | NotInitialized | NumericalFailure

  datatype Info = Info(result: UpdateResult, nis: real)

  /** When each sensor was last used; None before the first time. */
  datatype Seen = Seen(imu: Option<u32>, wheel: Option<u32>, gnss: Option<u32>, landmark: Option<u32>)

  datatype Filter = Filter(state: Vec, cov: Mat, initialized: bool, healthy: bool, seen: Seen)

  predicate Shaped(f: Filter) {
    |f.state| == N && |f.cov| == N && Square(f.cov, N)
  }

  predicate InBounds(c: Config, x: Vec)
    requires |x| == N
  {
    Abs(x[0]) <= c.maxPosition && Abs(x[1]) <= c.maxPosition && Abs(x[2]) <= PI && Abs(x[3]) <= c.maxSpeed &&
    Abs(x[4]) <= c.maxYawRate && Abs(x[5]) <= c.maxAcceleration
  }

  /** What every run keeps: the shape, and once initialized a bounded state with a healthy covariance. */
  ghost predicate Sound(c: Config, f: Filter) {
    Shaped(f) && (f.initialized ==> InBounds(c, f.state) && Healthy(f.cov, c.floor, c.maxCovariance))
  }

  // ------------------------------------------------------- one scalar measurement

  function WithHeading(x: Vec): (y: Vec)
    requires |x| == N
    ensures |y| == N
  {
    x[HEADING := Normalize(x[HEADING])]
  }

  function Moved(x: Vec, k: Vec, y: real): (z: Vec)
    requires |x| == |k| == N
    ensures |z| == N && forall i :: 0 <= i < N ==> z[i] == x[i] + Times(k[i], y)
  {
    seq(N, i requires 0 <= i < N => x[i] + Times(k[i], y))
  }

  function Corrected(x: Vec, k: Vec, y: real): (z: Vec)
    requires |x| == |k| == N
    ensures |z| == N
  {
    WithHeading(Moved(x, k, y))
  }

  /** The corrected state and covariance, committed if the health pass accepts both. */
  function Commit(c: Config, f: Filter, x: Vec, raw: Mat): (r: (Filter, bool))
    requires |x| == N && |raw| == N && Square(raw, N)
    ensures r.1 <==> InBounds(c, x) && DiagonalFits(raw, c.floor, c.maxCovariance)
    ensures r.0 == if r.1 then f.(state := x, cov := Enforced(raw, c.floor), healthy := true) else f.(healthy := false)
  {
    if InBounds(c, x) && DiagonalFits(raw, c.floor, c.maxCovariance)
    then (f.(state := x, cov := Enforced(raw, c.floor), healthy := true), true)
    else (f.(healthy := false), false)
  }

  function ScalarNis(y: real, s: real): real
    requires s != 0.0
  {
    y * y / s
  }

  /** scalar_update */
  function ScalarStep(c: Config, f: Filter, y: real, h: Vec, r: real, gate: real): (Filter, Info)
    requires Shaped(f) && |h| == N
  {
    if r <= 0.0 || gate <= 0.0 then (f, Info(InvalidMeasurement, 0.0))
    else
      var s := InnovationVariance(f.cov, h, r);
      if s <= 0.0 then (f, Info(NumericalFailure, 0.0))
      else
        var nis := ScalarNis(y, s);
        if nis > gate then (f, Info(RejectedGate, nis))
        else
          var k := Gain(Right(f.cov, h), s);
          var done := Commit(c, f, Corrected(f.state, k, y), Joseph(f.cov, k, h, r));
          (done.0, Info(if done.1 then Accepted else NumericalFailure, nis))
  }

  lemma InnovationPositive(c: Config, f: Filter, h: Vec, r: real)
    requires Sound(c, f) && f.initialized && |h| == N && r > 0.0
    ensures InnovationVariance(f.cov, h, r) >= r
  {
    assert Quad(f.cov, h) >= 0.0;
  }

  /** The posterior passes the covariance check and is healthy again. */
  lemma PosteriorHealthy(c: Config, p: Mat, h: Vec, r: real)
    requires ValidConfig(c) && Square(p, |p|) && Healthy(p, c.floor, c.maxCovariance) && |h| == |p| && r > 0.0
    requires InnovationVariance(p, h, r) > 0.0
    ensures DiagonalFits(Posterior(p, h, r), c.floor, c.maxCovariance)
    ensures Healthy(Enforced(Posterior(p, h, r), c.floor), c.floor, c.maxCovariance)
  {
    var q := Posterior(p, h, r);
    PosteriorPsd(p, h, r);
    forall i | 0 <= i < |p| ensures Quad(q, Unit(|p|, i)) <= Quad(p, Unit(|p|, i)) {
      PosteriorQuad(p, h, r, Unit(|p|, i));
    }
    LoweredFits(p, q, c.floor, c.maxCovariance);
    EnforcedHealthy(q, c.floor, c.maxCovariance);
  }

  /** Main result on scalar updates of a sound filter: never a singular innovation; a measurement is used
      exactly if it passes the gate and leaves the state in bounds; the covariance becomes P - g g' / s
      raised to the floor; and the filter stays sound. */
  lemma ScalarStepExact(c: Config, f: Filter, y: real, h: Vec, r: real, gate: real)
    requires ValidConfig(c) && Sound(c, f) && f.initialized && |h| == N && r > 0.0 && gate > 0.0
    ensures InnovationVariance(f.cov, h, r) >= r
    ensures var (f', info) := ScalarStep(c, f, y, h, r, gate);
            var s := InnovationVariance(f.cov, h, r);
            var x := Corrected(f.state, Gain(Right(f.cov, h), s), y);
            && Sound(c, f') && f'.initialized && info.nis == ScalarNis(y, s)
            && (info.result == RejectedGate <==> info.nis > gate)
            && (info.result == RejectedGate ==> f' == f)
            && (info.result == Accepted <==> info.nis <= gate && InBounds(c, x))
            && (info.result == Accepted ==>
                  f' == f.(state := x, cov := Enforced(Posterior(f.cov, h, r), c.floor), healthy := true))
            && (info.nis <= gate && !InBounds(c, x) ==> info.result == NumericalFailure && f' == f.(healthy := false))
  {
    InnovationPositive(c, f, h, r);
    PosteriorHealthy(c, f.cov, h, r);
    JosephIsPosterior(f.cov, h, r);
  }

  // ------------------------------------------------------- two measurements at once

  function MovedByPair(x: Vec, k0: Vec, k1: Vec, y0: real, y1: real): (z: Vec)
    requires |x| == |k0| == |k1| == N
    ensures |z| == N && forall i :: 0 <= i < N ==> z[i] == x[i] + (Times(k0[i], y0) + Times(k1[i], y1))
  {
    seq(N, i requires 0 <= i < N => x[i] + (Times(k0[i], y0) + Times(k1[i], y1)))
  }

  function CorrectedPair(x: Vec, k0: Vec, k1: Vec, y0: real, y1: real): (z: Vec)
    requires |x| == |k0| == |k1| == N
    ensures |z| == N
  {
    WithHeading(MovedByPair(x, k0, k1, y0, y1))
  }

  function PairNis(s: Innovation, y0: real, y1: real): real
    requires Determinant(s) != 0.0
  {
    var m := InverseOf(s);
    y0 * (m.i00 * y0 + m.i01 * y1) + y1 * (m.i10 * y0 + m.i11 * y1)
  }

  /** vector2_update; `turn` normalises the second innovation. */
  function PairStep(c: Config, f: Filter, y0: real, y1: real, h0: Vec, h1: Vec, r0: real, r1: real, gate: real,
                    turn: bool): (Filter, Info)
    requires Shaped(f) && |h0| == |h1| == N
  {
    var z1 := if turn then Normalize(y1) else y1;
    if r0 <= 0.0 || r1 <= 0.0 || gate <= 0.0 then (f, Info(InvalidMeasurement, 0.0))
    else
      var s := InnovationOf(f.cov, h0, h1, r0, r1);
      if Determinant(s) <= MINIMUM_DETERMINANT then (f, Info(NumericalFailure, 0.0))
      else
        var nis := PairNis(s, y0, z1);
        if nis < 0.0 then (f, Info(NumericalFailure, 0.0))
        else if nis > gate then (f, Info(RejectedGate, nis))
        else
          var g0, g1 := Right(f.cov, h0), Right(f.cov, h1);
          var k0, k1 := FirstGain(g0, g1, s), SecondGain(g0, g1, s);
          var done := Commit(c, f, CorrectedPair(f.state, k0, k1, y0, z1), PairJoseph(f.cov, k0, k1, h0, h1, r0, r1));
          (done.0, Info(if done.1 then Accepted else NumericalFailure, nis))
  }

  lemma NisNonnegative(s: Innovation, y0: real, y1: real)
    requires s.s00 > 0.0 && Determinant(s) > 0.0
    ensures PairNis(s, y0, y1) >= 0.0
  {
    var c := 1.0 / Determinant(s);
    var e0, e1 := s.s11 * c * y0 + -s.s01 * c * y1, -s.s01 * c * y0 + s.s00 * c * y1;
    Cramer(s, c, y0, y1);
    InnovationForm(s, e0, e1, y0, y1);
  }

  /** The covariance after an accepted pair, before flooring. */
  function PairPosterior(p: Mat, h0: Vec, h1: Vec, r0: real, r1: real): (q: Mat)
    requires |h0| == |h1| && Square(p, |h0|) && Determinant(InnovationOf(p, h0, h1, r0, r1)) != 0.0
    ensures Square(q, |h0|)
  {
    var g0, g1, s := Right(p, h0), Right(p, h1), InnovationOf(p, h0, h1, r0, r1);
    PairDowndate(p, FirstGain(g0, g1, s), SecondGain(g0, g1, s), g0, g1)
  }

  lemma PairPosteriorHealthy(c: Config, p: Mat, h0: Vec, h1: Vec, r0: real, r1: real)
    requires ValidConfig(c) && Square(p, |p|) && Healthy(p, c.floor, c.maxCovariance) && |h0| == |h1| == |p|
    requires r0 > 0.0 && r1 > 0.0 && Determinant(InnovationOf(p, h0, h1, r0, r1)) > 0.0
    ensures var s := InnovationOf(p, h0, h1, r0, r1);
            PairJoseph(p, FirstGain(Right(p, h0), Right(p, h1), s), SecondGain(Right(p, h0), Right(p, h1), s), h0, h1,
                       r0, r1)
            == PairPosterior(p, h0, h1, r0, r1)
    ensures DiagonalFits(PairPosterior(p, h0, h1, r0, r1), c.floor, c.maxCovariance)
    ensures Healthy(Enforced(PairPosterior(p, h0, h1, r0, r1), c.floor), c.floor, c.maxCovariance)
  {
    var g0, g1, s := Right(p, h0), Right(p, h1), InnovationOf(p, h0, h1, r0, r1);
    var k0, k1, q := FirstGain(g0, g1, s), SecondGain(g0, g1, s), PairPosterior(p, h0, h1, r0, r1);
    GainsSolve(g0, g1, s);
    PairJosephIs(p, k0, k1, h0, h1, r0, r1);
    PairJosephPsd(p, k0, k1, h0, h1, r0, r1);
    assert Quad(p, h0) >= 0.0;
    forall i | 0 <= i < |p| ensures Quad(q, Unit(|p|, i)) <= Quad(p, Unit(|p|, i)) {
      PairQuad(p, k0, k1, g0, g1, s, Unit(|p|, i));
    }
    LoweredFits(p, q, c.floor, c.maxCovariance);
    EnforcedHealthy(q, c.floor, c.maxCovariance);
  }

  /** The determinant and the statistic of a sound filter. */
  lemma PairInnovationRegular(c: Config, f: Filter, y0: real, y1: real, h0: Vec, h1: Vec, r0: real, r1: real)
    requires ValidConfig(c) && Sound(c, f) && f.initialized && |h0| == |h1| == N && r0 > 0.0 && r1 > 0.0
    ensures var s := InnovationOf(f.cov, h0, h1, r0, r1);
            && Determinant(s) >= r0 * r1 + r0 * Quad(f.cov, h1) + r1 * Quad(f.cov, h0) >= r0 * r1 > 0.0
            && PairNis(s, y0, y1) >= 0.0
  {
    DeterminantBound(f.cov, h0, h1, r0, r1);
    PositiveProduct(r0, r1);
    assert Quad(f.cov, h0) >= 0.0;
    NisNonnegative(InnovationOf(f.cov, h0, h1, r0, r1), y0, y1);
  }

  /** What a regular paired update that passes the gate makes of a sound filter. */
  function PairUpdated(c: Config, f: Filter, y0: real, y1: real, h0: Vec, h1: Vec, r0: real, r1: real): (r: (Vec, Mat))
    requires Shaped(f) && |h0| == |h1| == N && Determinant(InnovationOf(f.cov, h0, h1, r0, r1)) != 0.0
    ensures |r.0| == N
  {
    var s, g0, g1 := InnovationOf(f.cov, h0, h1, r0, r1), Right(f.cov, h0), Right(f.cov, h1);
    (CorrectedPair(f.state, FirstGain(g0, g1, s), SecondGain(g0, g1, s), y0, y1),
     Enforced(PairPosterior(f.cov, h0, h1, r0, r1), c.floor))
  }

  lemma PairCommitted(c: Config, f: Filter, y0: real, y1: real, h0: Vec, h1: Vec, r0: real, r1: real)
    requires ValidConfig(c) && Sound(c, f) && f.initialized && |h0| == |h1| == N && r0 > 0.0 && r1 > 0.0
    requires Determinant(InnovationOf(f.cov, h0, h1, r0, r1)) > 0.0
    ensures var s, g0, g1 := InnovationOf(f.cov, h0, h1, r0, r1), Right(f.cov, h0), Right(f.cov, h1);
            var k0, k1 := FirstGain(g0, g1, s), SecondGain(g0, g1, s);
            var (x, p) := PairUpdated(c, f, y0, y1, h0, h1, r0, r1);
            var (f', ok) := Commit(c, f, CorrectedPair(f.state, k0, k1, y0, y1),
                                   PairJoseph(f.cov, k0, k1, h0, h1, r0, r1));
            && Sound(c, f') && ok == InBounds(c, x)
            && f' == if ok then f.(state := x, cov := p, healthy := true) else f.(healthy := false)
  {
    PairPosteriorHealthy(c, f.cov, h0, h1, r0, r1);
  }

  /** Main result on paired updates of a sound filter: the determinant is at least r0 r1 plus what each
      variance adds, so the update is singular only if that is at most the minimum; otherwise it is used
      exactly if it passes the gate and leaves the state in bounds, and the filter stays sound. */
  lemma PairStepExact(c: Config, f: Filter, y0: real, y1: real, h0: Vec, h1: Vec, r0: real, r1: real, gate: real,
                      turn: bool)
    requires ValidConfig(c) && Sound(c, f) && f.initialized && |h0| == |h1| == N && r0 > 0.0 && r1 > 0.0 && gate > 0.0
    ensures var s := InnovationOf(f.cov, h0, h1, r0, r1);
            Determinant(s) >= r0 * r1 + r0 * Quad(f.cov, h1) + r1 * Quad(f.cov, h0) >= r0 * r1 > 0.0
    ensures var (f', info) := PairStep(c, f, y0, y1, h0, h1, r0, r1, gate, turn);
            var s := InnovationOf(f.cov, h0, h1, r0, r1);
            var z1 := if turn then Normalize(y1) else y1;
            var (x, p) := PairUpdated(c, f, y0, z1, h0, h1, r0, r1);
            && Sound(c, f') && f'.initialized
            && (Determinant(s) <= MINIMUM_DETERMINANT ==> f' == f && info == Info(NumericalFailure, 0.0))
            && (Determinant(s) > MINIMUM_DETERMINANT ==>
                  && info.nis == PairNis(s, y0, z1) >= 0.0
                  && (info.result == RejectedGate <==> info.nis > gate)
                  && (info.result == RejectedGate ==> f' == f)
                  && (info.result == Accepted <==> info.nis <= gate && InBounds(c, x))
                  && (info.result == Accepted ==> f' == f.(state := x, cov := p, healthy := true))
                  && (info.nis <= gate && !InBounds(c, x) ==>
                        info.result == NumericalFailure && f' == f.(healthy := false)))
  {
    var z1 := if turn then Normalize(y1) else y1;
    PairInnovationRegular(c, f, y0, z1, h0, h1, r0, r1);
    PairCommitted(c, f, y0, z1, h0, h1, r0, r1);
  }

  function Gap(measured: real, expected: real): real {
    measured - expected
  }

  // ------------------------------------------------------- prediction

  datatype Imu = Imu(acceleration: real, yawRate: real, at: u32)

  /** The distance travelled in one step. */
  function Travelled(x: Vec, m: Imu, dt: real): real
    requires |x| == N
  {
    x[SPEED] * dt + 0.5 * (m.acceleration - x[5]) * (dt * dt)
  }

  function Predicted(t: Trig, x: Vec, m: Imu, dt: real): (y: Vec)
    requires |x| == N
    ensures |y| == N
  {
    [x[0] + Times(Travelled(x, m, dt), t.cos(x[2])), x[1] + Times(Travelled(x, m, dt), t.sin(x[2])),
     Normalize(x[2] + Times(x[4], dt)), x[3] + (m.acceleration - x[5]) * dt, x[4], x[5]]
  }

  function Jacobian(t: Trig, x: Vec, m: Imu, dt: real): (a: Mat)
    requires |x| == N
    ensures |a| == N && Square(a, N)
  {
    var d, cosine, sine := Travelled(x, m, dt), t.cos(x[2]), t.sin(x[2]);
    [[1.0, 0.0, -d * sine, dt * cosine, 0.0, -0.5 * (dt * dt) * cosine],
     [0.0, 1.0, d * cosine, dt * sine, 0.0, -0.5 * (dt * dt) * sine],
     [0.0, 0.0, 1.0, 0.0, dt, 0.0],
     [0.0, 0.0, 0.0, 1.0, 0.0, -dt],
     [0.0, 0.0, 0.0, 0.0, 1.0, 0.0],
     [0.0, 0.0, 0.0, 0.0, 0.0, 1.0]]
  }

  /** F P F' plus the process noise of the step. */
  function PredictedCov(c: Config, a: Mat, p: Mat, dt: real): (q: Mat)
    requires ValidConfig(c) && |a| == |p| == N && Square(a, N) && Square(p, N)
    ensures |q| == N && Square(q, N)
  {
    AddDiagonal(Congruence(a, p), Scaled(dt, c.processNoise))
  }

  function Propagated(c: Config, t: Trig, f: Filter, m: Imu, dt: real): (Filter, bool)
    requires ValidConfig(c) && Shaped(f)
  {
    Commit(c, f, Predicted(t, f.state, m, dt), PredictedCov(c, Jacobian(t, f.state, m, dt), f.cov, dt))
  }

  predicate ImuFits(c: Config, m: Imu, dt: real) {
    0.0 < dt <= c.maxDt && Abs(m.acceleration) <= c.maxAcceleration && Abs(m.yawRate) <= c.maxYawRate
  }

  /** The measured yaw rate, after the propagation has counted as an inertial sample. */
  function YawCorrected(c: Config, f: Filter, m: Imu): (r: (Filter, Info))
    requires Shaped(f)
    ensures Shaped(r.0)
  {
    ScalarStep(c, f.(seen := f.seen.(imu := Some(m.at))), Gap(m.yawRate, f.state[YAW_RATE]), Unit(N, YAW_RATE),
               c.imuYawVariance, c.imuGate)
  }

  function Predict(c: Config, t: Trig, f: Filter, m: Imu, dt: real): (r: (Filter, Info))
    requires ValidConfig(c) && Shaped(f)
    ensures Shaped(r.0)
  {
    if !f.initialized then (f, Info(NotInitialized, 0.0))
    else if !f.healthy then (f, Info(NumericalFailure, 0.0))
    else if !ImuFits(c, m, dt) then (f, Info(InvalidMeasurement, 0.0))
    else
      var (f1, done) := Propagated(c, t, f, m, dt);
      if !done then (f1, Info(NumericalFailure, 0.0))
      else
        YawCorrected(c, f1, m)
  }

  /** Main result on prediction: the predicted variance along any vector is the prior one of the vector carried back
      through the Jacobian, plus the process noise of the step. */
  lemma PredictedQuad(c: Config, a: Mat, p: Mat, dt: real, x: Vec)
    requires ValidConfig(c) && |a| == |p| == |x| == N && Square(a, N) && Square(p, N)
    ensures Quad(PredictedCov(c, a, p, dt), x) == Quad(p, Left(x, a)) + Weight(Scaled(dt, c.processNoise), x, N)
  {
    CongruenceQuad(a, p, x);
    AddDiagonalExact(Congruence(a, p), Scaled(dt, c.processNoise), x);
  }

  /** Prediction keeps the covariance positive semidefinite; only its growth past the maximum, or a state
      out of bounds, makes it fail. */
  lemma PropagatedSound(c: Config, t: Trig, f: Filter, m: Imu, dt: real)
    requires ValidConfig(c) && Sound(c, f) && f.initialized && dt > 0.0
    ensures var raw := PredictedCov(c, Jacobian(t, f.state, m, dt), f.cov, dt);
            && PositiveSemidefinite(raw) && Sound(c, Propagated(c, t, f, m, dt).0)
            && (Propagated(c, t, f, m, dt).1 <==>
                  InBounds(c, Predicted(t, f.state, m, dt)) && forall i :: 0 <= i < N ==> raw[i][i] <= c.maxCovariance)
  {
    var a := Jacobian(t, f.state, m, dt);
    CongruenceKeepsPsd(a, f.cov);
    NoisePsd(Congruence(a, f.cov), Scaled(dt, c.processNoise), c.processNoise, dt);
    EnforcedHealthy(PredictedCov(c, a, f.cov, dt), c.floor, c.maxCovariance);
  }

  lemma NoisePsd(p: Mat, d: Vec, noise: Vec, dt: real)
    requires Square(p, |p|) && PositiveSemidefinite(p) && |noise| == |p| && d == Scaled(dt, noise) && dt > 0.0
    requires forall i :: 0 <= i < |noise| ==> noise[i] >= 0.0
    ensures PositiveSemidefinite(AddDiagonal(p, d))
  {
    forall i | 0 <= i < |d| ensures d[i] >= 0.0 {
      NonnegativeProduct(dt, noise[i]);
    }
    forall x: Vec | |x| == |p| ensures Quad(AddDiagonal(p, d), x) >= 0.0 {
      AddDiagonalQuad(p, d, x);
      assert Quad(p, x) >= 0.0;
    }
  }

  // ------------------------------------------------------- the update wrappers

  /** Only an accepted measurement refreshes its sensor. */
  function Marked(out: (Filter, Info), seen: Seen): (Filter, Info) {
    (if out.1.result == Accepted then out.0.(seen := seen) else out.0, out.1)
  }

  function Wheel(c: Config, f: Filter, speed: real, at: u32): (r: (Filter, Info))
    requires Shaped(f)
    ensures Shaped(r.0)
  {
    if !f.initialized then (f, Info(NotInitialized, 0.0))
    else if !f.healthy then (f, Info(NumericalFailure, 0.0))
    else if Abs(speed) > c.maxSpeed then (f, Info(InvalidMeasurement, 0.0))
    else
      Marked(ScalarStep(c, f, Gap(speed, f.state[SPEED]), Unit(N, SPEED), c.wheelVariance, c.wheelGate),
             f.seen.(wheel := Some(at)))
  }

  function Gnss(c: Config, f: Filter, x: real, y: real, at: u32): (r: (Filter, Info))
    requires Shaped(f)
    ensures Shaped(r.0)
  {
    if !f.initialized then (f, Info(NotInitialized, 0.0))
    else if !f.healthy then (f, Info(NumericalFailure, 0.0))
    else if Abs(x) > c.maxPosition || Abs(y) > c.maxPosition then (f, Info(InvalidMeasurement, 0.0))
    else
      Marked(PairStep(c, f, Gap(x, f.state[0]), Gap(y, f.state[1]), Unit(N, 0), Unit(N, 1), c.gnssX, c.gnssY,
                      c.gnssGate, false),
             f.seen.(gnss := Some(at)))
  }

  datatype Landmark = Landmark(x: real, y: real, range: real, bearing: real, at: u32)

  /** What the landmark model predicts at a state. */
  datatype Sighting = Sighting(range: real, bearing: real, rangeRow: Vec, bearingRow: Vec)

  function Sight(t: Trig, x: Vec, lx: real, ly: real, minRange: real): (s: Option<Sighting>)
    requires |x| == N && minRange > 0.0 && PositiveRoots(t)
    ensures s.Some? ==> |s.value.rangeRow| == |s.value.bearingRow| == N
    ensures s.Some? <==> Sqr(lx - x[0]) + Sqr(ly - x[1]) >= Sqr(minRange)
  {
    var dx, dy := lx - x[0], ly - x[1];
    var squared := Sqr(dx) + Sqr(dy);
    if squared < Sqr(minRange) then None
    else
      SqrPositive(minRange);
      assert squared > 0.0;
      var range := t.root(squared);
      Some(Sighting(range, Normalize(t.atan2(dy, dx) - x[HEADING]),
                    [-dx / range, -dy / range, 0.0, 0.0, 0.0, 0.0],
                    [dy / squared, -dx / squared, -1.0, 0.0, 0.0, 0.0]))
  }

  function SeeLandmark(c: Config, t: Trig, f: Filter, m: Landmark): (r: (Filter, Info))
    requires ValidConfig(c) && Shaped(f) && PositiveRoots(t)
    ensures Shaped(r.0)
  {
    if !f.initialized then (f, Info(NotInitialized, 0.0))
    else if !f.healthy then (f, Info(NumericalFailure, 0.0))
    else if Abs(m.x) > c.maxPosition || Abs(m.y) > c.maxPosition || m.range < c.minRange || m.range > c.maxRange ||
            Abs(m.bearing) > PI then (f, Info(InvalidMeasurement, 0.0))
    else
      match Sight(t, f.state, m.x, m.y, c.minRange)
      case None => (f, Info(InvalidMeasurement, 0.0))
      case Some(s) =>
        Marked(PairStep(c, f, Gap(m.range, s.range), Normalize(Gap(m.bearing, s.bearing)), s.rangeRow, s.bearingRow,
                        c.landmarkRange, c.landmarkBearing, c.landmarkGate, true),
               f.seen.(landmark := Some(m.at)))
  }

  // ------------------------------------------------------- initialisation

  const UNSEEN := Seen(None, None, None, None)

  function Blank(): (f: Filter)
    ensures Shaped(f) && !f.initialized && !f.healthy
  {
    Filter(seq(N, _ => 0.0), seq(N, _ => seq(N, _ => 0.0)), false, false, UNSEEN)
  }

  function Diagonal(d: Vec): (p: Mat)
    ensures |p| == |d| && Square(p, |d|)
    ensures forall i, j :: 0 <= i < |d| && 0 <= j < |d| ==> p[i][j] == if i == j then d[i] else 0.0
  {
    seq(|d|, i requires 0 <= i < |d| => seq(|d|, j => if i == j then d[i] else 0.0))
  }

  predicate Initializable(c: Config, x: Vec, variance: Vec) {
    && |x| == |variance| == N && InBounds(c, x)
    && forall i :: 0 <= i < N ==> 0.0 < variance[i] <= c.maxCovariance
  }

  /** initialize: on success the health pass has run; its failure would leave an unhealthy filter. */
  function Initialize(c: Config, f: Filter, x: Vec, variance: Vec): (r: (Filter, bool))
    requires Shaped(f)
    ensures Shaped(r.0)
  {
    if !Initializable(c, x, variance) then (f, false)
    else
      var f1 := f.(state := WithHeading(x), cov := Diagonal(variance), initialized := true, healthy := true,
                   seen := UNSEEN);
      if InBounds(c, f1.state) && DiagonalFits(f1.cov, c.floor, c.maxCovariance)
      then (f1.(cov := Enforced(f1.cov, c.floor)), true)
      else (f1.(healthy := false), false)
  }

  lemma DiagonalPsd(d: Vec)
    requires forall i :: 0 <= i < |d| ==> d[i] >= 0.0
    ensures PositiveSemidefinite(Diagonal(d))
  {
    var zero := seq(|d|, _ => seq(|d|, _ => 0.0));
    SameEntries(Diagonal(d), AddDiagonal(zero, d));
    forall x: Vec | |x| == |d| ensures Quad(Diagonal(d), x) >= 0.0 {
      AddDiagonalQuad(zero, d, x);
      forall i | 0 <= i < |x| ensures Right(zero, x)[i] == 0.0 {
        SumZero(zero[i], x, |x|);
      }
      DotCommutes(x, Right(zero, x));
      SumZero(Right(zero, x), x, |x|);
    }
  }

  lemma HeadingInBounds(c: Config, x: Vec)
    requires |x| == N && InBounds(c, x)
    ensures InBounds(c, WithHeading(x))
  {
    var _ := NormalizeTurns(x[HEADING]);
  }

  /** Main result on initialisation: it succeeds exactly on admissible values, and then the filter is sound. */
  lemma InitializeSound(c: Config, f: Filter, x: Vec, variance: Vec)
    requires ValidConfig(c) && Sound(c, f)
    ensures var (f', ok) := Initialize(c, f, x, variance);
            && Sound(c, f') && ok == Initializable(c, x, variance) && (!ok ==> f' == f)
            && (ok ==> f'.initialized && f'.healthy && f'.seen == UNSEEN && f'.state == WithHeading(x) &&
                       forall i, j :: 0 <= i < N && 0 <= j < N ==>
                         f'.cov[i][j] == if i != j then 0.0 else if variance[i] < c.floor then c.floor else variance[i])
  {
    if Initializable(c, x, variance) {
      HeadingInBounds(c, x);
      DiagonalPsd(variance);
      EnforcedHealthy(Diagonal(variance), c.floor, c.maxCovariance);
      forall i, j | 0 <= i < N && 0 <= j < N
        ensures Enforced(Diagonal(variance), c.floor)[i][j]
             == if i != j then 0.0 else if variance[i] < c.floor then c.floor else variance[i]
      {
        EnforcedEntry(Diagonal(variance), c.floor, i, j);
      }
    }
  }
}
