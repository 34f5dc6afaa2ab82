/** Whole runs of the filter of src/ekf.cpp. */
module EstimatorRuns {
  import opened Ekf
  import opened LinearAlgebra
  import opened Modes
  import opened Reals
  import opened Words

  datatype Call =
    | CallInitialize(state: Vec, variance: Vec)
    | CallPredict(imu: Imu, dt: real)
    | CallWheel(speed: real, at: u32)
    | CallGnss(x: real, y: real, at: u32)
    | CallLandmark(landmark: Landmark)

  function Apply(c: Config, t: Trig, f: Filter, call: Call): (r: (Filter, UpdateResult))
    requires ValidConfig(c) && Shaped(f) && PositiveRoots(t)
    ensures Shaped(r.0)
  {
    match call
    case CallInitialize(x, v) =>
      var (f', ok) := Initialize(c, f, x, v); (f', if ok then Accepted else InvalidMeasurement)
    case CallPredict(m, dt) => var (f', info) := Predict(c, t, f, m, dt); (f', info.result)
    case CallWheel(speed, at) => var (f', info) := Wheel(c, f, speed, at); (f', info.result)
    case CallGnss(x, y, at) => var (f', info) := Gnss(c, f, x, y, at); (f', info.result)
    case CallLandmark(m) => var (f', info) := SeeLandmark(c, t, f, m); (f', info.result)
  }

  /** What one call keeps, and what its result says about the filter. */
  ghost predicate StepKeeps(c: Config, f: Filter, f': Filter, result: UpdateResult) {
    && Sound(c, f')
    && (result == NotInitialized ==> !f.initialized && f' == f)
    && (result == InvalidMeasurement ==> f' == f)
    && (result == Accepted ==> f'.initialized && f'.healthy)
    && (result == RejectedGate ==> f.initialized && f'.initialized && f'.healthy)
    && (f.initialized ==> f'.initialized)
    && (f'.healthy && !f.healthy ==> result == Accepted)
  }

  lemma PairStepKeeps(c: Config, f: Filter, y0: real, y1: real, h0: Vec, h1: Vec, r0: real, r1: real, gate: real,
                      turn: bool)
    requires ValidConfig(c) && Sound(c, f) && f.initialized && f.healthy && |h0| == |h1| == N
    requires r0 > 0.0 && r1 > 0.0 && gate > 0.0
    ensures var (f', info) := PairStep(c, f, y0, y1, h0, h1, r0, r1, gate, turn);
            StepKeeps(c, f, f', info.result) && (info.result == RejectedGate ==> f' == f)
  {
    PairStepExact(c, f, y0, y1, h0, h1, r0, r1, gate, turn);
  }

  lemma WheelKeeps(c: Config, f: Filter, speed: real, at: u32)
    requires ValidConfig(c) && Sound(c, f)
    ensures var (f', info) := Wheel(c, f, speed, at);
            StepKeeps(c, f, f', info.result) && (info.result == RejectedGate ==> f' == f)
  {
    if f.initialized && f.healthy && Abs(speed) <= c.maxSpeed {
      ScalarStepExact(c, f, Gap(speed, f.state[SPEED]), Unit(N, SPEED), c.wheelVariance, c.wheelGate);
    }
  }

  lemma GnssKeeps(c: Config, f: Filter, x: real, y: real, at: u32)
    requires ValidConfig(c) && Sound(c, f)
    ensures var (f', info) := Gnss(c, f, x, y, at);
            StepKeeps(c, f, f', info.result) && (info.result == RejectedGate ==> f' == f)
  {
    if f.initialized && f.healthy {
      PairStepKeeps(c, f, Gap(x, f.state[0]), Gap(y, f.state[1]), Unit(N, 0), Unit(N, 1), c.gnssX, c.gnssY, c.gnssGate,
                    false);
    }
  }

  lemma LandmarkKeeps(c: Config, t: Trig, f: Filter, m: Landmark)
    requires ValidConfig(c) && Sound(c, f) && PositiveRoots(t)
    ensures var (f', info) := SeeLandmark(c, t, f, m);
            StepKeeps(c, f, f', info.result) && (info.result == RejectedGate ==> f' == f)
  {
    if f.initialized && f.healthy {
      match Sight(t, f.state, m.x, m.y, c.minRange)
      case None =>
      case Some(s) =>
        PairStepKeeps(c, f, Gap(m.range, s.range), Normalize(Gap(m.bearing, s.bearing)), s.rangeRow, s.bearingRow,
                      c.landmarkRange, c.landmarkBearing, c.landmarkGate, true);
    }
  }

  lemma PredictKeeps(c: Config, t: Trig, f: Filter, m: Imu, dt: real)
    requires ValidConfig(c) && Sound(c, f)
    ensures var (f', info) := Predict(c, t, f, m, dt); StepKeeps(c, f, f', info.result)
  {
    if f.initialized && f.healthy && ImuFits(c, m, dt) {
      PropagatedSound(c, t, f, m, dt);
      var (f1, done) := Propagated(c, t, f, m, dt);
      if done {
        ScalarStepExact(c, f1.(seen := f1.seen.(imu := Some(m.at))), Gap(m.yawRate, f1.state[YAW_RATE]),
                        Unit(N, YAW_RATE),
                        c.imuYawVariance, c.imuGate);
      }
    }
  }

  lemma ApplyKeeps(c: Config, t: Trig, f: Filter, call: Call)
    requires ValidConfig(c) && Sound(c, f) && PositiveRoots(t)
    ensures StepKeeps(c, f, Apply(c, t, f, call).0, Apply(c, t, f, call).1)
  {
    match call
    case CallInitialize(x, v) => InitializeSound(c, f, x, v);
    case CallPredict(m, dt) => PredictKeeps(c, t, f, m, dt);
    case CallWheel(speed, at) => WheelKeeps(c, f, speed, at);
    case CallGnss(x, y, at) => GnssKeeps(c, f, x, y, at);
    case CallLandmark(m) => LandmarkKeeps(c, t, f, m);
  }

  function Run(c: Config, t: Trig, f: Filter, calls: seq<Call>): Filter
    requires ValidConfig(c) && Shaped(f) && PositiveRoots(t)
    decreases |calls|
  {
    if calls == [] then f else Run(c, t, Apply(c, t, f, calls[0]).0, calls[1..])
  }

  /** Main result: on every run from a sound filter, the blank one included, the covariance is symmetric and
      positive semidefinite with its diagonal between the floor and the maximum, and the state in bounds. */
  lemma {:induction false} RunStaysSound(c: Config, t: Trig, f: Filter, calls: seq<Call>)
    requires ValidConfig(c) && PositiveRoots(t) && Sound(c, f)
    ensures Sound(c, Run(c, t, f, calls)) && (f.initialized ==> Run(c, t, f, calls).initialized)
    decreases |calls|
  {
    if calls != [] {
      ApplyKeeps(c, t, f, calls[0]);
      RunStaysSound(c, t, Apply(c, t, f, calls[0]).0, calls[1..]);
    }
  }

  /** The same, written out: on every run the state of an initialized filter is in its limits. */
  lemma RunStaysBounded(c: Config, t: Trig, f: Filter, calls: seq<Call>)
    requires ValidConfig(c) && PositiveRoots(t) && Sound(c, f)
    ensures var g := Run(c, t, f, calls);
            |g.state| == N && |g.cov| == N && Square(g.cov, N) &&
            (g.initialized ==>
               && -c.maxPosition <= g.state[0] <= c.maxPosition && -c.maxPosition <= g.state[1] <= c.maxPosition
               && -PI <= g.state[2] <= PI && -c.maxSpeed <= g.state[3] <= c.maxSpeed
               && -c.maxYawRate <= g.state[4] <= c.maxYawRate && -c.maxAcceleration <= g.state[5] <= c.maxAcceleration
               && forall i :: 0 <= i < N ==> c.floor <= g.cov[i][i] <= c.maxCovariance)
  {
    RunStaysSound(c, t, f, calls);
  }

  /** Which samples are refused before anything is computed: those of a filter that is not initialized or not healthy
      ... */
  lemma NothingUnready(c: Config, t: Trig, f: Filter, call: Call)
    requires ValidConfig(c) && Shaped(f) && PositiveRoots(t) && !call.CallInitialize? && !(f.initialized && f.healthy)
    ensures Apply(c, t, f, call) == (f, if !f.initialized then NotInitialized else NumericalFailure)
  {
  }

  predicate OutOfLimits(c: Config, l: Landmark) {
    || Abs(l.x) > c.maxPosition || Abs(l.y) > c.maxPosition || Abs(l.bearing) > PI
    || l.range < c.minRange || l.range > c.maxRange
  }

  /** A landmark, a range or a bearing out of the limits, or the vehicle, at (x, y), within the least range. */
  predicate OutOfSight(c: Config, x: real, y: real, l: Landmark) {
    OutOfLimits(c, l) || Sqr(l.x - x) + Sqr(l.y - y) < Sqr(c.minRange)
  }

  /** ... and, exactly, those out of the limits. */
  lemma ImplausibleRefused(c: Config, t: Trig, f: Filter, call: Call)
    requires ValidConfig(c) && Sound(c, f) && PositiveRoots(t) && f.initialized && f.healthy
    ensures Apply(c, t, f, call).1 == InvalidMeasurement <==>
            match call
            case CallInitialize(x, v) => !Initializable(c, x, v)
            case CallPredict(m, dt) =>
              dt <= 0.0 || dt > c.maxDt || Abs(m.acceleration) > c.maxAcceleration || Abs(m.yawRate) > c.maxYawRate
            case CallWheel(speed, at) => Abs(speed) > c.maxSpeed
            case CallGnss(x, y, at) => Abs(x) > c.maxPosition || Abs(y) > c.maxPosition
            case CallLandmark(l) => OutOfSight(c, f.state[0], f.state[1], l)
  {
    match call
    case CallInitialize(x, v) => InitializeAnswers(c, f, x, v);
    case CallPredict(m, dt) => PredictNotInvalid(c, t, f, m, dt);
    case CallWheel(speed, at) => WheelNotInvalid(c, f, speed, at);
    case CallGnss(x, y, at) => FixNotInvalid(c, f, x, y, at);
    case CallLandmark(l) => LandmarkNotInvalid(c, t, f, l);
  }

  lemma InitializeAnswers(c: Config, f: Filter, x: Vec, variance: Vec)
    requires ValidConfig(c) && Sound(c, f)
    ensures Initialize(c, f, x, variance).1 == Initializable(c, x, variance)
  {
    InitializeSound(c, f, x, variance);
  }

  lemma WheelNotInvalid(c: Config, f: Filter, speed: real, at: u32)
    requires ValidConfig(c) && Shaped(f) && f.initialized && f.healthy
    ensures Wheel(c, f, speed, at).1.result == InvalidMeasurement <==> Abs(speed) > c.maxSpeed
  {
    ScalarNotInvalid(c, f, Gap(speed, f.state[SPEED]), Unit(N, SPEED), c.wheelVariance, c.wheelGate);
  }

  lemma FixNotInvalid(c: Config, f: Filter, x: real, y: real, at: u32)
    requires ValidConfig(c) && Shaped(f) && f.initialized && f.healthy
    ensures Gnss(c, f, x, y, at).1.result == InvalidMeasurement <==> Abs(x) > c.maxPosition || Abs(y) > c.maxPosition
  {
    PairNotInvalid(c, f, Gap(x, f.state[0]), Gap(y, f.state[1]), Unit(N, 0), Unit(N, 1), c.gnssX, c.gnssY, c.gnssGate,
                   false);
  }

  lemma LandmarkNotInvalid(c: Config, t: Trig, f: Filter, l: Landmark)
    requires ValidConfig(c) && Shaped(f) && f.initialized && f.healthy && PositiveRoots(t)
    ensures SeeLandmark(c, t, f, l).1.result == InvalidMeasurement <==> OutOfSight(c, f.state[0], f.state[1], l)
  {
    LandmarkAnswers(c, t, f, l);
    SightWhen(c, t, f, l);
  }

  lemma SightWhen(c: Config, t: Trig, f: Filter, l: Landmark)
    requires ValidConfig(c) && Shaped(f) && PositiveRoots(t)
    ensures OutOfSight(c, f.state[0], f.state[1], l) <==>
            OutOfLimits(c, l) || Sight(t, f.state, l.x, l.y, c.minRange).None?
  {
  }

  lemma LandmarkAnswers(c: Config, t: Trig, f: Filter, l: Landmark)
    requires ValidConfig(c) && Shaped(f) && f.initialized && f.healthy && PositiveRoots(t)
    ensures SeeLandmark(c, t, f, l).1.result == InvalidMeasurement <==>
            OutOfLimits(c, l) || Sight(t, f.state, l.x, l.y, c.minRange).None?
  {
    var s := Sight(t, f.state, l.x, l.y, c.minRange);
    if s.Some? {
      SeenNotInvalid(c, f, l, s.value);
    }
  }

  lemma SeenNotInvalid(c: Config, f: Filter, l: Landmark, s: Sighting)
    requires ValidConfig(c) && Shaped(f) && |s.rangeRow| == |s.bearingRow| == N
    ensures PairStep(c, f, Gap(l.range, s.range), Normalize(Gap(l.bearing, s.bearing)), s.rangeRow, s.bearingRow,
                     c.landmarkRange, c.landmarkBearing, c.landmarkGate, true).1.result != InvalidMeasurement
  {
    PairNotInvalid(c, f, Gap(l.range, s.range), Normalize(Gap(l.bearing, s.bearing)), s.rangeRow, s.bearingRow,
                   c.landmarkRange, c.landmarkBearing, c.landmarkGate, true);
  }

  lemma PredictNotInvalid(c: Config, t: Trig, f: Filter, m: Imu, dt: real)
    requires ValidConfig(c) && Shaped(f) && f.initialized && f.healthy
    ensures Predict(c, t, f, m, dt).1.result == InvalidMeasurement <==> !ImuFits(c, m, dt)
  {
    var (g, done) := Propagated(c, t, f, m, dt);
    if done {
      ScalarNotInvalid(c, g.(seen := g.seen.(imu := Some(m.at))), Gap(m.yawRate, g.state[YAW_RATE]), Unit(N, YAW_RATE),
                       c.imuYawVariance, c.imuGate);
    }
  }

  lemma ScalarNotInvalid(c: Config, f: Filter, y: real, h: Vec, r: real, gate: real)
    requires Shaped(f) && |h| == N && r > 0.0 && gate > 0.0
    ensures ScalarStep(c, f, y, h, r, gate).1.result != InvalidMeasurement
  {
  }

  lemma PairNotInvalid(c: Config, f: Filter, y0: real, y1: real, h0: Vec, h1: Vec, r0: real, r1: real, gate: real,
                       turn: bool)
    requires Shaped(f) && |h0| == |h1| == N && r0 > 0.0 && r1 > 0.0 && gate > 0.0
    ensures PairStep(c, f, y0, y1, h0, h1, r0, r1, gate, turn).1.result != InvalidMeasurement
  {
  }

  // ------------------------------------------------------- the prediction model

  /** For states with one heading the Jacobian is the exact rate of change of the prediction, the heading
      before normalisation: only the trigonometric functions make the model nonlinear. */
  lemma JacobianExact(t: Trig, x: Vec, y: Vec, m: Imu, dt: real, i: nat)
    requires |x| == |y| == N && x[HEADING] == y[HEADING] && i < N && i != HEADING
    ensures Predicted(t, y, m, dt)[i] - Predicted(t, x, m, dt)[i] == Dot(Jacobian(t, x, m, dt)[i], Gaps(y, x))
  {
    if i == 0 {
      FirstRowExact(t, x, y, m, dt);
    } else if i == 1 {
      SecondRowExact(t, x, y, m, dt);
    } else {
      LastRowsExact(t, x, y, m, dt, i);
    }
  }

  lemma LastRowsExact(t: Trig, x: Vec, y: Vec, m: Imu, dt: real, i: nat)
    requires |x| == |y| == N && HEADING < i < N
    ensures Predicted(t, y, m, dt)[i] - Predicted(t, x, m, dt)[i] == Dot(Jacobian(t, x, m, dt)[i], Gaps(y, x))
  {
    LastRows(t, x, m, dt, Gaps(y, x), i);
    SpeedGap(x[5], y[5], m.acceleration, dt);
  }

  /** The heading itself is predicted exactly, up to whole turns. */
  lemma HeadingRowExact(t: Trig, x: Vec, y: Vec, m: Imu, dt: real) returns (k: int)
    requires |x| == |y| == N
    ensures Predicted(t, y, m, dt)[HEADING] - Predicted(t, x, m, dt)[HEADING]
         == Dot(Jacobian(t, x, m, dt)[HEADING], Gaps(y, x)) + Turns(k)
  {
    HeadingRow(Jacobian(t, x, m, dt)[HEADING], Gaps(y, x), dt);
    var i := HeadingTurns(t, y, m, dt);
    var j := HeadingTurns(t, x, m, dt);
    k := j - i;
    TurnsApart(j, i);
    Spread(y[4], x[4], dt);
  }

  lemma HeadingTurns(t: Trig, x: Vec, m: Imu, dt: real) returns (i: int)
    requires |x| == N
    ensures Predicted(t, x, m, dt)[HEADING] == x[2] + Times(x[4], dt) - Turns(i)
  {
    i := NormalizeTurns(x[2] + Times(x[4], dt));
  }

  lemma Spread(a: real, b: real, dt: real)
    ensures Times(a, dt) - Times(b, dt) == Times(dt, a - b)
  {
  }

  lemma HeadingRow(a: Vec, d: Vec, dt: real)
    requires |d| == N && a == [0.0, 0.0, 1.0, 0.0, dt, 0.0]
    ensures Dot(a, d) == d[2] + Times(dt, d[4])
  {
    SixTerms(a, d);
  }

  /** For states that differ in heading alone the position is predicted as well as the first-order approximations of
      cosine and sine are: an error e in those is at most the distance travelled times e in the position. */
  lemma HeadingColumnBound(t: Trig, x: Vec, y: Vec, m: Imu, dt: real, e: real, i: nat)
    requires |x| == |y| == N && y == x[HEADING := y[HEADING]] && e >= 0.0 && i < 2
    requires Abs(t.cos(y[HEADING]) - t.cos(x[HEADING]) - Times(-t.sin(x[HEADING]), y[HEADING] - x[HEADING])) <= e
    requires Abs(t.sin(y[HEADING]) - t.sin(x[HEADING]) - Times(t.cos(x[HEADING]), y[HEADING] - x[HEADING])) <= e
    ensures Abs(Predicted(t, y, m, dt)[i] - Predicted(t, x, m, dt)[i] - Dot(Jacobian(t, x, m, dt)[i], Gaps(y, x)))
         <= Times(Abs(Travelled(x, m, dt)), e)
  {
    var a, d, gaps := Jacobian(t, x, m, dt)[i], Travelled(x, m, dt), Gaps(y, x);
    PositionShift(t, x, y, m, dt);
    HeadingColumn(t, x, m, dt);
    var p, q := Predicted(t, x, m, dt)[i], Predicted(t, y, m, dt)[i];
    if i == 0 {
      ColumnBound(a, gaps, d, t.cos(y[HEADING]), t.cos(x[HEADING]), -t.sin(x[HEADING]), e, q - p);
    } else {
      ColumnBound(a, gaps, d, t.sin(y[HEADING]), t.sin(x[HEADING]), t.cos(x[HEADING]), e, q - p);
    }
  }

  lemma HeadingColumn(t: Trig, x: Vec, m: Imu, dt: real)
    requires |x| == N
    ensures Jacobian(t, x, m, dt)[0][HEADING] == Times(Travelled(x, m, dt), -t.sin(x[HEADING]))
    ensures Jacobian(t, x, m, dt)[1][HEADING] == Times(Travelled(x, m, dt), t.cos(x[HEADING]))
  {
    TimesNegates(Travelled(x, m, dt), t.sin(x[HEADING]));
  }

  lemma ColumnBound(a: Vec, gaps: Vec, d: real, u: real, v: real, w: real, e: real, shift: real)
    requires |a| == |gaps| == N && forall j :: 0 <= j < N && j != HEADING ==> gaps[j] == 0.0
    requires a[HEADING] == Times(d, w) && shift == Times(d, u) - Times(d, v) &&
             Abs(u - v - Times(w, gaps[HEADING])) <= e
    ensures Abs(shift - Dot(a, gaps)) <= Times(Abs(d), e)
  {
    HeadingOnly(a, gaps);
    Linearised(d, u, v, w, gaps[HEADING], e, a[HEADING]);
  }

  lemma PositionShift(t: Trig, x: Vec, y: Vec, m: Imu, dt: real)
    requires |x| == |y| == N && y == x[HEADING := y[HEADING]]
    ensures var d, p, q := Travelled(x, m, dt), Predicted(t, x, m, dt), Predicted(t, y, m, dt);
            && q[0] - p[0] == Times(d, t.cos(y[HEADING])) - Times(d, t.cos(x[HEADING]))
            && q[1] - p[1] == Times(d, t.sin(y[HEADING])) - Times(d, t.sin(x[HEADING]))
  {
    assert Travelled(y, m, dt) == Travelled(x, m, dt) by {
      assert y[SPEED] == x[SPEED] && y[5] == x[5];
    }
  }

  lemma HeadingOnly(a: Vec, d: Vec)
    requires |a| == |d| == N && forall j :: 0 <= j < N && j != HEADING ==> d[j] == 0.0
    ensures Dot(a, d) == Times(a[HEADING], d[HEADING])
  {
    SixTerms(a, d);
  }

  lemma Linearised(d: real, u: real, v: real, w: real, g: real, e: real, a: real)
    requires Abs(u - v - Times(w, g)) <= e && a == Times(d, w)
    ensures Abs(Times(d, u) - Times(d, v) - Times(a, g)) <= Times(Abs(d), e)
  {
    var r := u - v - Times(w, g);
    assert Times(d, u) - Times(d, v) - Times(a, g) == Times(d, r) by {
      assert a * g == d * (w * g);
    }
    MultiplyOrder(r, e, Abs(d));
    MultiplyOrder(-e, r, Abs(d));
    TimesNegates(Abs(d), e);
    TimesNegates(d, r);
  }

  lemma FirstRowExact(t: Trig, x: Vec, y: Vec, m: Imu, dt: real)
    requires |x| == |y| == N && x[HEADING] == y[HEADING]
    ensures Predicted(t, y, m, dt)[0] - Predicted(t, x, m, dt)[0] == Dot(Jacobian(t, x, m, dt)[0], Gaps(y, x))
  {
    var a := Jacobian(t, x, m, dt)[0];
    TravelGap(x, y, m, dt, t.cos(x[HEADING]), a[SPEED], a[5]);
    PositionRow(a, Gaps(y, x), 0);
  }

  lemma SecondRowExact(t: Trig, x: Vec, y: Vec, m: Imu, dt: real)
    requires |x| == |y| == N && x[HEADING] == y[HEADING]
    ensures Predicted(t, y, m, dt)[1] - Predicted(t, x, m, dt)[1] == Dot(Jacobian(t, x, m, dt)[1], Gaps(y, x))
  {
    var a := Jacobian(t, x, m, dt)[1];
    TravelGap(x, y, m, dt, t.sin(x[HEADING]), a[SPEED], a[5]);
    PositionRow(a, Gaps(y, x), 1);
  }

  function Gaps(y: Vec, x: Vec): (d: Vec)
    requires |x| == |y| == N
    ensures |d| == N && forall j :: 0 <= j < N ==> d[j] == y[j] - x[j]
  {
    seq(N, j requires 0 <= j < N => y[j] - x[j])
  }

  lemma TravelGap(x: Vec, y: Vec, m: Imu, dt: real, u: real, p: real, q: real)
    requires |x| == |y| == N && p == dt * u && q == -0.5 * (dt * dt) * u
    ensures Times(Travelled(y, m, dt), u) - Times(Travelled(x, m, dt), u)
            == Times(p, Gaps(y, x)[SPEED]) + Times(q, Gaps(y, x)[5])
  {
  }

  lemma PositionRow(a: Vec, d: Vec, i: nat)
    requires |a| == |d| == N && d[HEADING] == 0.0 && i < 2 && a[i] == 1.0 && a[1 - i] == 0.0 && a[4] == 0.0
    ensures Dot(a, d) == d[i] + Times(a[SPEED], d[SPEED]) + Times(a[5], d[5])
  {
    SixTerms(a, d);
    assert a[2] * d[2] == 0.0;
  }

  lemma LastRows(t: Trig, x: Vec, m: Imu, dt: real, d: Vec, i: nat)
    requires |x| == |d| == N && 3 <= i < N
    ensures Dot(Jacobian(t, x, m, dt)[i], d) == d[i] + if i == SPEED then -dt * d[5] else 0.0
  {
    SixTerms(Jacobian(t, x, m, dt)[i], d);
  }

  lemma SpeedGap(b: real, e: real, a: real, dt: real)
    ensures (a - e) * dt - (a - b) * dt == -dt * (e - b)
  {
  }

  lemma SixTerms(a: Vec, d: Vec)
    requires |a| == |d| == N
    ensures Dot(a, d) == a[0] * d[0] + a[1] * d[1] + a[2] * d[2] + a[3] * d[3] + a[4] * d[4] + a[5] * d[5]
  {
    assert Sum(a, d, 0) == 0.0;
    assert Sum(a, d, 1) == a[0] * d[0];
    assert Sum(a, d, 2) == Sum(a, d, 1) + a[1] * d[1];
    assert Sum(a, d, 3) == Sum(a, d, 2) + a[2] * d[2];
    assert Sum(a, d, 4) == Sum(a, d, 3) + a[3] * d[3];
    assert Sum(a, d, 5) == Sum(a, d, 4) + a[4] * d[4];
    assert Sum(a, d, 6) == Sum(a, d, 5) + a[5] * d[5];
  }

  // ------------------------------------------------------- navigation mode

  predicate Fresh(last: Option<u32>, now: u32, timeout: u32) {
    last.Some? && Sub32(now, last.value) <= timeout
  }

  function NavigationModeOf(c: Config, usable: bool, seen: Seen, now: u32): NavigationMode {
    if !usable then Unavailable
    else if Fresh(seen.gnss, now, c.gnssTimeout) then GnssAided
    else if Fresh(seen.landmark, now, c.landmarkTimeout) then LandmarkAided
    else if Fresh(seen.imu, now, c.imuTimeout) && Fresh(seen.wheel, now, c.wheelTimeout) then DeadReckoning
    else if Fresh(seen.imu, now, c.imuTimeout) || Fresh(seen.wheel, now, c.wheelTimeout) then DegradedNav
    else Unavailable
  }

  /** On the unbounded clock: fresh means at most the timeout old. */
  lemma FreshIsRecent(at: int, now: int, timeout: u32)
    requires 0 <= now - at < TWO32
    ensures Fresh(Some(Wrap(at)), Wrap(now), timeout) <==> now - at <= timeout
  {
    Elapsed(now, at);
  }

  /** Which mode it is, exactly: the best one of which a sensor is fresh. */
  lemma NavigationOrder(c: Config, usable: bool, seen: Seen, now: u32)
    ensures var mode := NavigationModeOf(c, usable, seen, now);
            var gnss, landmark := Fresh(seen.gnss, now, c.gnssTimeout), Fresh(seen.landmark, now, c.landmarkTimeout);
            var imu, wheel := Fresh(seen.imu, now, c.imuTimeout), Fresh(seen.wheel, now, c.wheelTimeout);
            && (mode == GnssAided <==> usable && gnss)
            && (mode == LandmarkAided <==> usable && landmark && !gnss)
            && (mode == DeadReckoning <==> usable && imu && wheel && !gnss && !landmark)
            && (mode == DegradedNav <==> usable && imu != wheel && !gnss && !landmark)
  {
  }

  /** Navigation needs a usable filter and a recent sensor; an aided mode needs an absolute one. */
  lemma NavigationNeedsSensor(c: Config, usable: bool, seen: Seen, now: u32)
    ensures var mode := NavigationModeOf(c, usable, seen, now);
            && (mode != Unavailable <==>
                  usable && (Fresh(seen.gnss, now, c.gnssTimeout) || Fresh(seen.landmark, now, c.landmarkTimeout) ||
                             Fresh(seen.imu, now, c.imuTimeout) || Fresh(seen.wheel, now, c.wheelTimeout)))
            && (Aided(mode) <==>
                  usable && (Fresh(seen.gnss, now, c.gnssTimeout) || Fresh(seen.landmark, now, c.landmarkTimeout)))
  {
  }
}
