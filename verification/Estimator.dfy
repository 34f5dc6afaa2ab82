/** The class of src/ekf.cpp: state and covariance in arrays, rewritten by nested loops with save and
    restore. Every method is proved to make the filter of the specification take the same step. */
module Estimator {
  import opened Covariance
  import opened Ekf
  import opened EstimatorRuns
  import opened Kalman
  import opened KalmanPair
  import opened LinearAlgebra
  import opened MatrixLoops
  import opened Reals
  import opened Words

  class Ekf6 {
    var config: Config
    const state: array<real>
    const covariance: array2<real>
    var initialized: bool
    var healthy: bool
    var seen: Seen
    ghost var cov: Mat  // what covariance stores

    ghost predicate Stored()
      reads this, covariance
    {
      state.Length == N && |cov| == N && Holds(covariance, cov) && ValidConfig(config)
    }

    ghost function View(): Filter
      reads this, state
    {
      Filter(state[..], cov, initialized, healthy, seen)
    }

    ghost predicate Valid()
      reads this, state, covariance
    {
      Stored() && Sound(config, View())
    }

    /** enforce_covariance_health */
    method EnforceCovarianceHealth() returns (ok: bool)
      requires Stored()
      modifies this`healthy, this`cov, covariance
      ensures ok == healthy == (InBounds(config, state[..]) &&
                                DiagonalFits(old(cov), config.floor, config.maxCovariance))
      ensures ok ==> Stored() && cov == Enforced(old(cov), config.floor)
    {
      if !InBounds(config, state[..]) {
        healthy := false;
        return false;
      }
      ok := EnforceHealth(covariance, config.floor, config.maxCovariance, cov);
      healthy := ok;
      cov := Enforced(cov, config.floor);
    }

    /** Takes over a state and a covariance, and puts the old ones back if the health pass refuses them. */
    method Adopt(x: array<real>, u: array2<real>, ghost raw: Mat) returns (ok: bool)
      requires Stored() && x.Length == N && x != state && u != covariance && |raw| == N && Holds(u, raw)
      modifies this`healthy, this`cov, state, covariance
      ensures Stored() && (View(), ok) == Commit(config, old(View()), old(x[..]), raw)
    {
      ghost var previous := cov;
      var previousState, previousCovariance := new real[N], new real[N, N];
      CopyVector(previousState, state);
      CopyMatrix(previousCovariance, covariance, cov);
      CopyVector(state, x);
      CopyMatrix(covariance, u, raw);
      cov := raw;
      assert state[..] == old(x[..]);
      ok := EnforceCovarianceHealth();
      if !ok {
        CopyVector(state, previousState);
        CopyMatrix(covariance, previousCovariance, previous);
        cov := previous;
        assert state[..] == old(state[..]);
      }
    }

    /** The state moved by the gain, with its heading normalised. */
    method CorrectState(k: array<real>, y: real) returns (x: array<real>)
      requires state.Length == k.Length == N
      ensures fresh(x) && x[..] == Corrected(state[..], k[..], y)
    {
      x := new real[N];
      for i := 0 to N
        invariant forall j :: 0 <= j < i ==> x[j] == Moved(state[..], k[..], y)[j]
      {
        x[i] := state[i] + Times(k[i], y);
      }
      assert x[..] == Moved(state[..], k[..], y);
      x[HEADING] := Normalize(x[HEADING]);
    }

    method CorrectStateByPair(k0: array<real>, k1: array<real>, y0: real, y1: real) returns (x: array<real>)
      requires state.Length == k0.Length == k1.Length == N
      ensures fresh(x) && x[..] == CorrectedPair(state[..], k0[..], k1[..], y0, y1)
    {
      x := new real[N];
      for i := 0 to N
        invariant forall j :: 0 <= j < i ==> x[j] == MovedByPair(state[..], k0[..], k1[..], y0, y1)[j]
      {
        x[i] := state[i] + (Times(k0[i], y0) + Times(k1[i], y1));
      }
      assert x[..] == MovedByPair(state[..], k0[..], k1[..], y0, y1);
      x[HEADING] := Normalize(x[HEADING]);
    }

    /** scalar_update */
    method ScalarUpdate(y: real, h: Vec, r: real, gate: real) returns (info: Info)
      requires Stored() && |h| == N
      modifies this`healthy, this`cov, state, covariance
      ensures Stored() && (View(), info) == ScalarStep(config, old(View()), y, h, r, gate)
    {
      if r <= 0.0 || gate <= 0.0 {
        return Info(InvalidMeasurement, 0.0);
      }
      var g := TimesVector(covariance, h, cov);
      var s := PlusDot(r, h, g);
      if s <= 0.0 {
        return Info(NumericalFailure, 0.0);
      }
      var nis := ScalarNis(y, s);
      if nis > gate {
        return Info(RejectedGate, nis);
      }
      var k := GainVector(g, s);
      var x := CorrectState(k, y);
      var u := JosephUpdate(covariance, k, h, r, cov);
      var ok := Adopt(x, u, Joseph(cov, k[..], h, r));
      return Info(if ok then Accepted else NumericalFailure, nis);
    }

    /** The inverse innovation covariance and the normalized innovation squared. */
    method PairInnovation(h0: Vec, h1: Vec, g0: array<real>, g1: array<real>, r0: real, r1: real, y0: real, y1: real)
      returns (regular: bool, inverse: Inverse, nis: real)
      requires Stored() && |h0| == |h1| == N && Symmetric(cov)
      requires g0[..] == Right(cov, h0) && g1[..] == Right(cov, h1)
      ensures var s := InnovationOf(cov, h0, h1, r0, r1);
              && regular == (Determinant(s) > MINIMUM_DETERMINANT)
              && (regular ==> inverse == InverseOf(s) && nis == PairNis(s, y0, y1))
    {
      var s00 := PlusDot(r0, h0, g0);
      var s01 := PlusDot(0.0, h0, g1);
      var s10 := PlusDot(0.0, h1, g0);
      var s11 := PlusDot(r1, h1, g1);
      FormSymmetric(cov, h0, h1);
      assert Innovation(s00, s01, s11) == InnovationOf(cov, h0, h1, r0, r1);
      regular, inverse := InvertSymmetric(s00, s01, s10, s11, MINIMUM_DETERMINANT);
      nis := y0 * (inverse.i00 * y0 + inverse.i01 * y1) + y1 * (inverse.i10 * y0 + inverse.i11 * y1);
    }

    /** Gains, corrected state and Joseph covariance, committed if the health pass accepts them. */
    method ApplyPair(inverse: Inverse, g0: array<real>, g1: array<real>, y0: real, y1: real, h0: Vec, h1: Vec, r0: real,
                     r1: real,
                     ghost s: Innovation) returns (ok: bool)
      requires Stored() && |h0| == |h1| == N && Determinant(s) != 0.0 && inverse == InverseOf(s)
      requires g0[..] == Right(cov, h0) && g1[..] == Right(cov, h1)
      modifies this`healthy, this`cov, state, covariance
      ensures Stored()
      ensures var k0, k1 := FirstGain(old(g0[..]), old(g1[..]), s), SecondGain(old(g0[..]), old(g1[..]), s);
              (View(), ok) == Commit(config, old(View()), CorrectedPair(old(state[..]), k0, k1, y0, y1),
                                     PairJoseph(old(cov), k0, k1, h0, h1, r0, r1))
    {
      var k0 := BlendVectors(inverse.i00, g0, inverse.i10, g1);
      var k1 := BlendVectors(inverse.i01, g0, inverse.i11, g1);
      var x := CorrectStateByPair(k0, k1, y0, y1);
      var u := PairJosephUpdate(covariance, k0, k1, h0, h1, r0, r1, cov);
      ok := Adopt(x, u, PairJoseph(cov, k0[..], k1[..], h0, h1, r0, r1));
    }

    /** vector2_update, on the symmetric covariance every sound filter has. */
    method PairUpdate(y0: real, y1: real, h0: Vec, h1: Vec, r0: real, r1: real, gate: real, turn: bool)
      returns (info: Info)
      requires Stored() && |h0| == |h1| == N && Symmetric(cov)
      modifies this`healthy, this`cov, state, covariance
      ensures Stored() && (View(), info) == PairStep(config, old(View()), y0, y1, h0, h1, r0, r1, gate, turn)
    {
      var z1 := if turn then Normalize(y1) else y1;
      if r0 <= 0.0 || r1 <= 0.0 || gate <= 0.0 {
        return Info(InvalidMeasurement, 0.0);
      }
      var g0 := TimesVector(covariance, h0, cov);
      var g1 := TimesVector(covariance, h1, cov);
      var regular, inverse, nis := PairInnovation(h0, h1, g0, g1, r0, r1, y0, z1);
      if !regular || nis < 0.0 {
        return Info(NumericalFailure, 0.0);
      }
      if nis > gate {
        return Info(RejectedGate, nis);
      }
      var ok := ApplyPair(inverse, g0, g1, y0, z1, h0, h1, r0, r1, InnovationOf(cov, h0, h1, r0, r1));
      return Info(if ok then Accepted else NumericalFailure, nis);
    }

    // ----------------------------------------------------- the public calls

    constructor (c: Config)
      requires Ekf.ValidConfig(c)
      ensures Valid() && fresh(state) && fresh(covariance) && config == c && View() == Blank()
    {
      config := c;
      state, covariance := new real[N](_ => 0.0), new real[N, N]((_, _) => 0.0);
      initialized, healthy, seen := false, false, UNSEEN;
      cov := Blank().cov;
      new;
      assert state[..] == Blank().state;
    }

    /** A copy with arrays of its own. */
    constructor Copy(other: Ekf6)
      requires other.Valid()
      ensures Valid() && fresh(state) && fresh(covariance) && config == other.config && View() == other.View()
    {
      config := other.config;
      initialized, healthy, seen := other.initialized, other.healthy, other.seen;
      state, covariance := new real[N], new real[N, N];
      cov := other.cov;
      new;
      CopyVector(state, other.state);
      CopyMatrix(covariance, other.covariance, other.cov);
    }

    /** An invalid configuration changes nothing; a valid one starts over. */
    method SetConfig(c: Config) returns (ok: bool)
      requires Valid()
      modifies this, state, covariance
      ensures Valid() && ok == Ekf.ValidConfig(c)
      ensures if ok then config == c && View() == Blank() else config == old(config) && View() == old(View())
    {
      if !Ekf.ValidConfig(c) {
        return false;
      }
      config := c;
      Reset();
      return true;
    }

    method Reset()
      requires Stored()
      modifies this`initialized, this`healthy, this`seen, this`cov, state, covariance
      ensures Valid() && View() == Blank()
    {
      FillVector(state, Blank().state);
      FillMatrix(covariance, Blank().cov);
      cov := Blank().cov;
      initialized, healthy, seen := false, false, UNSEEN;
    }

    /** initialize; on a filter that is sound it succeeds exactly on admissible values. */
    method Initialize(x: array<real>, variance: Vec) returns (ok: bool)
      requires Valid() && x.Length == |variance| == N && x != state
      modifies this`initialized, this`healthy, this`seen, this`cov, state, covariance
      ensures Valid() && (View(), ok) == Ekf.Initialize(config, old(View()), old(x[..]), variance)
    {
      InitializeSound(config, View(), x[..], variance);
      var i := 0;
      while i < N
        invariant 0 <= i <= N && forall j :: 0 <= j < i ==> 0.0 < variance[j] <= config.maxCovariance
      {
        if variance[i] <= 0.0 || variance[i] > config.maxCovariance {
          return false;
        }
        i := i + 1;
      }
      if !InBounds(config, x[..]) {
        return false;
      }
      CopyVector(state, x);
      state[HEADING] := Normalize(state[HEADING]);
      FillMatrix(covariance, Diagonal(variance));
      cov := Diagonal(variance);
      initialized, healthy, seen := true, true, UNSEEN;
      assert state[..] == WithHeading(old(x[..]));
      ok := EnforceCovarianceHealth();
    }

    /** update_wheel */
    method UpdateWheel(speed: real, at: u32) returns (info: Info)
      requires Valid()
      modifies this`healthy, this`seen, this`cov, state, covariance
      ensures Valid() && (View(), info) == Wheel(config, old(View()), speed, at)
    {
      WheelKeeps(config, View(), speed, at);
      if !initialized {
        return Info(NotInitialized, 0.0);
      }
      if !healthy {
        return Info(NumericalFailure, 0.0);
      }
      if Abs(speed) > config.maxSpeed {
        return Info(InvalidMeasurement, 0.0);
      }
      info := ScalarUpdate(Gap(speed, state[SPEED]), Unit(N, SPEED), config.wheelVariance, config.wheelGate);
      if info.result == Accepted {
        seen := seen.(wheel := Some(at));
      }
    }

    /** update_gnss */
    method UpdateGnss(x: real, y: real, at: u32) returns (info: Info)
      requires Valid()
      modifies this`healthy, this`seen, this`cov, state, covariance
      ensures Valid() && (View(), info) == Gnss(config, old(View()), x, y, at)
    {
      GnssKeeps(config, View(), x, y, at);
      if !initialized {
        return Info(NotInitialized, 0.0);
      }
      if !healthy {
        return Info(NumericalFailure, 0.0);
      }
      if Abs(x) > config.maxPosition || Abs(y) > config.maxPosition {
        return Info(InvalidMeasurement, 0.0);
      }
      info := PairUpdate(Gap(x, state[0]), Gap(y, state[1]), Unit(N, 0), Unit(N, 1),
                         config.gnssX, config.gnssY, config.gnssGate, false);
      if info.result == Accepted {
        seen := seen.(gnss := Some(at));
      }
    }

    /** update_landmark */
    method UpdateLandmark(t: Trig, m: Landmark) returns (info: Info)
      requires Valid() && PositiveRoots(t)
      modifies this`healthy, this`seen, this`cov, state, covariance
      ensures Valid() && (View(), info) == SeeLandmark(config, t, old(View()), m)
    {
      LandmarkKeeps(config, t, View(), m);
      if !initialized {
        return Info(NotInitialized, 0.0);
      }
      if !healthy {
        return Info(NumericalFailure, 0.0);
      }
      if Abs(m.x) > config.maxPosition || Abs(m.y) > config.maxPosition || m.range < config.minRange ||
         m.range > config.maxRange || Abs(m.bearing) > PI {
        return Info(InvalidMeasurement, 0.0);
      }
      var sighting := Sight(t, state[..], m.x, m.y, config.minRange);
      if sighting.None? {
        return Info(InvalidMeasurement, 0.0);
      }
      var s := sighting.value;
      info := PairUpdate(Gap(m.range, s.range), Normalize(Gap(m.bearing, s.bearing)), s.rangeRow, s.bearingRow,
                         config.landmarkRange, config.landmarkBearing, config.landmarkGate, true);
      if info.result == Accepted {
        seen := seen.(landmark := Some(m.at));
      }
    }

    /** The covariance loops of predict. */
    method PropagateCovariance(a: Mat, dt: real) returns (u: array2<real>)
      requires Stored() && |a| == N && Square(a, N)
      ensures fresh(u) && Holds(u, PredictedCov(config, a, cov, dt))
    {
      var jacobian := new real[N, N];
      FillMatrix(jacobian, a);
      u := Transform(jacobian, covariance, a, cov);
      AddToDiagonal(u, Scaled(dt, config.processNoise), Congruence(a, cov));
    }

    method Propagate(t: Trig, m: Imu, dt: real) returns (ok: bool)
      requires Stored()
      modifies this`healthy, this`cov, state, covariance
      ensures Stored() && (View(), ok) == Propagated(config, t, old(View()), m, dt)
    {
      var u := PropagateCovariance(Jacobian(t, state[..], m, dt), dt);
      var x := new real[N];
      FillVector(x, Predicted(t, state[..], m, dt));
      ok := Adopt(x, u, PredictedCov(config, Jacobian(t, state[..], m, dt), cov, dt));
    }

    method CorrectYawRate(m: Imu) returns (info: Info)
      requires Stored()
      modifies this`healthy, this`seen, this`cov, state, covariance
      ensures Stored() && (View(), info) == YawCorrected(config, old(View()), m)
    {
      seen := seen.(imu := Some(m.at));
      info := ScalarUpdate(Gap(m.yawRate, state[YAW_RATE]), Unit(N, YAW_RATE), config.imuYawVariance, config.imuGate);
    }

    /** predict: propagation, then the yaw rate as a measurement. */
    method Predict(t: Trig, m: Imu, dt: real) returns (info: Info)
      requires Valid()
      modifies this`healthy, this`seen, this`cov, state, covariance
      ensures Valid() && (View(), info) == Ekf.Predict(config, t, old(View()), m, dt)
    {
      PredictKeeps(config, t, View(), m, dt);
      if !initialized {
        return Info(NotInitialized, 0.0);
      }
      if !healthy {
        return Info(NumericalFailure, 0.0);
      }
      if !ImuFits(config, m, dt) {
        return Info(InvalidMeasurement, 0.0);
      }
      var ok := Propagate(t, m, dt);
      if !ok {
        return Info(NumericalFailure, 0.0);
      }
      info := CorrectYawRate(m);
    }
  }
}
