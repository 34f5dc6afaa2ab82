/** What a prediction of src/ekf.cpp does to the state: uniformly accelerated motion along the heading. */
module Motion {
  import opened Corrections
  import opened Ekf
  import opened LinearAlgebra
  import opened Reals
  import opened Words

  lemma MeanSpeed(v: real, a: real, dt: real)
    ensures v * dt + 0.5 * a * (dt * dt) == Times(0.5 * (v + (v + a * dt)), dt)
  {
  }

  /** Main result on prediction: the speed changes by the interval times the measured acceleration less its bias, the
      displacement is the mean of old and new speed over the interval along the heading, the heading turns by the yaw
      rate, and yaw rate and bias stay. */
  lemma MovesUniformly(c: Config, t: Trig, f: Filter, m: Imu, dt: real) returns (k: int)
    requires ValidConfig(c) && Shaped(f) && Propagated(c, t, f, m, dt).1
    ensures var x, y := f.state, Propagated(c, t, f, m, dt).0.state;
            && |y| == N
            && y[SPEED] - x[SPEED] == Times(m.acceleration - x[5], dt)
            && (m.acceleration == x[5] ==> y[SPEED] == x[SPEED])
            && y[0] - x[0] == Times(Times(0.5 * (x[SPEED] + y[SPEED]), dt), t.cos(x[HEADING]))
            && y[1] - x[1] == Times(Times(0.5 * (x[SPEED] + y[SPEED]), dt), t.sin(x[HEADING]))
            && y[HEADING] == x[HEADING] + Times(x[YAW_RATE], dt) - Turns(k) && -PI <= y[HEADING] < PI
            && y[YAW_RATE] == x[YAW_RATE] && y[5] == x[5]
  {
    k := PredictedMoves(t, f.state, m, dt);
  }

  lemma PredictedMoves(t: Trig, x: Vec, m: Imu, dt: real) returns (k: int)
    requires |x| == N
    ensures var y := Predicted(t, x, m, dt);
            && y[SPEED] - x[SPEED] == Times(m.acceleration - x[5], dt)
            && (m.acceleration == x[5] ==> y[SPEED] == x[SPEED])
            && y[0] - x[0] == Times(Times(0.5 * (x[SPEED] + y[SPEED]), dt), t.cos(x[HEADING]))
            && y[1] - x[1] == Times(Times(0.5 * (x[SPEED] + y[SPEED]), dt), t.sin(x[HEADING]))
            && y[HEADING] == x[HEADING] + Times(x[YAW_RATE], dt) - Turns(k) && -PI <= y[HEADING] < PI
            && y[YAW_RATE] == x[YAW_RATE] && y[5] == x[5]
  {
    SpeedAfter(t, x, m, dt);
    PositionAfter(t, x, m, dt);
    k := NormalizeTurns(x[2] + Times(x[4], dt));
  }

  lemma SpeedAfter(t: Trig, x: Vec, m: Imu, dt: real)
    requires |x| == N
    ensures Predicted(t, x, m, dt)[SPEED] - x[SPEED] == Times(m.acceleration - x[5], dt)
    ensures Travelled(x, m, dt) == Times(0.5 * (x[SPEED] + Predicted(t, x, m, dt)[SPEED]), dt)
  {
    MeanSpeed(x[SPEED], m.acceleration - x[5], dt);
  }

  lemma PositionAfter(t: Trig, x: Vec, m: Imu, dt: real)
    requires |x| == N
    ensures Predicted(t, x, m, dt)[0] - x[0] == Times(Travelled(x, m, dt), t.cos(x[HEADING]))
    ensures Predicted(t, x, m, dt)[1] - x[1] == Times(Travelled(x, m, dt), t.sin(x[HEADING]))
  {
  }

  /** Without turning, an interval predicted in two parts is predicted as a whole. */
  lemma PredictsInParts(c: Config, t: Trig, f: Filter, m: Imu, first: real, second: real)
    requires ValidConfig(c) && Shaped(f) && f.state[YAW_RATE] == 0.0 && -PI <= f.state[HEADING] < PI
    requires Propagated(c, t, f, m, first).1 && Shaped(Propagated(c, t, f, m, first).0)
    requires Propagated(c, t, Propagated(c, t, f, m, first).0, m, second).1 && Propagated(c, t, f, m, first + second).1
    ensures Propagated(c, t, Propagated(c, t, f, m, first).0, m, second).0.state
         == Propagated(c, t, f, m, first + second).0.state
  {
    var g := Propagated(c, t, f, m, first).0;
    var x, y := f.state, g.state;
    var i := MovesUniformly(c, t, f, m, first);
    var j := MovesUniformly(c, t, g, m, second);
    var k := MovesUniformly(c, t, f, m, first + second);
    var z, w := Propagated(c, t, g, m, second).0.state, Propagated(c, t, f, m, first + second).0.state;
    Straight(x[HEADING], y[HEADING], first, i);
    Straight(y[HEADING], z[HEADING], second, j);
    Straight(x[HEADING], w[HEADING], first + second, k);
    PlaceInParts(x, y, z, w, m.acceleration - x[5], first, second, t.cos(x[HEADING]), t.sin(x[HEADING]));
    assert z == w;
  }

  lemma PlaceInParts(x: Vec, y: Vec, z: Vec, w: Vec, a: real, d: real, e: real, cosine: real, sine: real)
    requires |x| == |y| == |z| == |w| == N
    requires Moves(x, y, a, d, cosine, sine) && Moves(y, z, a, e, cosine, sine) && Moves(x, w, a, d + e, cosine, sine)
    ensures z[0] == w[0] && z[1] == w[1] && z[SPEED] == w[SPEED]
  {
    InParts(x[SPEED], y[SPEED], z[SPEED], w[SPEED], a, d, e);
    var p, q := Times(0.5 * (x[SPEED] + y[SPEED]), d), Times(0.5 * (y[SPEED] + z[SPEED]), e);
    AlongInParts(x[0], y[0], z[0], w[0], p, q, cosine);
    AlongInParts(x[1], y[1], z[1], w[1], p, q, sine);
  }

  predicate Moves(x: Vec, y: Vec, a: real, dt: real, cosine: real, sine: real)
    requires |x| == |y| == N
  {
    && y[SPEED] - x[SPEED] == Times(a, dt)
    && y[0] - x[0] == Times(Times(0.5 * (x[SPEED] + y[SPEED]), dt), cosine)
    && y[1] - x[1] == Times(Times(0.5 * (x[SPEED] + y[SPEED]), dt), sine)
  }

  lemma Straight(x: real, y: real, dt: real, k: int)
    requires -PI <= x < PI && -PI <= y < PI && y == x + Times(0.0, dt) - Turns(k)
    ensures y == x
  {
    TurnsSize(k);
  }

  lemma InParts(u: real, v: real, w: real, z: real, a: real, d: real, e: real)
    requires v - u == Times(a, d) && w - v == Times(a, e) && z - u == Times(a, d + e)
    ensures w == z
    ensures Times(0.5 * (u + v), d) + Times(0.5 * (v + w), e) == Times(0.5 * (u + z), d + e)
  {
    assert Times(a, d + e) == Times(a, d) + Times(a, e);
    assert u == v - a * d && w == v + a * e;
  }

  lemma AlongInParts(x: real, y: real, z: real, w: real, p: real, q: real, s: real)
    requires y - x == Times(p, s) && z - y == Times(q, s) && w - x == Times(p + q, s)
    ensures z == w
  {
  }

  /** A prediction is this motion, and then the measured yaw rate pulls at it unless it is gated. */
  lemma PredictMoves(c: Config, t: Trig, f: Filter, m: Imu, dt: real) returns (g: Filter)
    requires ValidConfig(c) && Sound(c, f)
    requires Predict(c, t, f, m, dt).1.result == Accepted || Predict(c, t, f, m, dt).1.result == RejectedGate
    ensures f.initialized && Propagated(c, t, f, m, dt) == (g, true) && Sound(c, g)
    ensures var (f', info) := Predict(c, t, f, m, dt);
            && (info.result == RejectedGate ==> f'.state == g.state && f'.cov == g.cov)
            && (info.result == Accepted ==> Corrects(g, f', m.yawRate, YAW_RATE, c.imuYawVariance, c.floor))
            && f'.seen == f.seen.(imu := Some(m.at))
  {
    g := Propagated(c, t, f, m, dt).0;
    PropagatedSound(c, t, f, m, dt);
    var h := g.(seen := g.seen.(imu := Some(m.at)));
    ScalarStepExact(c, h, Gap(m.yawRate, g.state[YAW_RATE]), Unit(N, YAW_RATE), c.imuYawVariance, c.imuGate);
    if Predict(c, t, f, m, dt).1.result == Accepted {
      YawRatePulls(c, g, m);
    }
  }
}
