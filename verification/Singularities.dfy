/** When the 2x2 inversion of src/ekf.cpp can meet a determinant that is too small: position fixes and landmarks. */
module Singularities {
  import opened Covariance
  import opened Ekf
  import opened EstimatorRuns
  import opened KalmanPair
  import opened LinearAlgebra
  import opened Reals
  import opened Words

  // ------------------------------------------------------- covariances of rank one

  /** a v v' */
  function RankOne(a: real, v: Vec): (p: Mat)
    ensures |p| == |v| && Square(p, |v|) && forall i :: 0 <= i < |v| ==> p[i] == Scaled(Times(a, v[i]), v)
  {
    seq(|v|, i requires 0 <= i < |v| => Scaled(Times(a, v[i]), v))
  }

  lemma RankOneRight(a: real, v: Vec, y: Vec)
    requires |y| == |v|
    ensures Right(RankOne(a, v), y) == Scaled(Times(a, Dot(v, y)), v)
  {
    var p, d := RankOne(a, v), Dot(v, y);
    forall i | 0 <= i < |v| ensures Right(p, y)[i] == Scaled(Times(a, d), v)[i] {
      ScaledDot(y, Times(a, v[i]), v);
      DotCommutes(p[i], y);
      DotCommutes(y, v);
      assert Times(a, v[i]) * d == Times(a, d) * v[i];
    }
  }

  lemma RankOneQuad(a: real, v: Vec, x: Vec)
    requires |x| == |v|
    ensures Quad(RankOne(a, v), x) == Times(a, Sqr(Dot(v, x)))
  {
    var d := Dot(v, x);
    RankOneRight(a, v, x);
    ScaledDot(x, Times(a, d), v);
    DotCommutes(x, v);
    assert Times(a, d) * d == Times(a, Sqr(d));
  }

  lemma RankOneHealthy(a: real, v: Vec, maximum: real)
    requires a > 0.0 && forall i :: 0 <= i < |v| ==> a <= Times(a, Sqr(v[i])) <= maximum
    ensures Healthy(RankOne(a, v), a, maximum)
  {
    var p := RankOne(a, v);
    forall i, j | 0 <= i < |v| && 0 <= j < |v| ensures p[i][j] == p[j][i] {
      assert Times(a, v[i]) * v[j] == Times(a, v[j]) * v[i];
    }
    forall i | 0 <= i < |v| ensures p[i][i] == Times(a, Sqr(v[i])) {
      assert Times(a, v[i]) * v[i] == Times(a, Sqr(v[i]));
    }
    forall x: Vec | |x| == |p| ensures Quad(p, x) >= 0.0 {
      RankOneQuad(a, v, x);
      SqrNonnegative(Dot(v, x));
      TimesNonnegative(a, Sqr(Dot(v, x)));
    }
  }

  lemma RankOneInnovation(a: real, v: Vec, h0: Vec, h1: Vec, r0: real, r1: real)
    requires |h0| == |h1| == |v|
    ensures InnovationOf(RankOne(a, v), h0, h1, r0, r1)
         == Innovation(r0 + Times(a, Sqr(Dot(v, h0))), Times(Times(a, Dot(v, h1)), Dot(v, h0)),
                       r1 + Times(a, Sqr(Dot(v, h1))))
  {
    RankOneQuad(a, v, h0);
    RankOneQuad(a, v, h1);
    RankOneRight(a, v, h1);
    ScaledDot(h0, Times(a, Dot(v, h1)), v);
    DotCommutes(h0, v);
  }

  // ------------------------------------------------------- position fixes

  predicate FixIsRegular(c: Config, p: Mat)
    requires |p| == N && Square(p, N)
  {
    Determinant(InnovationOf(p, Unit(N, 0), Unit(N, 1), c.gnssX, c.gnssY)) > MINIMUM_DETERMINANT
  }

  /** The least determinant a healthy covariance can leave. */
  function LeastFix(c: Config): real {
    c.gnssX * c.gnssY + c.gnssX * c.floor + c.gnssY * c.floor
  }

  function Ones(): (v: Vec)
    ensures |v| == N && forall i :: 0 <= i < N ==> v[i] == 1.0
  {
    seq(N, _ => 1.0)
  }

  lemma OnesFix(c: Config)
    requires ValidConfig(c)
    ensures Healthy(RankOne(c.floor, Ones()), c.floor, c.maxCovariance)
    ensures Determinant(InnovationOf(RankOne(c.floor, Ones()), Unit(N, 0), Unit(N, 1), c.gnssX, c.gnssY)) == LeastFix(c)
  {
    RankOneHealthy(c.floor, Ones(), c.maxCovariance);
    RankOneInnovation(c.floor, Ones(), Unit(N, 0), Unit(N, 1), c.gnssX, c.gnssY);
    DotUnit(0, Ones());
    DotUnit(1, Ones());
    DotCommutes(Ones(), Unit(N, 0));
    DotCommutes(Ones(), Unit(N, 1));
    LeastAlgebra(c.gnssX, c.gnssY, c.floor);
  }

  lemma LeastAlgebra(r0: real, r1: real, a: real)
    ensures Determinant(Innovation(r0 + a, a, r1 + a)) == r0 * r1 + r0 * a + r1 * a
  {
  }

  lemma FixBound(c: Config, p: Mat)
    requires ValidConfig(c) && |p| == N && Square(p, N) && Healthy(p, c.floor, c.maxCovariance)
    ensures Determinant(InnovationOf(p, Unit(N, 0), Unit(N, 1), c.gnssX, c.gnssY)) >= LeastFix(c)
  {
    DeterminantBound(p, Unit(N, 0), Unit(N, 1), c.gnssX, c.gnssY);
    DiagonalQuad(p, 0);
    DiagonalQuad(p, 1);
    NonnegativeProduct(c.gnssX, p[1][1] - c.floor);
    NonnegativeProduct(c.gnssY, p[0][0] - c.floor);
  }

  /** Main result on fixes: the inversion fails on no healthy covariance exactly if the configured variances and the
      floor keep this sum above the minimum determinant. */
  lemma FixRegularExactly(c: Config)
    requires ValidConfig(c)
    ensures LeastFix(c) > MINIMUM_DETERMINANT
            <==> forall p: Mat {:trigger FixIsRegular(c, p)} ::
                   |p| == N && Square(p, N) && Healthy(p, c.floor, c.maxCovariance) ==> FixIsRegular(c, p)
  {
    OnesFix(c);
    assert FixIsRegular(c, RankOne(c.floor, Ones())) <==> LeastFix(c) > MINIMUM_DETERMINANT;
    forall p: Mat | |p| == N && Square(p, N) && Healthy(p, c.floor, c.maxCovariance)
      ensures LeastFix(c) > MINIMUM_DETERMINANT ==> FixIsRegular(c, p)
    {
      FixBound(c, p);
    }
  }

  /** So on every run of such a configuration no fix fails on its inversion. */
  lemma FixNeverSingular(c: Config, t: Trig, f: Filter, calls: seq<Call>)
    requires ValidConfig(c) && PositiveRoots(t) && Sound(c, f) && LeastFix(c) > MINIMUM_DETERMINANT
    ensures var g := Run(c, t, f, calls); Sound(c, g) && (g.initialized ==> FixIsRegular(c, g.cov))
  {
    RunStaysSound(c, t, f, calls);
    if Run(c, t, f, calls).initialized {
      FixBound(c, Run(c, t, f, calls).cov);
    }
  }

  function Origin(): (x: Vec)
    ensures |x| == N && forall i :: 0 <= i < N ==> x[i] == 0.0
  {
    seq(N, _ => 0.0)
  }

  function Uniform(a: real): (v: Vec)
    ensures |v| == N && forall i :: 0 <= i < N ==> v[i] == a
  {
    seq(N, _ => a)
  }

  lemma FlatInnovation(p: Mat, a: real, r0: real, r1: real)
    requires |p| == N && Square(p, N)
    requires forall i, j :: 0 <= i < N && 0 <= j < N ==> p[i][j] == if i == j then a else 0.0
    ensures Determinant(InnovationOf(p, Unit(N, 0), Unit(N, 1), r0, r1)) == (r0 + a) * (r1 + a)
  {
    DiagonalQuad(p, 0);
    DiagonalQuad(p, 1);
    DotUnit(0, Right(p, Unit(N, 1)));
    DotCommutes(p[0], Unit(N, 1));
    DotUnit(1, p[0]);
  }

  lemma SingularFix(c: Config, f: Filter, at: u32)
    requires ValidConfig(c) && Shaped(f) && f.initialized && f.healthy && !FixIsRegular(c, f.cov)
    ensures Gnss(c, f, 0.0, 0.0, at) == (f, Info(NumericalFailure, 0.0))
  {
  }

  lemma FlooredStart(c: Config, f: Filter)
    requires ValidConfig(c) && Sound(c, f)
    ensures var (f1, ok) := Initialize(c, f, Origin(), Uniform(c.floor));
            && ok && Shaped(f1) && f1.initialized && f1.healthy
            && forall i, j :: 0 <= i < N && 0 <= j < N ==> f1.cov[i][j] == if i == j then c.floor else 0.0
  {
    InitializeSound(c, f, Origin(), Uniform(c.floor));
  }

  /** A run that fails: with variances this small an initialization at the floor followed by a perfect fix ends in a
      numerical failure. */
  lemma FixFails(c: Config, f: Filter, at: u32)
    requires ValidConfig(c) && Sound(c, f) && (c.gnssX + c.floor) * (c.gnssY + c.floor) <= MINIMUM_DETERMINANT
    ensures var (f1, ok) := Initialize(c, f, Origin(), Uniform(c.floor));
            ok && Gnss(c, f1, 0.0, 0.0, at) == (f1, Info(NumericalFailure, 0.0))
  {
    FlooredStart(c, f);
    var f1 := Initialize(c, f, Origin(), Uniform(c.floor)).0;
    FlatInnovation(f1.cov, c.floor, c.gnssX, c.gnssY);
    SingularFix(c, f1, at);
  }

  /** Such a configuration is valid. */
  lemma WeakConfigExists() returns (c: Config)
    ensures ValidConfig(c) && (c.gnssX + c.floor) * (c.gnssY + c.floor) <= MINIMUM_DETERMINANT
  {
    var tiny, one := 0.0000001, 1.0;
    c := Config(Uniform(one), Uniform(0.0), one, one, tiny, tiny, one, one, one, one, one, one, one, 2.0, one, one, one,
                one,
                one, tiny, one, 1, 1, 1, 1);
  }

  // ------------------------------------------------------- landmarks

  predicate SightIsRegular(c: Config, t: Trig, p: Mat, x: Vec, lx: real, ly: real)
    requires ValidConfig(c) && PositiveRoots(t) && |p| == |x| == N && Square(p, N)
  {
    var s := Sight(t, x, lx, ly, c.minRange);
    s.Some? ==> Determinant(InnovationOf(p, s.value.rangeRow, s.value.bearingRow, c.landmarkRange, c.landmarkBearing))
                > MINIMUM_DETERMINANT
  }

  lemma SightBound(c: Config, t: Trig, p: Mat, x: Vec, lx: real, ly: real)
    requires ValidConfig(c) && PositiveRoots(t) && |p| == |x| == N && Square(p, N) &&
             Healthy(p, c.floor, c.maxCovariance)
    requires c.landmarkRange * c.landmarkBearing > MINIMUM_DETERMINANT
    ensures SightIsRegular(c, t, p, x, lx, ly)
  {
    var s := Sight(t, x, lx, ly, c.minRange);
    if s.Some? {
      DeterminantBound(p, s.value.rangeRow, s.value.bearingRow, c.landmarkRange, c.landmarkBearing);
    }
  }

  /** How far along both axes the worst landmark stands. */
  function Reach(c: Config): real {
    if c.minRange < 1.0 then 1.0 else c.minRange
  }

  /** The direction in which neither range nor bearing of that landmark says anything. */
  function Unseen(d: real): (v: Vec)
    ensures |v| == N
  {
    [d, -d, 1.0, 1.0, 1.0, 1.0]
  }

  lemma UnseenRows(t: Trig, d: real, minRange: real)
    requires PositiveRoots(t) && minRange > 0.0 && d >= 1.0 && d >= minRange
    ensures var s := Sight(t, Origin(), d, d, minRange);
            s.Some? && Dot(Unseen(d), s.value.rangeRow) == 0.0 && Dot(Unseen(d), s.value.bearingRow) == 0.0
  {
    var s := Sight(t, Origin(), d, d, minRange);
    MultiplyOrder(minRange, d, minRange);
    MultiplyOrder(minRange, d, d);
    TimesCommutes(minRange, d);
    SqrPositive(d);
    var range, squared := t.root(Sqr(d) + Sqr(d)), Sqr(d) + Sqr(d);
    SixTerms(Unseen(d), s.value.rangeRow);
    SixTerms(Unseen(d), s.value.bearingRow);
    assert d * (-d / range) + -d * (-d / range) == 0.0;
    assert d * (d / squared) + -d * (-d / squared) == 1.0 by {
      HalfAndHalf(d, squared);
    }
  }

  lemma HalfAndHalf(d: real, squared: real)
    requires d >= 1.0 && squared == Sqr(d) + Sqr(d) && squared > 0.0
    ensures d * (d / squared) + -d * (-d / squared) == 1.0
  {
    assert d * (d / squared) == Sqr(d) / squared;
    assert -d * (-d / squared) == Sqr(d) / squared;
  }

  /** Main result on landmarks: if the floor leaves room for it under the maximum, the inversion fails on no healthy
      covariance and for no landmark exactly if the product of the two variances exceeds the minimum determinant: the
      floor does not help here. */
  lemma SightRegularExactly(c: Config, t: Trig)
    requires ValidConfig(c) && PositiveRoots(t) && Times(c.floor, Sqr(Reach(c))) <= c.maxCovariance
    ensures c.landmarkRange * c.landmarkBearing > MINIMUM_DETERMINANT
            <==> forall p: Mat, x: Vec, lx: real, ly: real {:trigger SightIsRegular(c, t, p, x, lx, ly)} ::
                   |p| == |x| == N && Square(p, N) && Healthy(p, c.floor, c.maxCovariance) ==>
                     SightIsRegular(c, t, p, x, lx, ly)
  {
    var d := Reach(c);
    var p := RankOne(c.floor, Unseen(d));
    UnseenRows(t, d, c.minRange);
    var s := Sight(t, Origin(), d, d, c.minRange).value;
    UnseenHealthy(c, d);
    RankOneInnovation(c.floor, Unseen(d), s.rangeRow, s.bearingRow, c.landmarkRange, c.landmarkBearing);
    assert SightIsRegular(c, t, p, Origin(), d, d) <==> c.landmarkRange * c.landmarkBearing > MINIMUM_DETERMINANT;
    if c.landmarkRange * c.landmarkBearing > MINIMUM_DETERMINANT {
      forall p: Mat, x: Vec, lx: real, ly: real
        | |p| == |x| == N && Square(p, N) && Healthy(p, c.floor, c.maxCovariance)
        ensures SightIsRegular(c, t, p, x, lx, ly)
      {
        SightBound(c, t, p, x, lx, ly);
      }
    }
  }

  lemma UnseenHealthy(c: Config, d: real)
    requires ValidConfig(c) && d >= 1.0 && Times(c.floor, Sqr(d)) <= c.maxCovariance
    ensures Healthy(RankOne(c.floor, Unseen(d)), c.floor, c.maxCovariance)
  {
    var v := Unseen(d);
    MultiplyOrder(1.0, d, d);
    MultiplyOrder(1.0, Sqr(d), c.floor);
    forall i | 0 <= i < N ensures c.floor <= Times(c.floor, Sqr(v[i])) <= c.maxCovariance {
      assert Sqr(v[i]) == Sqr(d) || Sqr(v[i]) == 1.0;
    }
    RankOneHealthy(c.floor, v, c.maxCovariance);
  }

  lemma SightNeverSingular(c: Config, t: Trig, f: Filter, calls: seq<Call>, lx: real, ly: real)
    requires ValidConfig(c) && PositiveRoots(t) && Sound(c, f) &&
             c.landmarkRange * c.landmarkBearing > MINIMUM_DETERMINANT
    ensures var g := Run(c, t, f, calls);
            Sound(c, g) && (g.initialized ==> SightIsRegular(c, t, g.cov, g.state, lx, ly))
  {
    RunStaysSound(c, t, f, calls);
    var g := Run(c, t, f, calls);
    if g.initialized {
      SightBound(c, t, g.cov, g.state, lx, ly);
    }
  }

  // ------------------------------------------------------- the default configuration

  function Defaults(): Config {
    Config([4.0, 4.0, 0.25, 1.0, 0.09, 0.25], [0.0025, 0.0025, 0.001, 0.04, 1.0, 0.0001], 0.0025, 0.04, 1.0, 1.0, 0.09,
           0.0025,
           6.635, 6.635, 9.21, 9.21, 0.05, 10000.0, 1000000.0, 50.0, 100.0, 20.0, 0.25, 0.00000001, 1000000.0,
           250, 500, 1500, 1000)
  }

  /** With the default configuration no fix and no landmark ever meets a singular inversion. */
  lemma DefaultsRegular(t: Trig, f: Filter, calls: seq<Call>, lx: real, ly: real)
    requires PositiveRoots(t) && Sound(Defaults(), f)
    ensures ValidConfig(Defaults())
    ensures var g := Run(Defaults(), t, f, calls);
            Sound(Defaults(), g) &&
            (g.initialized ==> FixIsRegular(Defaults(), g.cov) && SightIsRegular(Defaults(), t, g.cov, g.state, lx, ly))
  {
    FixNeverSingular(Defaults(), t, f, calls);
    SightNeverSingular(Defaults(), t, f, calls, lx, ly);
  }
}
