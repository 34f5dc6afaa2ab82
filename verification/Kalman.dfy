/** The measurement updates of src/ekf.cpp in exact arithmetic: the Joseph-form loops, their closed
    form, and what they do to the covariance. */
module Kalman {
  import opened LinearAlgebra
  import opened Reals

  // ------------------------------------------------------- one measurement

  /** I - k h' */
  function Residual(k: Vec, h: Vec): (a: Mat)
    requires |k| == |h|
    ensures Square(a, |k|)
    ensures forall i, j :: 0 <= i < |k| && 0 <= j < |k| ==> a[i][j] == (if i == j then 1.0 else 0.0) - k[i] * h[j]
  {
    seq(|k|, i requires 0 <= i < |k| =>
      seq(|k|, j requires 0 <= j < |k| => (if i == j then 1.0 else 0.0) - k[i] * h[j]))
  }

  function Noise(a: real, r: real, b: real): real {
    a * r * b
  }

  /** What the loops of scalar_update store: (I - k h') P (I - k h')' + k r k' */
  function JosephEntry(p: Mat, k: Vec, h: Vec, r: real, i: nat, j: nat): real
    requires Square(p, |k|) && |h| == |k| && i < |k| && j < |k|
  {
    Congruence(Residual(k, h), p)[i][j] + Noise(k[i], r, k[j])
  }

  /** Rows of P scaled by 1 / s. */
  function Gain(g: Vec, s: real): (k: Vec)
    requires s != 0.0
    ensures |k| == |g| && forall i :: 0 <= i < |g| ==> k[i] == g[i] / s
  {
    seq(|g|, i requires 0 <= i < |g| => g[i] / s)
  }

  lemma SymmetricCol(p: Mat, j: nat)
    requires Square(p, |p|) && Symmetric(p) && j < |p|
    ensures Col(p, j) == p[j]
  {
  }

  /** A row of the residual matrix against any vector. */
  lemma ResidualDot(k: Vec, h: Vec, y: Vec, i: nat)
    requires |k| == |h| == |y| && i < |k|
    ensures Dot(Residual(k, h)[i], y) == y[i] - k[i] * Dot(h, y)
  {
    DotCombines(Residual(k, h)[i], Unit(|k|, i), -k[i], h, y);
    DotUnit(i, y);
  }

  lemma CongruentEntry(p: Mat, k: Vec, h: Vec, i: nat, j: nat)
    requires Square(p, |p|) && Symmetric(p) && |k| == |h| == |p| && i < |p| && j < |p|
    ensures var g := Right(p, h);
            Congruence(Residual(k, h), p)[i][j] == Transformed(p[i][j], k[i], k[j], g[i], g[j], Dot(h, g))
  {
    var g, m := Right(p, h), Residual(k, h);
    var row := Left(m[i], p);
    ResidualDot(k, h, row, j);
    SymmetricCol(p, j);
    ResidualDot(k, h, p[j], i);
    DotCommutes(h, p[j]);
    RowForm(p, m[i], h);
    ResidualDot(k, h, g, i);
  }

  /** p - k g' */
  function Downdate(p: Mat, k: Vec, g: Vec): (q: Mat)
    requires Square(p, |k|) && |g| == |k|
    ensures Square(q, |k|)
    ensures forall i, j :: 0 <= i < |k| && 0 <= j < |k| ==> q[i][j] == p[i][j] - k[i] * g[j]
  {
    seq(|k|, i requires 0 <= i < |k| => seq(|k|, j requires 0 <= j < |k| => p[i][j] - k[i] * g[j]))
  }

  lemma DowndateEntry(p: Mat, k: Vec, g: Vec, i: nat, j: nat)
    requires Square(p, |k|) && |g| == |k| && i < |k| && j < |k|
    ensures Downdate(p, k, g)[i][j] == p[i][j] - k[i] * g[j]
  {
  }

  lemma DowndateQuad(p: Mat, k: Vec, g: Vec, x: Vec)
    requires Square(p, |k|) && |g| == |x| == |k|
    ensures Quad(Downdate(p, k, g), x) == Quad(p, x) - Dot(x, k) * Dot(x, g)
  {
    var u, q := Scaled(-1.0, k), Downdate(p, k, g);
    forall i | 0 <= i < |k| ensures Combines(q[i], p[i], u[i], g) {
      forall j | 0 <= j < |k| ensures q[i][j] == p[i][j] + u[i] * g[j] {
        NegatedProduct(u[i], k[i], g[j]);
      }
    }
    QuadOuter(q, p, u, g, x);
    ScaledDot(x, -1.0, k);
    DotCommutes(x, g);
  }

  lemma NegatedProduct(u: real, k: real, g: real)
    requires u == -1.0 * k
    ensures u * g == -(k * g)
  {
  }

  lemma JosephEntryIs(p: Mat, k: Vec, h: Vec, r: real, g: Vec, s: real, i: nat, j: nat)
    requires Square(p, |p|) && Symmetric(p) && |k| == |h| == |p| && i < |p| && j < |p| && g == Right(p, h)
    requires s == r + Dot(h, g) && s * k[i] == g[i]
    ensures JosephEntry(p, k, h, r, i, j) == p[i][j] - k[i] * g[j]
  {
    CongruentEntry(p, k, h, i, j);
    assert JosephEntry(p, k, h, r, i, j)
        == Transformed(p[i][j], k[i], k[j], g[i], g[j], Dot(h, g)) + Noise(k[i], r, k[j]);
    ScalarAlgebra(p[i][j], k[i], k[j], g[i], g[j], Dot(h, g), r, s);
  }

  /** An entry of (I - k h') P (I - k h')'. */
  function Transformed(p: real, ki: real, kj: real, gi: real, gj: real, q: real): real {
    p - ki * gj - kj * (gi - ki * q)
  }

  lemma ScalarAlgebra(p: real, ki: real, kj: real, gi: real, gj: real, q: real, r: real, s: real)
    requires s == r + q && s * ki == gi
    ensures Transformed(p, ki, kj, gi, gj, q) + Noise(ki, r, kj) == p - ki * gj
  {
    assert gi - ki * q == ki * r;
    assert kj * (ki * r) == ki * r * kj;
  }

  /** The matrix the Joseph loops store. */
  function Joseph(p: Mat, k: Vec, h: Vec, r: real): (q: Mat)
    requires Square(p, |k|) && |h| == |k|
    ensures Square(q, |k|)
    ensures forall i, j :: 0 <= i < |k| && 0 <= j < |k| ==> q[i][j] == JosephEntry(p, k, h, r, i, j)
  {
    seq(|k|, i requires 0 <= i < |k| => seq(|k|, j requires 0 <= j < |k| => JosephEntry(p, k, h, r, i, j)))
  }

  function InnovationVariance(p: Mat, h: Vec, r: real): real
    requires Square(p, |h|)
  {
    r + Dot(h, Right(p, h))
  }

  /** The covariance after an accepted scalar measurement, before flooring: P - g g' / s. */
  function Posterior(p: Mat, h: Vec, r: real): (q: Mat)
    requires Square(p, |h|) && InnovationVariance(p, h, r) != 0.0
    ensures Square(q, |h|)
  {
    Downdate(p, Gain(Right(p, h), InnovationVariance(p, h, r)), Right(p, h))
  }

  lemma GainSolves(g: Vec, s: real, i: nat)
    requires s != 0.0 && i < |g|
    ensures s * Gain(g, s)[i] == g[i]
  {
  }

  /** Main result: the Joseph loops compute P - g g' / s. */
  lemma JosephIsPosterior(p: Mat, h: Vec, r: real)
    requires Square(p, |p|) && Symmetric(p) && |h| == |p| && InnovationVariance(p, h, r) != 0.0
    ensures Joseph(p, Gain(Right(p, h), InnovationVariance(p, h, r)), h, r) == Posterior(p, h, r)
  {
    var g, s := Right(p, h), InnovationVariance(p, h, r);
    JosephIsDowndate(p, Gain(g, s), h, r, g, s);
  }

  lemma JosephIsDowndate(p: Mat, k: Vec, h: Vec, r: real, g: Vec, s: real)
    requires Square(p, |p|) && Symmetric(p) && |h| == |p| && g == Right(p, h) && s == InnovationVariance(p, h, r)
    requires s != 0.0 && k == Gain(g, s)
    ensures Joseph(p, k, h, r) == Downdate(p, k, g)
  {
    var a, b := Joseph(p, k, h, r), Downdate(p, k, g);
    forall i, j | 0 <= i < |p| && 0 <= j < |p| ensures a[i][j] == b[i][j] {
      GainSolves(g, s, i);
      JosephEntryIs(p, k, h, r, g, s, i, j);
      DowndateEntry(p, k, g, i, j);
      assert a[i][j] == JosephEntry(p, k, h, r, i, j);
    }
    SameEntries(a, b);
  }

  lemma GainDot(x: Vec, g: Vec, s: real)
    requires |x| == |g| && s != 0.0
    ensures s * Dot(x, Gain(g, s)) == Dot(x, g)
  {
    var k := Gain(g, s);
    forall i | 0 <= i < |g| ensures Scaled(s, k)[i] == g[i] {
    }
    assert Scaled(s, k) == g;
    ScaledDot(x, s, k);
  }

  /** Along every vector an accepted measurement lowers the variance, by the square of what it sees. */
  lemma PosteriorQuad(p: Mat, h: Vec, r: real, x: Vec)
    requires Square(p, |h|) && |x| == |h| && InnovationVariance(p, h, r) > 0.0
    ensures var d := Dot(x, Right(p, h));
            Quad(Posterior(p, h, r), x) == Quad(p, x) - d * d / InnovationVariance(p, h, r) <= Quad(p, x)
  {
    var g, s := Right(p, h), InnovationVariance(p, h, r);
    DowndateQuad(p, Gain(g, s), g, x);
    GainDot(x, g, s);
    QuotientSquare(Dot(x, g), Dot(x, Gain(g, s)), s);
  }

  lemma QuotientSquare(d: real, e: real, s: real)
    requires s > 0.0 && s * e == d
    ensures e * d == d * d / s >= 0.0
  {
    assert d / s == e;
    assert d * d / s == d / s * d;
    SqrNonnegative(e);
    assert e * d == s * (e * e);
  }

  /** The form of the Joseph sum is the prior form of the transformed vector plus r times a square. */
  lemma JosephQuad(p: Mat, k: Vec, h: Vec, r: real, q: Mat, x: Vec)
    requires Square(p, |p|) && |k| == |h| == |p| == |x| && q == Joseph(p, k, h, r) && r >= 0.0
    ensures Quad(q, x) >= Quad(p, Left(x, Residual(k, h)))
  {
    var c, u := Congruence(Residual(k, h), p), Scaled(r, k);
    forall i | 0 <= i < |p| ensures Combines(q[i], c[i], u[i], k) {
      forall j | 0 <= j < |p| ensures q[i][j] == c[i][j] + u[i] * k[j] {
        assert q[i][j] == JosephEntry(p, k, h, r, i, j);
        assert k[i] * r == r * k[i];
      }
    }
    QuadOuter(q, c, u, k, x);
    ScaledDot(x, r, k);
    DotCommutes(x, k);
    CongruenceQuad(Residual(k, h), p, x);
    ScaledSquare(r, Dot(k, x));
  }

  lemma ScaledSquare(r: real, d: real)
    requires r >= 0.0
    ensures d * (r * d) >= 0.0
  {
    SqrNonnegative(d);
    assert d * (r * d) == r * (d * d);
  }

  lemma JosephPsd(p: Mat, k: Vec, h: Vec, r: real)
    requires Square(p, |p|) && PositiveSemidefinite(p) && |k| == |h| == |p| && r >= 0.0
    ensures PositiveSemidefinite(Joseph(p, k, h, r))
  {
    var q := Joseph(p, k, h, r);
    forall x: Vec | |x| == |p| ensures Quad(q, x) >= 0.0 {
      JosephQuad(p, k, h, r, q, x);
      var y := Left(x, Residual(k, h));
      assert Quad(p, y) >= 0.0;
    }
  }

  lemma PosteriorPsd(p: Mat, h: Vec, r: real)
    requires Square(p, |p|) && Symmetric(p) && PositiveSemidefinite(p) && |h| == |p| && r >= 0.0
    requires InnovationVariance(p, h, r) > 0.0
    ensures PositiveSemidefinite(Posterior(p, h, r))
  {
    JosephIsPosterior(p, h, r);
    JosephPsd(p, Gain(Right(p, h), InnovationVariance(p, h, r)), h, r);
  }
}
