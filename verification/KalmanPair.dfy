/** Two measurements at once, as vector2_update of src/ekf.cpp applies them, in exact arithmetic. */
module KalmanPair {
  import opened LinearAlgebra
  import opened Reals
  import opened Kalman

  /** The innovation covariance [s00 s01; s01 s11]. */
  datatype Innovation = Innovation(s00: real, s01: real, s11: real)

  function Determinant(s: Innovation): real {
    s.s00 * s.s11 - s.s01 * s.s01
  }

  datatype Inverse = Inverse(i00: real, i01: real, i10: real, i11: real)

  /** The inverse, by the reciprocal of the determinant. */
  function InverseOf(s: Innovation): Inverse
    requires Determinant(s) != 0.0
  {
    var c := 1.0 / Determinant(s);
    Inverse(s.s11 * c, -s.s01 * c, -s.s01 * c, s.s00 * c)
  }

  function InnovationOf(p: Mat, h0: Vec, h1: Vec, r0: real, r1: real): Innovation
    requires Square(p, |h0|) && |h1| == |h0|
  {
    Innovation(r0 + Dot(h0, Right(p, h0)), Dot(h0, Right(p, h1)), r1 + Dot(h1, Right(p, h1)))
  }

  /** t u + c v */
  function Blend(t: real, u: Vec, c: real, v: Vec): (w: Vec)
    requires |u| == |v|
    ensures |w| == |u| && forall i :: 0 <= i < |u| ==> w[i] == t * u[i] + c * v[i]
  {
    seq(|u|, i requires 0 <= i < |u| => t * u[i] + c * v[i])
  }

  lemma BlendDot(t: real, u: Vec, c: real, v: Vec, y: Vec)
    requires |u| == |v| == |y|
    ensures Dot(Blend(t, u, c, v), y) == t * Dot(u, y) + c * Dot(v, y)
  {
    DotCombines(Blend(t, u, c, v), Scaled(t, u), c, v, y);
    DotCommutes(Scaled(t, u), y);
    ScaledDot(y, t, u);
    DotCommutes(y, u);
  }

  // ------------------------------------------------------- the two variances and their product

  lemma FormSymmetric(p: Mat, h0: Vec, h1: Vec)
    requires Square(p, |p|) && Symmetric(p) && |h0| == |h1| == |p|
    ensures Dot(h0, Right(p, h1)) == Dot(h1, Right(p, h0))
  {
    forall j | 0 <= j < |p| ensures Left(h0, p)[j] == Right(p, h0)[j] {
      SymmetricCol(p, j);
      DotCommutes(h0, p[j]);
    }
    assert Left(h0, p) == Right(p, h0);
    Adjoint(h0, p, h1);
    DotCommutes(h1, Right(p, h0));
  }

  /** The form with coefficients a, b, d at (t, c). */
  function FormAt(t: real, c: real, a: real, b: real, d: real): real {
    t * t * a + 2.0 * (t * c) * b + c * c * d
  }

  lemma BlendQuad(p: Mat, h0: Vec, h1: Vec, t: real, c: real)
    requires Square(p, |p|) && Symmetric(p) && |h0| == |h1| == |p|
    ensures Quad(p, Blend(t, h0, c, h1)) == FormAt(t, c, Quad(p, h0), Dot(h0, Right(p, h1)), Quad(p, h1))
  {
    var x := Blend(t, h0, c, h1);
    BlendDot(t, h0, c, h1, Right(p, x));
    FormSymmetric(p, h0, x);
    FormSymmetric(p, h1, x);
    BlendDot(t, h0, c, h1, Right(p, h0));
    BlendDot(t, h0, c, h1, Right(p, h1));
    FormSymmetric(p, h0, h1);
    var a, b, d := Quad(p, h0), Dot(h0, Right(p, h1)), Quad(p, h1);
    Expand(t, c, a, b, d, Dot(x, Right(p, h0)), Dot(x, Right(p, h1)));
  }

  lemma Expand(t: real, c: real, a: real, b: real, d: real, u: real, v: real)
    requires u == t * a + c * b && v == t * b + c * d
    ensures t * u + c * v == FormAt(t, c, a, b, d)
  {
  }

  /** The Cauchy-Schwarz inequality of a covariance. */
  lemma CauchySchwarz(p: Mat, h0: Vec, h1: Vec)
    requires Square(p, |p|) && Symmetric(p) && PositiveSemidefinite(p) && |h0| == |h1| == |p|
    ensures Dot(h0, Right(p, h1)) * Dot(h0, Right(p, h1)) <= Quad(p, h0) * Quad(p, h1)
  {
    var a, b, d := Quad(p, h0), Dot(h0, Right(p, h1)), Quad(p, h1);
    assert a >= 0.0 && d >= 0.0;
    if d > 0.0 {
      BlendQuad(p, h0, h1, d, -b);
      assert Quad(p, Blend(d, h0, -b, h1)) >= 0.0;
      Discriminant(a, b, d);
    } else {
      BlendQuad(p, h0, h1, b, -(a + 1.0));
      assert Quad(p, Blend(b, h0, -(a + 1.0), h1)) >= 0.0;
      NoVariance(a, b);
    }
  }

  lemma Discriminant(a: real, b: real, d: real)
    requires d > 0.0 && FormAt(d, -b, a, b, d) >= 0.0
    ensures b * b <= a * d
  {
    assert FormAt(d, -b, a, b, d) == d * (a * d - b * b);
  }

  lemma NoVariance(a: real, b: real)
    requires a >= 0.0 && FormAt(b, -(a + 1.0), a, b, 0.0) >= 0.0
    ensures b * b == 0.0
  {
    SqrNonnegative(b);
    assert FormAt(b, -(a + 1.0), a, b, 0.0) == -(b * b * (a + 2.0));
    assert b * b * (a + 2.0) == b * b * a + 2.0 * (b * b);
  }

  /** Main result: the determinant the update divides by is at least r0 r1 plus what each measured
      variance adds. */
  lemma DeterminantBound(p: Mat, h0: Vec, h1: Vec, r0: real, r1: real)
    requires Square(p, |p|) && Symmetric(p) && PositiveSemidefinite(p) && |h0| == |h1| == |p| && r0 > 0.0 && r1 > 0.0
    ensures Determinant(InnovationOf(p, h0, h1, r0, r1)) >= r0 * r1 + r0 * Quad(p, h1) + r1 * Quad(p, h0) >= r0 * r1
  {
    var a, b, d := Quad(p, h0), Dot(h0, Right(p, h1)), Quad(p, h1);
    CauchySchwarz(p, h0, h1);
    assert (r0 + a) * (r1 + d) == r0 * r1 + r0 * d + r1 * a + a * d;
    assert a >= 0.0 && d >= 0.0;
    NonnegativeProduct(r0, d);
    NonnegativeProduct(r1, a);
  }

  // ------------------------------------------------------- the Joseph sum

  /** I - k0 h0' - k1 h1' */
  function PairResidual(k0: Vec, k1: Vec, h0: Vec, h1: Vec): (a: Mat)
    requires |k0| == |k1| == |h0| == |h1|
    ensures Square(a, |k0|)
    ensures forall i, j :: 0 <= i < |k0| && 0 <= j < |k0| ==>
              a[i][j] == (if i == j then 1.0 else 0.0) - (k0[i] * h0[j] + k1[i] * h1[j])
  {
    seq(|k0|, i requires 0 <= i < |k0| =>
      seq(|k0|, j requires 0 <= j < |k0| => (if i == j then 1.0 else 0.0) - (k0[i] * h0[j] + k1[i] * h1[j])))
  }

  function PairJosephEntry(p: Mat, k0: Vec, k1: Vec, h0: Vec, h1: Vec, r0: real, r1: real, i: nat, j: nat): real
    requires |k0| == |k1| == |h0| == |h1| && Square(p, |k0|) && i < |k0| && j < |k0|
  {
    Congruence(PairResidual(k0, k1, h0, h1), p)[i][j] + Noise(k0[i], r0, k0[j]) + Noise(k1[i], r1, k1[j])
  }

  /** The gains are the solution of S k = g. */
  ghost predicate Solves(k0: Vec, k1: Vec, g0: Vec, g1: Vec, s: Innovation) {
    |k0| == |k1| && g0 == Blend(s.s00, k0, s.s01, k1) && g1 == Blend(s.s01, k0, s.s11, k1)
  }

  /** A row of the residual matrix against any vector. */
  lemma ResidualRowDot(k0: Vec, k1: Vec, h0: Vec, h1: Vec, y: Vec, i: nat)
    requires |k0| == |k1| == |h0| == |h1| == |y| && i < |y|
    ensures Dot(PairResidual(k0, k1, h0, h1)[i], y) == y[i] - k0[i] * Dot(h0, y) - k1[i] * Dot(h1, y)
  {
    var a := PairResidual(k0, k1, h0, h1)[i];
    var hk := Blend(k0[i], h0, k1[i], h1);
    DotCombines(a, Unit(|y|, i), -1.0, hk, y);
    DotUnit(i, y);
    BlendDot(k0[i], h0, k1[i], h1, y);
  }

  function PairTransformed(p: real, k0i: real, k0j: real, k1i: real, k1j: real, g0i: real, g0j: real, g1i: real,
                           g1j: real,
                           a: real, b: real, d: real): real {
    p - k0i * g0j - k1i * g1j - k0j * (g0i - k0i * a - k1i * b) - k1j * (g1i - k0i * b - k1i * d)
  }

  lemma PairCongruentEntry(p: Mat, k0: Vec, k1: Vec, h0: Vec, h1: Vec, i: nat, j: nat)
    requires |k0| == |k1| == |h0| == |h1| == |p| && Square(p, |p|) && Symmetric(p) && i < |p| && j < |p|
    ensures var g0, g1 := Right(p, h0), Right(p, h1);
            var a, b, d := Dot(h0, g0), Dot(h0, g1), Dot(h1, g1);
            Congruence(PairResidual(k0, k1, h0, h1), p)[i][j]
            == PairTransformed(p[i][j], k0[i], k0[j], k1[i], k1[j], g0[i], g0[j], g1[i], g1[j], a, b, d)
  {
    var g0, g1, m := Right(p, h0), Right(p, h1), PairResidual(k0, k1, h0, h1);
    var row := Left(m[i], p);
    ResidualRowDot(k0, k1, h0, h1, row, j);
    SymmetricCol(p, j);
    ResidualRowDot(k0, k1, h0, h1, p[j], i);
    DotCommutes(h0, p[j]);
    DotCommutes(h1, p[j]);
    RowForm(p, m[i], h0);
    RowForm(p, m[i], h1);
    ResidualRowDot(k0, k1, h0, h1, g0, i);
    ResidualRowDot(k0, k1, h0, h1, g1, i);
    FormSymmetric(p, h0, h1);
  }

  /** An entry of P - k0 g0' - k1 g1' */
  function PairTerm(p: real, k0: real, g0: real, k1: real, g1: real): real {
    p - k0 * g0 - k1 * g1
  }

  lemma PairEntry(p: Mat, k0: Vec, k1: Vec, h0: Vec, h1: Vec, r0: real, r1: real, i: nat, j: nat)
    requires |k0| == |k1| == |h0| == |h1| == |p| && Square(p, |p|) && Symmetric(p) && i < |p| && j < |p|
    requires Solves(k0, k1, Right(p, h0), Right(p, h1), InnovationOf(p, h0, h1, r0, r1))
    ensures PairJosephEntry(p, k0, k1, h0, h1, r0, r1, i, j)
            == PairTerm(p[i][j], k0[i], Right(p, h0)[j], k1[i], Right(p, h1)[j])
  {
    var g0, g1, s := Right(p, h0), Right(p, h1), InnovationOf(p, h0, h1, r0, r1);
    PairCongruentEntry(p, k0, k1, h0, h1, i, j);
    NormalEquations(k0, k1, g0, g1, s, i);
    PairAlgebra(p[i][j], k0[i], k0[j], k1[i], k1[j], g0[i], g0[j], g1[i], g1[j],
                Dot(h0, g0), Dot(h0, g1), Dot(h1, g1), r0, r1, s);
  }

  lemma NormalEquations(k0: Vec, k1: Vec, g0: Vec, g1: Vec, s: Innovation, i: nat)
    requires Solves(k0, k1, g0, g1, s) && i < |k0|
    ensures s.s00 * k0[i] + s.s01 * k1[i] == g0[i] && s.s01 * k0[i] + s.s11 * k1[i] == g1[i]
  {
  }

  lemma PairAlgebra(p: real, k0i: real, k0j: real, k1i: real, k1j: real, g0i: real, g0j: real, g1i: real, g1j: real,
                    a: real, b: real, d: real, r0: real, r1: real, s: Innovation)
    requires s == Innovation(r0 + a, b, r1 + d)
    requires s.s00 * k0i + s.s01 * k1i == g0i && s.s01 * k0i + s.s11 * k1i == g1i
    ensures PairTransformed(p, k0i, k0j, k1i, k1j, g0i, g0j, g1i, g1j, a, b, d) + Noise(k0i, r0, k0j)
            + Noise(k1i, r1, k1j)
            == PairTerm(p, k0i, g0j, k1i, g1j)
  {
    assert g0i - k0i * a - k1i * b == k0i * r0;
    assert g1i - k0i * b - k1i * d == k1i * r1;
    assert k0j * (k0i * r0) == k0i * r0 * k0j;
    assert k1j * (k1i * r1) == k1i * r1 * k1j;
  }

  // ------------------------------------------------------- gains and posterior

  function FirstGain(g0: Vec, g1: Vec, s: Innovation): Vec
    requires |g0| == |g1| && Determinant(s) != 0.0
  {
    Blend(InverseOf(s).i00, g0, InverseOf(s).i10, g1)
  }

  function SecondGain(g0: Vec, g1: Vec, s: Innovation): Vec
    requires |g0| == |g1| && Determinant(s) != 0.0
  {
    Blend(InverseOf(s).i01, g0, InverseOf(s).i11, g1)
  }

  lemma GainsSolve(g0: Vec, g1: Vec, s: Innovation)
    requires |g0| == |g1| && Determinant(s) != 0.0
    ensures Solves(FirstGain(g0, g1, s), SecondGain(g0, g1, s), g0, g1, s)
  {
    var k0, k1 := FirstGain(g0, g1, s), SecondGain(g0, g1, s);
    forall i | 0 <= i < |g0|
      ensures Blend(s.s00, k0, s.s01, k1)[i] == g0[i] && Blend(s.s01, k0, s.s11, k1)[i] == g1[i]
    {
      Cramer(s, 1.0 / Determinant(s), g0[i], g1[i]);
    }
  }

  lemma Cramer(s: Innovation, c: real, u: real, v: real)
    requires c * Determinant(s) == 1.0
    ensures s.s00 * (s.s11 * c * u + -s.s01 * c * v) + s.s01 * (-s.s01 * c * u + s.s00 * c * v) == u
    ensures s.s01 * (s.s11 * c * u + -s.s01 * c * v) + s.s11 * (-s.s01 * c * u + s.s00 * c * v) == v
  {
    var d := Determinant(s);
    assert s.s00 * (s.s11 * c * u + -s.s01 * c * v) + s.s01 * (-s.s01 * c * u + s.s00 * c * v) == c * d * u;
    assert s.s01 * (s.s11 * c * u + -s.s01 * c * v) + s.s11 * (-s.s01 * c * u + s.s00 * c * v) == c * d * v;
  }

  /** The matrix the Joseph loops store. */
  function PairJoseph(p: Mat, k0: Vec, k1: Vec, h0: Vec, h1: Vec, r0: real, r1: real): (q: Mat)
    requires |k0| == |k1| == |h0| == |h1| && Square(p, |k0|)
    ensures Square(q, |k0|)
    ensures forall i, j :: 0 <= i < |k0| && 0 <= j < |k0| ==>
              q[i][j] == PairJosephEntry(p, k0, k1, h0, h1, r0, r1, i, j)
  {
    seq(|k0|, i requires 0 <= i < |k0| =>
      seq(|k0|, j requires 0 <= j < |k0| => PairJosephEntry(p, k0, k1, h0, h1, r0, r1, i, j)))
  }

  /** P - G S^-1 G', column by column. */
  function PairDowndate(p: Mat, k0: Vec, k1: Vec, g0: Vec, g1: Vec): (q: Mat)
    requires |k0| == |k1| == |g0| == |g1| && Square(p, |k0|)
    ensures Square(q, |k0|)
  {
    Downdate(Downdate(p, k0, g0), k1, g1)
  }

  /** Main result: for gains that solve the normal equations the Joseph loops compute P - G S^-1 G'. */
  lemma PairJosephIs(p: Mat, k0: Vec, k1: Vec, h0: Vec, h1: Vec, r0: real, r1: real)
    requires |k0| == |k1| == |h0| == |h1| == |p| && Square(p, |p|) && Symmetric(p)
    requires Solves(k0, k1, Right(p, h0), Right(p, h1), InnovationOf(p, h0, h1, r0, r1))
    ensures PairJoseph(p, k0, k1, h0, h1, r0, r1) == PairDowndate(p, k0, k1, Right(p, h0), Right(p, h1))
  {
    var g0, g1 := Right(p, h0), Right(p, h1);
    var a, b := PairJoseph(p, k0, k1, h0, h1, r0, r1), PairDowndate(p, k0, k1, g0, g1);
    forall i, j | 0 <= i < |p| && 0 <= j < |p| ensures a[i][j] == b[i][j] {
      PairEntry(p, k0, k1, h0, h1, r0, r1, i, j);
      PairDowndateEntry(p, k0, k1, g0, g1, i, j);
      assert a[i][j] == PairJosephEntry(p, k0, k1, h0, h1, r0, r1, i, j);
    }
    SameEntries(a, b);
  }

  lemma PairDowndateEntry(p: Mat, k0: Vec, k1: Vec, g0: Vec, g1: Vec, i: nat, j: nat)
    requires |k0| == |k1| == |g0| == |g1| && Square(p, |k0|) && i < |k0| && j < |k0|
    ensures PairDowndate(p, k0, k1, g0, g1)[i][j] == PairTerm(p[i][j], k0[i], g0[j], k1[i], g1[j])
  {
  }

  lemma PairJosephQuad(p: Mat, k0: Vec, k1: Vec, h0: Vec, h1: Vec, r0: real, r1: real, q: Mat, x: Vec)
    requires |k0| == |k1| == |h0| == |h1| == |p| == |x| && Square(p, |p|) && r0 >= 0.0 && r1 >= 0.0
    requires q == PairJoseph(p, k0, k1, h0, h1, r0, r1)
    ensures Quad(q, x) >= Quad(p, Left(x, PairResidual(k0, k1, h0, h1)))
  {
    var m := PairResidual(k0, k1, h0, h1);
    var c := Congruence(m, p);
    var c0 := Downdate(c, Scaled(-r0, k0), k0);
    var q' := Downdate(c0, Scaled(-r1, k1), k1);
    forall i, j | 0 <= i < |p| && 0 <= j < |p| ensures q[i][j] == q'[i][j] {
      assert q[i][j] == PairJosephEntry(p, k0, k1, h0, h1, r0, r1, i, j);
      NoiseTerm(k0[i], r0, k0[j]);
      NoiseTerm(k1[i], r1, k1[j]);
    }
    SameEntries(q, q');
    CongruenceQuad(m, p, x);
    DowndateRaises(c, k0, r0, x);
    DowndateRaises(c0, k1, r1, x);
  }

  lemma NoiseTerm(a: real, r: real, b: real)
    ensures a * r * b == -(-r * a * b)
  {
  }

  lemma DowndateRaises(p: Mat, k: Vec, r: real, x: Vec)
    requires Square(p, |k|) && |x| == |k| && r >= 0.0
    ensures Quad(Downdate(p, Scaled(-r, k), k), x) >= Quad(p, x)
  {
    DowndateQuad(p, Scaled(-r, k), k, x);
    ScaledDot(x, -r, k);
    ScaledSquare(r, Dot(x, k));
    NegativeScale(r, Dot(x, k));
  }

  lemma NegativeScale(r: real, d: real)
    ensures -r * d * d == -(d * (r * d))
  {
  }

  lemma PairJosephPsd(p: Mat, k0: Vec, k1: Vec, h0: Vec, h1: Vec, r0: real, r1: real)
    requires |k0| == |k1| == |h0| == |h1| == |p| && Square(p, |p|) && PositiveSemidefinite(p) && r0 >= 0.0 && r1 >= 0.0
    ensures PositiveSemidefinite(PairJoseph(p, k0, k1, h0, h1, r0, r1))
  {
    var q := PairJoseph(p, k0, k1, h0, h1, r0, r1);
    forall x: Vec | |x| == |p| ensures Quad(q, x) >= 0.0 {
      PairJosephQuad(p, k0, k1, h0, h1, r0, r1, q, x);
      assert Quad(p, Left(x, PairResidual(k0, k1, h0, h1))) >= 0.0;
    }
  }

  /** Along every vector an accepted pair lowers the variance. */
  lemma PairQuad(p: Mat, k0: Vec, k1: Vec, g0: Vec, g1: Vec, s: Innovation, x: Vec)
    requires Square(p, |p|) && |x| == |g0| == |p| && Solves(k0, k1, g0, g1, s)
    requires s.s00 > 0.0 && Determinant(s) >= 0.0
    ensures Quad(PairDowndate(p, k0, k1, g0, g1), x) <= Quad(p, x)
  {
    DowndateQuad(p, k0, g0, x);
    DowndateQuad(Downdate(p, k0, g0), k1, g1, x);
    BlendDot(s.s00, k0, s.s01, k1, x);
    BlendDot(s.s01, k0, s.s11, k1, x);
    DotCommutes(x, g0);
    DotCommutes(x, g1);
    DotCommutes(x, k0);
    DotCommutes(x, k1);
    InnovationForm(s, Dot(x, k0), Dot(x, k1), Dot(x, g0), Dot(x, g1));
  }

  lemma InnovationForm(s: Innovation, e0: real, e1: real, d0: real, d1: real)
    requires s.s00 > 0.0 && Determinant(s) >= 0.0
    requires d0 == s.s00 * e0 + s.s01 * e1 && d1 == s.s01 * e0 + s.s11 * e1
    ensures e0 * d0 + e1 * d1 >= 0.0
  {
    assert s.s00 * (e0 * d0 + e1 * d1) == d0 * d0 + Determinant(s) * (e1 * e1);
    SqrNonnegative(d0);
    SqrNonnegative(e1);
    NonnegativeProduct(Determinant(s), e1 * e1);
  }
}
