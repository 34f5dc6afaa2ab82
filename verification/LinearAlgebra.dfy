/** Quadratic forms over exact reals: what the covariance arithmetic of src/ekf.cpp relies on. */
module LinearAlgebra {
  import opened Reals

  type Vec = seq<real>
  type Mat = seq<seq<real>>

  predicate Square(a: Mat, n: nat) {
    |a| == n && forall i :: 0 <= i < n ==> |a[i]| == n
  }

  /** The sum of x[i] * y[i] for i < k, added up from the left as the loops do. */
  function Sum(x: Vec, y: Vec, k: nat): real
    requires k <= |x| && k <= |y|
  {
    if k == 0 then 0.0 else Sum(x, y, k - 1) + x[k - 1] * y[k - 1]
  }

  function Dot(x: Vec, y: Vec): real
    requires |x| == |y|
  {
    Sum(x, y, |x|)
  }

  function Col(a: Mat, j: nat): (c: Vec)
    requires Square(a, |a|) && j < |a|
    ensures |c| == |a| && forall i :: 0 <= i < |a| ==> c[i] == a[i][j]
  {
    seq(|a|, i requires 0 <= i < |a| => a[i][j])
  }

  /** A y */
  function Right(a: Mat, y: Vec): (v: Vec)
    requires Square(a, |y|)
    ensures |v| == |y| && forall i :: 0 <= i < |y| ==> v[i] == Dot(a[i], y)
  {
    seq(|y|, i requires 0 <= i < |y| => Dot(a[i], y))
  }

  /** x A, the combination of the rows of A */
  function Left(x: Vec, a: Mat): (v: Vec)
    requires Square(a, |x|)
    ensures |v| == |x| && forall j :: 0 <= j < |x| ==> v[j] == Dot(x, Col(a, j))
  {
    seq(|x|, j requires 0 <= j < |x| => Dot(x, Col(a, j)))
  }

  lemma SameEntries(a: Mat, b: Mat)
    requires Square(a, |a|) && Square(b, |a|)
    requires forall i, j :: 0 <= i < |a| && 0 <= j < |a| ==> a[i][j] == b[i][j]
    ensures a == b
  {
    forall i | 0 <= i < |a| ensures a[i] == b[i] {
    }
  }

  /** w = u + a v */
  ghost predicate Combines(w: Vec, u: Vec, a: real, v: Vec) {
    |w| == |u| == |v| && forall j :: 0 <= j < |w| ==> w[j] == u[j] + a * v[j]
  }

  // ------------------------------------------------------- sums

  lemma {:induction false} SumCommutes(x: Vec, y: Vec, k: nat)
    requires k <= |x| && k <= |y|
    ensures Sum(x, y, k) == Sum(y, x, k)
  {
    if k > 0 {
      SumCommutes(x, y, k - 1);
    }
  }

  lemma DotCommutes(x: Vec, y: Vec)
    requires |x| == |y|
    ensures Dot(x, y) == Dot(y, x)
  {
    SumCommutes(x, y, |x|);
  }

  lemma {:induction false} SumCombines(w: Vec, u: Vec, a: real, v: Vec, y: Vec, k: nat)
    requires Combines(w, u, a, v) && k <= |w| && k <= |y|
    ensures Sum(w, y, k) == Sum(u, y, k) + a * Sum(v, y, k)
  {
    if k > 0 {
      SumCombines(w, u, a, v, y, k - 1);
      Distribute(u[k - 1], a, v[k - 1], y[k - 1]);
      assert a * Sum(v, y, k) == a * Sum(v, y, k - 1) + a * (v[k - 1] * y[k - 1]);
    }
  }

  lemma Distribute(u: real, a: real, v: real, y: real)
    ensures (u + a * v) * y == u * y + a * (v * y)
  {
  }

  /** The product is linear. */
  lemma DotCombines(w: Vec, u: Vec, a: real, v: Vec, y: Vec)
    requires Combines(w, u, a, v) && |y| == |w|
    ensures Dot(w, y) == Dot(u, y) + a * Dot(v, y)
  {
    var k := |y|;
    SumCombines(w, u, a, v, y, k);
    assert Dot(w, y) == Sum(w, y, k) && Dot(u, y) == Sum(u, y, k) && Dot(v, y) == Sum(v, y, k);
  }

  lemma {:induction false} SumZero(x: Vec, y: Vec, k: nat)
    requires k <= |x| && k <= |y| && forall i :: 0 <= i < k ==> x[i] == 0.0
    ensures Sum(x, y, k) == 0.0
  {
    if k > 0 {
      SumZero(x, y, k - 1);
    }
  }

  function Scaled(a: real, v: Vec): (w: Vec)
    ensures |w| == |v| && forall i :: 0 <= i < |v| ==> w[i] == a * v[i]
  {
    seq(|v|, i requires 0 <= i < |v| => a * v[i])
  }

  lemma {:induction false} SumScaled(x: Vec, a: real, v: Vec, k: nat)
    requires |x| == |v| && k <= |x|
    ensures Sum(x, Scaled(a, v), k) == a * Sum(x, v, k)
  {
    if k > 0 {
      SumScaled(x, a, v, k - 1);
      assert x[k - 1] * (a * v[k - 1]) == a * (x[k - 1] * v[k - 1]);
    }
  }

  lemma ScaledDot(x: Vec, a: real, v: Vec)
    requires |x| == |v|
    ensures Dot(x, Scaled(a, v)) == a * Dot(x, v)
  {
    SumScaled(x, a, v, |x|);
  }

  /** The rows of A weighted by the first k entries of x. */
  function PartialLeft(x: Vec, a: Mat, k: nat): (v: Vec)
    requires Square(a, |x|) && k <= |x|
    ensures |v| == |x| && forall j :: 0 <= j < |x| ==> v[j] == Sum(x, Col(a, j), k)
  {
    seq(|x|, j requires 0 <= j < |x| => Sum(x, Col(a, j), k))
  }

  lemma {:induction false} PartialAdjoint(x: Vec, a: Mat, y: Vec, k: nat)
    requires Square(a, |x|) && |y| == |x| && k <= |x|
    ensures Sum(x, Right(a, y), k) == Dot(PartialLeft(x, a, k), y)
  {
    if k == 0 {
      SumZero(PartialLeft(x, a, 0), y, |x|);
    } else {
      PartialAdjoint(x, a, y, k - 1);
      DotCombines(PartialLeft(x, a, k), PartialLeft(x, a, k - 1), x[k - 1], a[k - 1], y);
    }
  }

  /** x . (A y) = (x A) . y */
  lemma Adjoint(x: Vec, a: Mat, y: Vec)
    requires Square(a, |x|) && |y| == |x|
    ensures Dot(x, Right(a, y)) == Dot(Left(x, a), y)
  {
    PartialAdjoint(x, a, y, |x|);
    assert PartialLeft(x, a, |x|) == Left(x, a);
  }

  lemma RowForm(p: Mat, a: Vec, h: Vec)
    requires Square(p, |p|) && |a| == |h| == |p|
    ensures Dot(h, Left(a, p)) == Dot(a, Right(p, h))
  {
    Adjoint(a, p, h);
    DotCommutes(h, Left(a, p));
  }

  // ------------------------------------------------------- quadratic forms

  function Quad(p: Mat, x: Vec): real
    requires Square(p, |x|)
  {
    Dot(x, Right(p, x))
  }

  predicate Symmetric(p: Mat)
    requires Square(p, |p|)
  {
    forall i, j :: 0 <= i < |p| && 0 <= j < |p| ==> p[i][j] == p[j][i]
  }

  ghost predicate PositiveSemidefinite(p: Mat)
    requires Square(p, |p|)
  {
    forall x: Vec {:trigger Quad(p, x)} :: |x| == |p| ==> Quad(p, x) >= 0.0
  }

  /** Row i of F P F', as the two nested loops compute it. */
  function CongruentRow(f: Mat, p: Mat, i: nat): (v: Vec)
    requires Square(f, |f|) && Square(p, |f|) && i < |f|
    ensures |v| == |f|
  {
    Right(f, Left(f[i], p))
  }

  function Congruence(f: Mat, p: Mat): (c: Mat)
    requires Square(f, |f|) && Square(p, |f|)
    ensures Square(c, |f|) && forall i :: 0 <= i < |f| ==> c[i] == CongruentRow(f, p, i)
  {
    seq(|f|, i requires 0 <= i < |f| => CongruentRow(f, p, i))
  }

  lemma CongruentRowDot(f: Mat, p: Mat, y: Vec, i: nat)
    requires Square(f, |f|) && Square(p, |f|) && |y| == |f| && i < |f|
    ensures Dot(CongruentRow(f, p, i), y) == Dot(f[i], Right(p, Left(y, f)))
  {
    var row, z := Left(f[i], p), Left(y, f);
    DotCommutes(Right(f, row), y);
    Adjoint(y, f, row);
    DotCommutes(z, row);
    Adjoint(f[i], p, z);
  }

  /** x' (F P F') x = (xF)' P (xF) */
  lemma CongruenceQuad(f: Mat, p: Mat, x: Vec)
    requires Square(f, |f|) && Square(p, |f|) && |x| == |f|
    ensures Quad(Congruence(f, p), x) == Quad(p, Left(x, f))
  {
    var c, w := Congruence(f, p), Right(p, Left(x, f));
    forall i | 0 <= i < |x| ensures Right(c, x)[i] == Right(f, w)[i] {
      CongruentRowDot(f, p, x, i);
    }
    assert Right(c, x) == Right(f, w);
    Adjoint(x, f, w);
  }

  lemma CongruenceKeepsPsd(f: Mat, p: Mat)
    requires Square(f, |f|) && Square(p, |f|) && PositiveSemidefinite(p)
    ensures PositiveSemidefinite(Congruence(f, p))
  {
    forall x: Vec | |x| == |f| ensures Quad(Congruence(f, p), x) >= 0.0 {
      CongruenceQuad(f, p, x);
    }
  }

  // ------------------------------------------------------- changes of a quadratic form

  /** q = p + u v' */
  ghost predicate OuterSum(q: Mat, p: Mat, u: Vec, v: Vec)
    requires Square(p, |u|) && Square(q, |u|) && |v| == |u|
  {
    forall i :: 0 <= i < |u| ==> Combines(q[i], p[i], u[i], v)
  }

  lemma OuterRows(q: Mat, p: Mat, u: Vec, v: Vec, x: Vec)
    requires Square(p, |x|) && Square(q, |x|) && |u| == |v| == |x| && OuterSum(q, p, u, v)
    ensures Combines(Right(q, x), Right(p, x), Dot(v, x), u)
  {
    forall i | 0 <= i < |x| ensures Right(q, x)[i] == Right(p, x)[i] + Dot(v, x) * u[i] {
      DotCombines(q[i], p[i], u[i], v, x);
    }
  }

  /** Adding u v' adds (v . x)(x . u). */
  lemma QuadOuter(q: Mat, p: Mat, u: Vec, v: Vec, x: Vec)
    requires Square(p, |x|) && Square(q, |x|) && |u| == |v| == |x| && OuterSum(q, p, u, v)
    ensures Quad(q, x) == Quad(p, x) + Dot(v, x) * Dot(x, u)
  {
    OuterRows(q, p, u, v, x);
    DotCombines(Right(q, x), Right(p, x), Dot(v, x), u, x);
    DotCommutes(x, Right(q, x));
    DotCommutes(x, Right(p, x));
    DotCommutes(x, u);
  }

  function AddDiagonal(p: Mat, d: Vec): (q: Mat)
    requires Square(p, |d|)
    ensures Square(q, |d|)
    ensures forall i, j :: 0 <= i < |d| && 0 <= j < |d| ==> q[i][j] == if i == j then p[i][j] + d[i] else p[i][j]
  {
    seq(|d|, i requires 0 <= i < |d| => p[i][i := p[i][i] + d[i]])
  }

  lemma {:induction false} SumAtOne(w: Vec, u: Vec, y: Vec, i: nat, k: nat)
    requires i < |w| && k <= |w| == |u| && k <= |y| && i < |y|
    requires forall j :: 0 <= j < |w| && j != i ==> w[j] == u[j]
    ensures Sum(w, y, k) == Sum(u, y, k) + if i < k then (w[i] - u[i]) * y[i] else 0.0
  {
    if k > 0 {
      SumAtOne(w, u, y, i, k - 1);
      assert (w[k - 1] - u[k - 1]) * y[k - 1] == w[k - 1] * y[k - 1] - u[k - 1] * y[k - 1];
    }
  }

  /** The sum of d[i] * x[i] * x[i] for i < k. */
  function Weight(d: Vec, x: Vec, k: nat): real
    requires k <= |d| && k <= |x|
  {
    if k == 0 then 0.0 else Weight(d, x, k - 1) + d[k - 1] * (x[k - 1] * x[k - 1])
  }

  lemma {:induction false} WeightNonnegative(d: Vec, x: Vec, k: nat)
    requires k <= |d| && k <= |x| && forall i :: 0 <= i < k ==> d[i] >= 0.0
    ensures Weight(d, x, k) >= 0.0
  {
    if k > 0 {
      WeightNonnegative(d, x, k - 1);
      WeighedSquare(d[k - 1], x[k - 1]);
    }
  }

  lemma WeighedSquare(d: real, x: real)
    requires d >= 0.0
    ensures d * (x * x) >= 0.0
  {
    SqrNonnegative(x);
  }

  lemma {:induction false} WeightedSquares(w: Vec, u: Vec, d: Vec, x: Vec, k: nat)
    requires |w| == |u| == |d| == |x| && k <= |x|
    requires forall i :: 0 <= i < |x| ==> w[i] == u[i] + d[i] * x[i]
    ensures Sum(x, w, k) == Sum(x, u, k) + Weight(d, x, k)
  {
    if k > 0 {
      WeightedSquares(w, u, d, x, k - 1);
      var a, b, c := x[k - 1], u[k - 1], d[k - 1];
      assert a * (b + c * a) == a * b + c * (a * a);
    }
  }

  lemma AddDiagonalRow(p: Mat, d: Vec, x: Vec, i: nat)
    requires Square(p, |d|) && |x| == |d| && i < |d|
    ensures Right(AddDiagonal(p, d), x)[i] == Right(p, x)[i] + d[i] * x[i]
  {
    var w := AddDiagonal(p, d)[i];
    SumAtOne(w, p[i], x, i, |x|);
    assert w[i] - p[i][i] == d[i];
  }

  /** What changing diagonal entries does to the form. */
  lemma AddDiagonalExact(p: Mat, d: Vec, x: Vec)
    requires Square(p, |d|) && |x| == |d|
    ensures Quad(AddDiagonal(p, d), x) == Quad(p, x) + Weight(d, x, |x|)
  {
    var q := AddDiagonal(p, d);
    forall i | 0 <= i < |x| ensures Right(q, x)[i] == Right(p, x)[i] + d[i] * x[i] {
      AddDiagonalRow(p, d, x, i);
    }
    WeightedSquares(Right(q, x), Right(p, x), d, x, |x|);
  }

  /** Raising diagonal entries raises the form everywhere. */
  lemma AddDiagonalQuad(p: Mat, d: Vec, x: Vec)
    requires Square(p, |d|) && |x| == |d| && forall i :: 0 <= i < |d| ==> d[i] >= 0.0
    ensures Quad(AddDiagonal(p, d), x) >= Quad(p, x)
  {
    AddDiagonalExact(p, d, x);
    WeightNonnegative(d, x, |x|);
  }

  function Symmetrized(p: Mat): (q: Mat)
    requires Square(p, |p|)
    ensures Square(q, |p|) && Symmetric(q)
    ensures forall i, j :: 0 <= i < |p| && 0 <= j < |p| ==> q[i][j] == 0.5 * (p[i][j] + p[j][i])
  {
    seq(|p|, i requires 0 <= i < |p| => seq(|p|, j requires 0 <= j < |p| => 0.5 * (p[i][j] + p[j][i])))
  }

  lemma {:induction false} SumMean(w: Vec, u: Vec, v: Vec, y: Vec, k: nat)
    requires k <= |w| && k <= |u| && k <= |v| && k <= |y|
    requires forall i :: 0 <= i < k ==> w[i] == 0.5 * (u[i] + v[i])
    ensures Sum(w, y, k) == 0.5 * (Sum(u, y, k) + Sum(v, y, k))
  {
    if k > 0 {
      SumMean(w, u, v, y, k - 1);
      var a, b, c := u[k - 1], v[k - 1], y[k - 1];
      assert 0.5 * (a + b) * c == 0.5 * (a * c + b * c);
    }
  }

  lemma SymmetrizedRow(p: Mat, x: Vec, i: nat)
    requires Square(p, |p|) && |x| == |p| && i < |x|
    ensures Right(Symmetrized(p), x)[i] == 0.5 * (Right(p, x)[i] + Left(x, p)[i])
  {
    SumMean(Symmetrized(p)[i], p[i], Col(p, i), x, |x|);
    DotCommutes(Col(p, i), x);
  }

  /** Taking the symmetric part does not change the form. */
  lemma SymmetrizedQuad(p: Mat, x: Vec)
    requires Square(p, |p|) && |x| == |p|
    ensures Quad(Symmetrized(p), x) == Quad(p, x)
  {
    var n, r, l, t := |x|, Right(p, x), Left(x, p), Right(Symmetrized(p), x);
    forall i | 0 <= i < n ensures t[i] == 0.5 * (r[i] + l[i]) {
      SymmetrizedRow(p, x, i);
    }
    SumMean(t, r, l, x, n);
    Adjoint(x, p, x);
    DotCommutes(x, t);
    DotCommutes(x, r);
  }

  // ------------------------------------------------------- unit vectors

  function Unit(n: nat, i: nat): (e: Vec)
    ensures |e| == n && forall j :: 0 <= j < n ==> e[j] == if j == i then 1.0 else 0.0
  {
    seq(n, j => if j == i then 1.0 else 0.0)
  }

  lemma {:induction false} SumUnit(n: nat, i: nat, v: Vec, k: nat)
    requires k <= n == |v| && i < n
    ensures Sum(Unit(n, i), v, k) == if i < k then v[i] else 0.0
  {
    if k > 0 {
      SumUnit(n, i, v, k - 1);
    }
  }

  lemma DotUnit(i: nat, v: Vec)
    requires i < |v|
    ensures Dot(Unit(|v|, i), v) == v[i]
  {
    SumUnit(|v|, i, v, |v|);
  }

  lemma DiagonalQuad(p: Mat, i: nat)
    requires Square(p, |p|) && i < |p|
    ensures Quad(p, Unit(|p|, i)) == p[i][i]
  {
    var e := Unit(|p|, i);
    DotUnit(i, Right(p, e));
    DotCommutes(p[i], e);
    DotUnit(i, p[i]);
  }

  lemma DiagonalNonnegative(p: Mat, i: nat)
    requires Square(p, |p|) && PositiveSemidefinite(p) && i < |p|
    ensures p[i][i] >= 0.0
  {
    DiagonalQuad(p, i);
    assert Quad(p, Unit(|p|, i)) >= 0.0;
  }
}
