/** The nested matrix loops of src/ekf.cpp over two-dimensional arrays, each proved to compute its product. */
module MatrixLoops {
  import opened Covariance
  import opened Kalman
  import opened KalmanPair
  import opened LinearAlgebra

  /** The array stores the matrix. */
  ghost predicate Holds(a: array2<real>, m: Mat)
    reads a
  {
    && a.Length0 == a.Length1 == |m| && Square(m, |m|)
    && forall i, j :: 0 <= i < |m| && 0 <= j < |m| ==> a[i, j] == m[i][j]
  }

  /** A y, row by row. */
  method TimesVector(p: array2<real>, y: Vec, ghost pm: Mat) returns (v: array<real>)
    requires Holds(p, pm) && |y| == |pm|
    ensures fresh(v) && v[..] == Right(pm, y)
  {
    var n := |y|;
    v := new real[n](_ => 0.0);
    for row := 0 to n
      invariant v.Length == n
      invariant forall i :: 0 <= i < row ==> v[i] == Dot(pm[i], y)
      invariant forall i :: row <= i < n ==> v[i] == 0.0
    {
      for column := 0 to n
        invariant forall i :: 0 <= i < row ==> v[i] == Dot(pm[i], y)
        invariant forall i :: row < i < n ==> v[i] == 0.0
        invariant v[row] == Sum(pm[row], y, column)
      {
        v[row] := v[row] + p[row, column] * y[column];
      }
    }
    assert forall i :: 0 <= i < n ==> v[..][i] == Right(pm, y)[i];
  }

  /** start + x . y */
  method PlusDot(start: real, x: Vec, y: array<real>) returns (sum: real)
    requires |x| == y.Length
    ensures sum == start + Dot(x, y[..])
  {
    sum := start;
    for i := 0 to |x|
      invariant sum == start + Sum(x, y[..], i)
    {
      sum := sum + x[i] * y[i];
    }
  }

  /** The first product, A P. */
  method LeftProduct(a: array2<real>, p: array2<real>, ghost am: Mat, ghost pm: Mat) returns (u: array2<real>)
    requires Holds(a, am) && Holds(p, pm) && |am| == |pm|
    ensures fresh(u) && u.Length0 == u.Length1 == |am|
    ensures forall i, j :: 0 <= i < |am| && 0 <= j < |am| ==> u[i, j] == Left(am[i], pm)[j]
  {
    var n := a.Length0;
    u := new real[n, n];
    for row := 0 to n
      invariant forall i, j :: 0 <= i < row && 0 <= j < n ==> u[i, j] == Left(am[i], pm)[j]
    {
      for column := 0 to n
        invariant forall i, j :: 0 <= i < row && 0 <= j < n ==> u[i, j] == Left(am[i], pm)[j]
        invariant forall j :: 0 <= j < column ==> u[row, j] == Left(am[row], pm)[j]
      {
        var sum := 0.0;
        for inner := 0 to n
          invariant sum == Sum(am[row], Col(pm, column), inner)
        {
          sum := sum + a[row, inner] * p[inner, column];
        }
        u[row, column] := sum;
      }
    }
  }

  /** The second product, (A P) A'. */
  method RightProduct(u: array2<real>, a: array2<real>, ghost um: Mat, ghost am: Mat) returns (c: array2<real>)
    requires Holds(u, um) && Holds(a, am) && |um| == |am|
    ensures fresh(c) && c.Length0 == c.Length1 == |am|
    ensures forall i, j :: 0 <= i < |am| && 0 <= j < |am| ==> c[i, j] == Dot(am[j], um[i])
  {
    var n := a.Length0;
    c := new real[n, n];
    for row := 0 to n
      invariant forall i, j :: 0 <= i < row && 0 <= j < n ==> c[i, j] == Dot(am[j], um[i])
    {
      for column := 0 to n
        invariant forall i, j :: 0 <= i < row && 0 <= j < n ==> c[i, j] == Dot(am[j], um[i])
        invariant forall j :: 0 <= j < column ==> c[row, j] == Dot(am[j], um[row])
      {
        var sum := 0.0;
        for inner := 0 to n
          invariant sum == Sum(am[column], um[row], inner)
        {
          sum := sum + u[row, inner] * a[column, inner];
        }
        c[row, column] := sum;
      }
    }
  }

  /** Both products: A P A'. */
  method Transform(a: array2<real>, p: array2<real>, ghost am: Mat, ghost pm: Mat) returns (c: array2<real>)
    requires Holds(a, am) && Holds(p, pm) && |am| == |pm|
    ensures fresh(c) && Holds(c, Congruence(am, pm))
  {
    var u := LeftProduct(a, p, am, pm);
    ghost var um := seq(|am|, i requires 0 <= i < |am| => Left(am[i], pm));
    c := RightProduct(u, a, um, am);
  }

  method ResidualMatrix(k: array<real>, h: Vec) returns (a: array2<real>)
    requires k.Length == |h|
    ensures fresh(a) && Holds(a, Residual(k[..], h))
  {
    var n := |h|;
    a := new real[n, n];
    for row := 0 to n
      invariant forall i, j :: 0 <= i < row && 0 <= j < n ==> a[i, j] == Residual(k[..], h)[i][j]
    {
      for column := 0 to n
        invariant forall i, j :: 0 <= i < row && 0 <= j < n ==> a[i, j] == Residual(k[..], h)[i][j]
        invariant forall j :: 0 <= j < column ==> a[row, j] == Residual(k[..], h)[row][j]
      {
        a[row, column] := (if row == column then 1.0 else 0.0) - k[row] * h[column];
      }
    }
  }

  method PairResidualMatrix(k0: array<real>, k1: array<real>, h0: Vec, h1: Vec) returns (a: array2<real>)
    requires k0.Length == k1.Length == |h0| == |h1|
    ensures fresh(a) && Holds(a, PairResidual(k0[..], k1[..], h0, h1))
  {
    var n := |h0|;
    a := new real[n, n];
    for row := 0 to n
      invariant forall i, j :: 0 <= i < row && 0 <= j < n ==> a[i, j] == PairResidual(k0[..], k1[..], h0, h1)[i][j]
    {
      for column := 0 to n
        invariant forall i, j :: 0 <= i < row && 0 <= j < n ==> a[i, j] == PairResidual(k0[..], k1[..], h0, h1)[i][j]
        invariant forall j :: 0 <= j < column ==> a[row, j] == PairResidual(k0[..], k1[..], h0, h1)[row][j]
      {
        var gain := k0[row] * h0[column] + k1[row] * h1[column];
        a[row, column] := (if row == column then 1.0 else 0.0) - gain;
      }
    }
  }

  /** Adds r k k'. */
  method AddNoise(c: array2<real>, k: array<real>, r: real)
    requires c.Length0 == c.Length1 == k.Length
    modifies c
    ensures forall i, j :: 0 <= i < k.Length && 0 <= j < k.Length ==> c[i, j] == old(c[i, j]) + Noise(k[i], r, k[j])
  {
    var n := k.Length;
    for row := 0 to n
      invariant forall i, j :: 0 <= i < row && 0 <= j < n ==> c[i, j] == old(c[i, j]) + Noise(k[i], r, k[j])
      invariant forall i, j :: row <= i < n && 0 <= j < n ==> c[i, j] == old(c[i, j])
    {
      AddNoiseRow(c, k, r, row);
    }
  }

  method AddNoiseRow(c: array2<real>, k: array<real>, r: real, row: nat)
    requires c.Length0 == c.Length1 == k.Length && row < k.Length
    modifies c
    ensures forall j :: 0 <= j < k.Length ==> c[row, j] == old(c[row, j]) + Noise(k[row], r, k[j])
    ensures forall i, j :: 0 <= i < k.Length && 0 <= j < k.Length && i != row ==> c[i, j] == old(c[i, j])
  {
    for column := 0 to k.Length
      invariant forall j :: 0 <= j < column ==> c[row, j] == old(c[row, j]) + Noise(k[row], r, k[j])
      invariant forall j :: column <= j < k.Length ==> c[row, j] == old(c[row, j])
      invariant forall i, j :: 0 <= i < k.Length && 0 <= j < k.Length && i != row ==> c[i, j] == old(c[i, j])
    {
      var term := k[row] * r * k[column];
      assert term == Noise(k[row], r, k[column]);
      c[row, column] := c[row, column] + term;
    }
  }

  method AddToDiagonal(c: array2<real>, d: Vec, ghost m: Mat)
    requires Holds(c, m) && |d| == |m|
    modifies c
    ensures Holds(c, AddDiagonal(m, d))
  {
    for row := 0 to |d|
      invariant forall i, j :: 0 <= i < |d| && 0 <= j < |d| ==>
                  c[i, j] == if i == j && i < row then m[i][j] + d[i] else m[i][j]
    {
      c[row, row] := c[row, row] + d[row];
    }
  }

  method CopyVector(target: array<real>, source: array<real>)
    requires target.Length == source.Length && target != source
    modifies target
    ensures target[..] == source[..]
  {
    for i := 0 to source.Length
      invariant forall j :: 0 <= j < i ==> target[j] == source[j]
    {
      target[i] := source[i];
    }
  }

  method FillVector(target: array<real>, v: Vec)
    requires target.Length == |v|
    modifies target
    ensures target[..] == v
  {
    forall i | 0 <= i < |v| {
      target[i] := v[i];
    }
  }

  method FillMatrix(target: array2<real>, m: Mat)
    requires target.Length0 == target.Length1 == |m| && Square(m, |m|)
    modifies target
    ensures Holds(target, m)
  {
    forall i, j | 0 <= i < |m| && 0 <= j < |m| {
      target[i, j] := m[i][j];
    }
  }

  method CopyMatrix(target: array2<real>, source: array2<real>, ghost m: Mat)
    requires target.Length0 == target.Length1 == |m| && Holds(source, m) && target != source
    modifies target
    ensures Holds(target, m)
  {
    forall i, j | 0 <= i < target.Length0 && 0 <= j < target.Length0 {
      target[i, j] := source[i, j];
    }
  }

  /** What the health pass has done to entry (i, j) once rows below `row` and, in that row, the columns
      below `column` are behind it. */
  function Passed(m: Mat, floor: real, row: nat, column: nat, i: nat, j: nat): real
    requires Square(m, |m|) && i < |m| && j < |m|
  {
    var low, high := if i < j then i else j, if i < j then j else i;
    if low < row then (if i == j && m[i][i] < floor then floor else 0.5 * (m[i][j] + m[j][i]))
    else if low == row && high < column then 0.5 * (m[i][j] + m[j][i])
    else m[i][j]
  }

  ghost predicate PassedTo(c: array2<real>, m: Mat, floor: real, row: nat, column: nat)
    requires Square(m, |m|)
    reads c
  {
    c.Length0 == c.Length1 == |m| &&
    forall i, j :: 0 <= i < |m| && 0 <= j < |m| ==> c[i, j] == Passed(m, floor, row, column, i, j)
  }

  /** The loops of enforce_covariance_health: success exactly if the diagonal fits, leaving the enforced
      covariance. */
  method EnforceHealth(c: array2<real>, floor: real, maximum: real, ghost m: Mat) returns (ok: bool)
    requires Holds(c, m)
    modifies c
    ensures ok == DiagonalFits(m, floor, maximum)
    ensures ok ==> Holds(c, Enforced(m, floor))
  {
    var n := c.Length0;
    for row := 0 to n
      invariant PassedTo(c, m, floor, row, row)
      invariant forall i :: 0 <= i < row ==> -floor <= m[i][i] <= maximum
    {
      SymmetrizeRow(c, row, floor, m);
      if c[row, row] < -floor || c[row, row] > maximum {
        return false;
      }
      if c[row, row] < floor {
        c[row, row] := floor;
      }
    }
    forall i, j | 0 <= i < |m| && 0 <= j < |m| ensures c[i, j] == Enforced(m, floor)[i][j] {
      EnforcedEntry(m, floor, i, j);
    }
    return true;
  }

  /** The inner loop: one row and the column of the same number. */
  method SymmetrizeRow(c: array2<real>, row: nat, ghost floor: real, ghost m: Mat)
    requires Square(m, |m|) && row < |m| && PassedTo(c, m, floor, row, row)
    modifies c
    ensures PassedTo(c, m, floor, row, |m|)
  {
    for column := row to c.Length0
      invariant PassedTo(c, m, floor, row, column)
    {
      var symmetric := 0.5 * (c[row, column] + c[column, row]);
      c[row, column], c[column, row] := symmetric, symmetric;
    }
  }

  method GainVector(g: array<real>, s: real) returns (k: array<real>)
    requires s != 0.0
    ensures fresh(k) && k[..] == Gain(g[..], s)
  {
    k := new real[g.Length];
    for i := 0 to g.Length
      invariant forall j :: 0 <= j < i ==> k[j] == g[j] / s
    {
      k[i] := g[i] / s;
    }
  }

  /** The covariance loops of scalar_update. */
  method JosephUpdate(p: array2<real>, k: array<real>, h: Vec, r: real, ghost pm: Mat) returns (u: array2<real>)
    requires Holds(p, pm) && k.Length == |h| == |pm|
    ensures fresh(u) && Holds(u, Joseph(pm, k[..], h, r))
  {
    var a := ResidualMatrix(k, h);
    u := Transform(a, p, Residual(k[..], h), pm);
    AddNoise(u, k, r);
  }

  /** invert_symmetric_2x2: the inverse by the reciprocal of the determinant, refused at or below the minimum. */
  method InvertSymmetric(m00: real, m01: real, m10: real, m11: real, minimum: real) returns (ok: bool, inverse: Inverse)
    requires minimum >= 0.0
    ensures ok == (m00 * m11 - m01 * m10 > minimum)
    ensures ok && m10 == m01 ==>
              Determinant(Innovation(m00, m01, m11)) > 0.0 && inverse == InverseOf(Innovation(m00, m01, m11))
    ensures ok ==> m00 * inverse.i00 + m01 * inverse.i10 == 1.0 && m00 * inverse.i01 + m01 * inverse.i11 == 0.0
    ensures ok ==> m10 * inverse.i00 + m11 * inverse.i10 == 0.0 && m10 * inverse.i01 + m11 * inverse.i11 == 1.0
  {
    var determinant := m00 * m11 - m01 * m10;
    if determinant <= minimum {
      return false, Inverse(0.0, 0.0, 0.0, 0.0);
    }
    var reciprocal := 1.0 / determinant;
    InverseWorks(m00, m01, m10, m11, determinant, reciprocal);
    return true, Inverse(m11 * reciprocal, -m01 * reciprocal, -m10 * reciprocal, m00 * reciprocal);
  }

  lemma InverseWorks(a: real, b: real, c: real, d: real, determinant: real, r: real)
    requires determinant == a * d - b * c && r * determinant == 1.0
    ensures a * (d * r) + b * (-c * r) == 1.0 && a * (-b * r) + b * (a * r) == 0.0
    ensures c * (d * r) + d * (-c * r) == 0.0 && c * (-b * r) + d * (a * r) == 1.0
  {
    assert r * determinant == a * (d * r) + b * (-c * r);
  }

  /** One column of the gain. */
  method BlendVectors(t: real, u: array<real>, c: real, v: array<real>) returns (w: array<real>)
    requires u.Length == v.Length
    ensures fresh(w) && w[..] == Blend(t, u[..], c, v[..])
  {
    w := new real[u.Length];
    for i := 0 to u.Length
      invariant forall j :: 0 <= j < i ==> w[j] == Blend(t, u[..], c, v[..])[j]
    {
      var entry := t * u[i] + c * v[i];
      assert entry == t * u[..][i] + c * v[..][i];
      w[i] := entry;
    }
  }

  /** The covariance loops of vector2_update. */
  method PairJosephUpdate(p: array2<real>, k0: array<real>, k1: array<real>, h0: Vec, h1: Vec, r0: real, r1: real,
                          ghost pm: Mat) returns (u: array2<real>)
    requires Holds(p, pm) && k0.Length == k1.Length == |h0| == |h1| == |pm|
    ensures fresh(u) && Holds(u, PairJoseph(pm, k0[..], k1[..], h0, h1, r0, r1))
  {
    var a := PairResidualMatrix(k0, k1, h0, h1);
    u := Transform(a, p, PairResidual(k0[..], k1[..], h0, h1), pm);
    AddNoise(u, k0, r0);
    AddNoise(u, k1, r1);
  }
}
