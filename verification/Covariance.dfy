/** The covariance health pass of src/ekf.cpp: symmetrise, check the diagonal, raise it to the floor. */
module Covariance {
  import opened LinearAlgebra

  /** What the diagonal check accepts. */
  predicate DiagonalFits(p: Mat, floor: real, maximum: real)
    requires Square(p, |p|)
  {
    forall i :: 0 <= i < |p| ==> -floor <= p[i][i] <= maximum
  }

  function Lift(p: Mat, floor: real): (d: Vec)
    requires Square(p, |p|)
    ensures |d| == |p| && forall i :: 0 <= i < |p| ==> d[i] == if p[i][i] < floor then floor - p[i][i] else 0.0
  {
    seq(|p|, i requires 0 <= i < |p| => if p[i][i] < floor then floor - p[i][i] else 0.0)
  }

  function Floored(p: Mat, floor: real): (q: Mat)
    requires Square(p, |p|)
    ensures Square(q, |p|)
  {
    AddDiagonal(p, Lift(p, floor))
  }

  /** The covariance the pass leaves. */
  function Enforced(p: Mat, floor: real): (q: Mat)
    requires Square(p, |p|)
    ensures Square(q, |p|)
  {
    Floored(Symmetrized(p), floor)
  }

  /** A covariance the filter may work on. */
  ghost predicate Healthy(p: Mat, floor: real, maximum: real)
    requires Square(p, |p|)
  {
    Symmetric(p) && PositiveSemidefinite(p) && forall i :: 0 <= i < |p| ==> floor <= p[i][i] <= maximum
  }

  lemma FlooredEntry(p: Mat, floor: real, i: nat, j: nat)
    requires Square(p, |p|) && i < |p| && j < |p|
    ensures Floored(p, floor)[i][j] == if i == j && p[i][i] < floor then floor else p[i][j]
  {
  }

  lemma EnforcedEntry(p: Mat, floor: real, i: nat, j: nat)
    requires Square(p, |p|) && i < |p| && j < |p|
    ensures Enforced(p, floor)[i][j] == if i == j && p[i][i] < floor then floor else 0.5 * (p[i][j] + p[j][i])
  {
    FlooredEntry(Symmetrized(p), floor, i, j);
  }

  lemma FlooredPsd(p: Mat, floor: real)
    requires Square(p, |p|) && PositiveSemidefinite(p)
    ensures PositiveSemidefinite(Floored(p, floor))
  {
    var d, q := Lift(p, floor), Floored(p, floor);
    forall x: Vec | |x| == |q| ensures Quad(q, x) >= 0.0 {
      AddDiagonalQuad(p, d, x);
      assert Quad(p, x) >= 0.0;
    }
  }

  lemma SymmetrizedPsd(p: Mat)
    requires Square(p, |p|) && PositiveSemidefinite(p)
    ensures PositiveSemidefinite(Symmetrized(p))
  {
    forall x: Vec | |x| == |p| ensures Quad(Symmetrized(p), x) >= 0.0 {
      SymmetrizedQuad(p, x);
    }
  }

  lemma EnforcedPsd(p: Mat, floor: real)
    requires Square(p, |p|) && PositiveSemidefinite(p)
    ensures PositiveSemidefinite(Enforced(p, floor))
  {
    SymmetrizedPsd(p);
    FlooredPsd(Symmetrized(p), floor);
  }

  lemma EnforcedSymmetric(p: Mat, floor: real)
    requires Square(p, |p|)
    ensures Symmetric(Enforced(p, floor))
  {
    var q := Enforced(p, floor);
    forall i, j | 0 <= i < |q| && 0 <= j < |q| ensures q[i][j] == q[j][i] {
      EnforcedEntry(p, floor, i, j);
      EnforcedEntry(p, floor, j, i);
    }
  }

  lemma DiagonalsNonnegative(p: Mat)
    requires Square(p, |p|) && PositiveSemidefinite(p)
    ensures forall i :: 0 <= i < |p| ==> p[i][i] >= 0.0
  {
    forall i | 0 <= i < |p| ensures p[i][i] >= 0.0 {
      DiagonalNonnegative(p, i);
    }
  }

  /** Main result: on a positive semidefinite matrix the pass fails only above the maximum, and otherwise
      leaves a healthy covariance. */
  lemma EnforcedHealthy(p: Mat, floor: real, maximum: real)
    requires Square(p, |p|) && PositiveSemidefinite(p) && 0.0 < floor < maximum
    ensures DiagonalFits(p, floor, maximum) <==> forall i :: 0 <= i < |p| ==> p[i][i] <= maximum
    ensures DiagonalFits(p, floor, maximum) ==> Healthy(Enforced(p, floor), floor, maximum)
  {
    DiagonalsNonnegative(p);
    EnforcedPsd(p, floor);
    EnforcedSymmetric(p, floor);
    if DiagonalFits(p, floor, maximum) {
      forall i | 0 <= i < |p| ensures floor <= Enforced(p, floor)[i][i] <= maximum {
        EnforcedEntry(p, floor, i, i);
      }
    }
  }

  /** An update that lowers every variance of a healthy covariance passes the check. */
  lemma LoweredFits(p: Mat, q: Mat, floor: real, maximum: real)
    requires Square(p, |p|) && Square(q, |p|) && Healthy(p, floor, maximum) && PositiveSemidefinite(q) && floor > 0.0
    requires forall i :: 0 <= i < |p| ==> Quad(q, Unit(|p|, i)) <= Quad(p, Unit(|p|, i))
    ensures DiagonalFits(q, floor, maximum)
  {
    DiagonalsNonnegative(q);
    forall i | 0 <= i < |p| ensures -floor <= q[i][i] <= maximum {
      DiagonalQuad(p, i);
      DiagonalQuad(q, i);
    }
  }
}
