/** Real-number helpers of include/navbench/math.hpp, in exact arithmetic. */
module Reals {
  /** The 32-bit float nearest to pi. */
  const PI: real := 3.1415927410125732421875

  /** The library functions the sources call; only what a lemma states of them is used. */
  datatype Trig = Trig(sin: real -> real, cos: real -> real, atan2: (real, real) -> real, root: real -> real)

  ghost predicate PositiveRoots(t: Trig) {
    forall x: real :: x > 0.0 ==> t.root(x) > 0.0
  }

  ghost predicate ExactRoots(t: Trig) {
    forall x: real :: x >= 0.0 ==> t.root(x) >= 0.0 && Sqr(t.root(x)) == x
  }

  function Abs(x: real): real {
    if x < 0.0 then -x else x
  }

  function Times(a: real, b: real): real {
    a * b
  }

  function Sqr(x: real): real {
    Times(x, x)
  }

  function Clamp(value: real, lower: real, upper: real): real {
    if value < lower then lower else if value > upper then upper else value
  }

  /** The remainder of a division that truncates toward zero. */
  function Fmod(x: real, m: real): real
    requires m > 0.0
  {
    if x >= 0.0 then x - m * (x / m).Floor as real else x + m * (-x / m).Floor as real
  }

  function Normalize(angle: real): real {
    var r := Fmod(angle + PI, 2.0 * PI);
    (if r < 0.0 then r + 2.0 * PI else r) - PI
  }

  lemma QuotientFloor(y: real, m: real)
    requires m > 0.0 && y >= 0.0
    ensures 0.0 <= y - m * (y / m).Floor as real < m
  {
    var q := y / m;
    Bracket(y, m, q, q.Floor as real);
  }

  lemma Bracket(y: real, m: real, q: real, f: real)
    requires m > 0.0 && q == y / m && f <= q < f + 1.0
    ensures 0.0 <= y - m * f < m
  {
    assert y == q * m;
    Above(y, m, q, f);
    Below(y, m, q, f);
  }

  lemma Above(y: real, m: real, q: real, f: real)
    requires m > 0.0 && y == q * m && f <= q
    ensures 0.0 <= y - m * f
  {
    NonnegativeProduct(q - f, m);
    assert (q - f) * m == y - m * f;
  }

  lemma Below(y: real, m: real, q: real, f: real)
    requires m > 0.0 && y == q * m && q < f + 1.0
    ensures y - m * f < m
  {
    PositiveProduct(f + 1.0 - q, m);
    assert (f + 1.0 - q) * m == m * f + m - y;
  }

  lemma PositiveProduct(a: real, b: real)
    requires a > 0.0 && b > 0.0
    ensures a * b > 0.0
  {
  }

  lemma MultiplyOrder(a: real, b: real, m: real)
    requires a <= b && m >= 0.0
    ensures Times(m, a) <= Times(m, b)
  {
    NonnegativeProduct(m, b - a);
  }

  lemma SqrNonnegative(r: real)
    ensures Sqr(r) >= 0.0
  {
  }

  lemma TimesPositive(a: real, b: real)
    requires a > 0.0 && b > 0.0
    ensures Times(a, b) > 0.0
  {
  }

  lemma TimesNonnegative(a: real, b: real)
    requires a >= 0.0 && b >= 0.0
    ensures Times(a, b) >= 0.0
  {
  }

  lemma TimesCommutes(a: real, b: real)
    ensures Times(a, b) == Times(b, a)
  {
  }

  lemma TimesNegates(a: real, b: real)
    ensures Times(-a, b) == -Times(a, b) == Times(a, -b)
  {
  }

  lemma SqrPositive(r: real)
    requires r > 0.0
    ensures Sqr(r) > 0.0
  {
    TimesPositive(r, r);
  }

  lemma NonnegativeProduct(a: real, b: real)
    requires a >= 0.0 && b >= 0.0
    ensures a * b >= 0.0
  {
  }

  lemma FmodRange(x: real, m: real) returns (k: int)
    requires m > 0.0
    ensures x == Fmod(x, m) + m * k as real
    ensures if x >= 0.0 then 0.0 <= Fmod(x, m) < m else -m < Fmod(x, m) <= 0.0
  {
    if x >= 0.0 {
      k := (x / m).Floor;
      QuotientFloor(x, m);
    } else {
      k := -(-x / m).Floor;
      QuotientFloor(-x, m);
      assert m * k as real == -(m * (-x / m).Floor as real);
    }
  }

  /** Normalisation lands in [-pi, pi) and moves by whole turns. */
  lemma NormalizeTurns(angle: real) returns (turns: int)
    ensures -PI <= Normalize(angle) < PI
    ensures angle == Normalize(angle) + 2.0 * PI * turns as real
  {
    turns := FmodRange(angle + PI, 2.0 * PI);
    if Fmod(angle + PI, 2.0 * PI) < 0.0 {
      turns := turns - 1;
    }
  }

  /** k whole turns. */
  function Turns(k: int): real {
    2.0 * PI * k as real
  }

  lemma TurnsApart(j: int, i: int)
    ensures Turns(j - i) == Turns(j) - Turns(i)
  {
    assert (j - i) as real == j as real - i as real;
  }

  lemma TurnsSize(k: int)
    ensures k >= 1 ==> Turns(k) >= 2.0 * PI
    ensures k <= -1 ==> Turns(k) <= -2.0 * PI
  {
    assert k >= 1 ==> k as real >= 1.0;
    assert k <= -1 ==> k as real <= -1.0;
  }

  /** An angle in range is left alone. */
  lemma NormalizeFixed(angle: real)
    requires -PI <= angle < PI
    ensures Normalize(angle) == angle
  {
    var turns := NormalizeTurns(angle);
    TurnsSize(turns);
  }

  // ------------------------------------------------------- laws of the angle functions

  ghost predicate TurnLaw(t: Trig, a: real, k: int) {
    t.sin(a + Turns(k)) == t.sin(a) && t.cos(a + Turns(k)) == t.cos(a)
  }

  /** Sine and cosine do not see whole turns. */
  ghost predicate Periodic(t: Trig) {
    forall a: real, k: int :: TurnLaw(t, a, k)
  }

  ghost predicate DifferenceLaw(t: Trig, a: real, b: real) {
    && t.sin(a - b) == Times(t.sin(a), t.cos(b)) - Times(t.cos(a), t.sin(b))
    && t.cos(a - b) == Times(t.cos(a), t.cos(b)) + Times(t.sin(a), t.sin(b))
  }

  /** The sine and cosine of a difference. */
  ghost predicate Subtracts(t: Trig) {
    forall a: real, b: real :: DifferenceLaw(t, a, b)
  }

  /** The length of a vector. */
  function Length2(t: Trig, x: real, y: real): real {
    t.root(Sqr(x) + Sqr(y))
  }

  ghost predicate DirectionLaw(t: Trig, y: real, x: real) {
    && (Sqr(x) + Sqr(y) > 0.0 ==>
          Times(Length2(t, x, y), t.cos(t.atan2(y, x))) == x && Times(Length2(t, x, y), t.sin(t.atan2(y, x))) == y)
    && (x > 0.0 ==> (t.atan2(y, x) > 0.0 <==> y > 0.0) && (t.atan2(y, x) < 0.0 <==> y < 0.0))
  }

  /** atan2 gives the direction of a vector; its sign is that of y for a vector that points forward. */
  ghost predicate Directs(t: Trig) {
    forall y: real, x: real :: DirectionLaw(t, y, x)
  }

  lemma WholeTurns(t: Trig, a: real, k: int)
    requires Periodic(t)
    ensures t.sin(a - Turns(k)) == t.sin(a) && t.cos(a - Turns(k)) == t.cos(a)
  {
    assert TurnLaw(t, a - Turns(k), k);
    assert a - Turns(k) + Turns(k) == a;
  }

  lemma NormalizedDirection(t: Trig, a: real)
    requires Periodic(t)
    ensures t.sin(Normalize(a)) == t.sin(a) && t.cos(Normalize(a)) == t.cos(a)
  {
    var k := NormalizeTurns(a);
    WholeTurns(t, a, k);
    assert Normalize(a) == a - Turns(k);
  }
}
