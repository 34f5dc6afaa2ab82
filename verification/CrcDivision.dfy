/** The checksum of src/protocol.cpp is the remainder of a division: the message, shifted by sixteen bits and started
    from the initial register, modulo the polynomial x^16 + x^12 + x^5 + 1. */
module CrcDivision {
  import opened Crc
  import opened Words

  /** x^16 + x^12 + x^5 + 1, one bit for each power. */
  const GENERATOR: nat := 0x1_1021

  lemma GeneratorPowers()
    ensures GENERATOR == Power(16) + Power(12) + Power(5) + 1
  {
    Powers();
    assert Power(4) == 16 && Power(5) == 32 && Power(12) == 0x1000;
  }

  /** The product of the generator and the polynomial with the bits of q. */
  function Multiple(q: nat): nat {
    if q == 0 then 0 else Xor(2 * Multiple(q / 2), if q % 2 == 1 then GENERATOR else 0)
  }

  /** A message as a polynomial, the first bit highest. */
  function Value(data: seq<byte>): nat {
    if data == [] then 0 else 256 * Value(data[..|data| - 1]) + data[|data| - 1]
  }

  // ------------------------------------------------------- exclusive or and shifts

  lemma Exchange(a: nat, b: nat, c: nat, d: nat)
    ensures Xor(Xor(a, b), Xor(c, d)) == Xor(Xor(a, c), Xor(b, d))
  {
    XorAssociates(a, b, Xor(c, d));
    XorAssociates(b, c, d);
    XorCommutes(b, c);
    XorAssociates(c, b, d);
    XorAssociates(a, c, Xor(b, d));
  }

  lemma Swap(a: nat, b: nat, c: nat)
    ensures Xor(Xor(a, b), c) == Xor(Xor(a, c), b)
  {
    XorAssociates(a, b, c);
    XorCommutes(b, c);
    XorAssociates(a, c, b);
  }

  lemma {:induction false} ShiftXor(a: nat, b: nat, k: nat)
    ensures ShiftLeft(Xor(a, b), k) == Xor(ShiftLeft(a, k), ShiftLeft(b, k))
  {
    if k > 0 {
      ShiftXor(a, b, k - 1);
      XorDouble(ShiftLeft(a, k - 1), ShiftLeft(b, k - 1));
    }
  }

  lemma {:induction false} ShiftTwice(a: nat, j: nat, k: nat)
    ensures ShiftLeft(ShiftLeft(a, j), k) == ShiftLeft(a, j + k)
  {
    if k > 0 {
      ShiftTwice(a, j, k - 1);
    }
  }

  // ------------------------------------------------------- multiples

  lemma MultipleNext(q: nat, bit: nat)
    requires bit < 2
    ensures Multiple(2 * q + bit) == Xor(2 * Multiple(q), if bit == 1 then GENERATOR else 0)
  {
    if 2 * q + bit > 0 {
      assert (2 * q + bit) / 2 == q && (2 * q + bit) % 2 == bit;
    }
  }

  lemma {:induction false} MultipleXor(a: nat, b: nat)
    ensures Multiple(Xor(a, b)) == Xor(Multiple(a), Multiple(b))
    decreases a + b
  {
    if a > 0 && b > 0 {
      var g, h := if a % 2 == 1 then GENERATOR else 0, if b % 2 == 1 then GENERATOR else 0;
      MultipleXor(a / 2, b / 2);
      XorBits(a, b);
      MultipleNext(Xor(a / 2, b / 2), Differ(a % 2, b % 2));
      assert Xor(a, b) == 2 * Xor(a / 2, b / 2) + Differ(a % 2, b % 2);
      XorDouble(Multiple(a / 2), Multiple(b / 2));
      Exchange(2 * Multiple(a / 2), g, 2 * Multiple(b / 2), h);
      XorSelf(GENERATOR);
    }
  }

  lemma {:induction false} ShiftMultiple(q: nat, k: nat)
    ensures ShiftLeft(Multiple(q), k) == Multiple(ShiftLeft(q, k))
  {
    if k > 0 {
      ShiftMultiple(q, k - 1);
      MultipleNext(ShiftLeft(q, k - 1), 0);
      var m := 2 * Multiple(ShiftLeft(q, k - 1));
      assert Xor(m, 0) == m;
    }
  }

  // ------------------------------------------------------- the register

  lemma TopsCancel(y: nat, z: nat, k: nat)
    requires y < Power(k) && z < Power(k)
    ensures Xor(Power(k) + y, Power(k) + z) == Xor(y, z)
  {
    var p := Power(k);
    XorTopBit(0, y, k);
    XorTopBit(0, z, k);
    assert Xor(p, y) == p + y && Xor(p, z) == p + z;
    Exchange(p, y, p, z);
    XorSelf(p);
  }

  /** One shift multiplies by x and takes out the generator if the top bit fell out. */
  lemma BitStepDivides(crc: u16)
    ensures BitStep(crc) == Xor(2 * crc, Multiple(if crc >= 0x8000 then 1 else 0))
  {
    Powers();
    MultipleNext(0, 1);
    if crc >= 0x8000 {
      TopsCancel(2 * crc - 0x1_0000, POLYNOMIAL, 16);
      assert Multiple(1) == GENERATOR == Power(16) + POLYNOMIAL;
    }
  }

  lemma {:induction false} StepsDivide(crc: u16, n: nat) returns (q: nat)
    ensures Steps(crc, n) == Xor(ShiftLeft(crc, n), Multiple(q))
  {
    if n == 0 {
      q := 0;
    } else {
      var p := StepsDivide(crc, n - 1);
      q := StepDivides(Steps(crc, n - 1), ShiftLeft(crc, n - 1), p);
    }
  }

  lemma StepDivides(r: u16, a: nat, p: nat) returns (q: nat)
    requires r == Xor(a, Multiple(p))
    ensures BitStep(r) == Xor(2 * a, Multiple(q))
  {
    var top := if r >= 0x8000 then 1 else 0;
    q := 2 * p + top;
    BitStepDivides(r);
    XorDouble(a, Multiple(p));
    XorAssociates(2 * a, 2 * Multiple(p), Multiple(top));
    MultipleNext(p, top);
    MultipleNext(0, 1);
  }

  lemma ValueShift(v: nat, b: byte)
    ensures Xor(ShiftLeft(v, 24), ShiftLeft(b, 16)) == ShiftLeft(256 * v + b, 16)
  {
    Powers();
    EightShifts(v);
    XorDisjoint(v, b, 8);
    ShiftTwice(v, 8, 16);
    ShiftXor(ShiftLeft(v, 8), b, 16);
  }

  /** One byte of message. */
  lemma ByteDivides(r: u16, a: nat, v: nat, p: nat, b: byte) returns (q: nat)
    requires r == Xor(Xor(a, ShiftLeft(v, 16)), Multiple(p))
    ensures Steps(Feed(r, b), 8) == Xor(Xor(ShiftLeft(a, 8), ShiftLeft(256 * v + b, 16)), Multiple(q))
  {
    var c := ShiftLeft(p, 8);
    var d, e := ShiftLeft(b, 16), ShiftLeft(v, 24);
    var m := StepsDivide(Feed(r, b), 8);
    q := Xor(c, m);
    ShiftXor(r, 256 * b, 8);
    EightShifts(b);
    ShiftTwice(b, 8, 8);
    ShiftXor(Xor(a, ShiftLeft(v, 16)), Multiple(p), 8);
    ShiftXor(a, ShiftLeft(v, 16), 8);
    ShiftTwice(v, 16, 8);
    ShiftMultiple(p, 8);
    Swap(Xor(ShiftLeft(a, 8), e), Multiple(c), d);
    XorAssociates(ShiftLeft(a, 8), e, d);
    ValueShift(v, b);
    XorAssociates(Xor(ShiftLeft(a, 8), ShiftLeft(256 * v + b, 16)), Multiple(c), Multiple(m));
    MultipleXor(c, m);
  }

  lemma {:induction false} FoldDivides(crc: u16, data: seq<byte>) returns (q: nat)
    ensures Fold(crc, data) == Xor(Xor(ShiftLeft(crc, 8 * |data|), ShiftLeft(Value(data), 16)), Multiple(q))
  {
    if data == [] {
      q := 0;
      ShiftZero(16);
    } else {
      var init, last := data[..|data| - 1], data[|data| - 1];
      var p := FoldDivides(crc, init);
      q := ByteDivides(Fold(crc, init), ShiftLeft(crc, 8 * |init|), Value(init), p, last);
      LastByte(crc, data);
    }
  }

  lemma LastByte(crc: u16, data: seq<byte>)
    requires data != []
    ensures var init, last := data[..|data| - 1], data[|data| - 1];
            && Fold(crc, data) == Steps(Feed(Fold(crc, init), last), 8)
            && ShiftLeft(crc, 8 * |data|) == ShiftLeft(ShiftLeft(crc, 8 * |init|), 8)
            && Value(data) == 256 * Value(init) + last
  {
    ShiftTwice(crc, 8 * (|data| - 1), 8);
  }

  /** Main result: over the polynomials with coefficients modulo 2, the checksum is what the message followed by sixteen
      zero bits, with sixteen ones added to its front, leaves when a multiple of the generator is taken out. */
  lemma CrcIsRemainder(data: seq<byte>) returns (q: nat)
    ensures Crc16(data) == Xor(Xor(ShiftLeft(0xffff, 8 * |data|), ShiftLeft(Value(data), 16)), Multiple(q))
    ensures Crc16(data) < Power(16)
  {
    Powers();
    q := FoldDivides(0xffff, data);
  }

  lemma {:induction false} ShiftZero(k: nat)
    ensures ShiftLeft(0, k) == 0
  {
    if k > 0 {
      ShiftZero(k - 1);
    }
  }
}
