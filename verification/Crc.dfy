/** CRC-16/CCITT-FALSE, shifted bit by bit as in src/protocol.cpp, and what it detects. */
module Crc {
  import opened Words

  const POLYNOMIAL: u16 := 0x1021
  const INITIAL: u16 := 0xffff

  function Differ(x: int, y: int): nat { if x == y then 0 else 1 }

  /** Bitwise exclusive or. */
  function Xor(a: nat, b: nat): nat
    decreases a + b
  {
    if a == 0 then b
    else if b == 0 then a
    else 2 * Xor(a / 2, b / 2) + Differ(a % 2, b % 2)
  }

  function Power(k: nat): nat {
    if k == 0 then 1 else 2 * Power(k - 1)
  }

  function ShiftLeft(a: nat, k: nat): nat {
    if k == 0 then a else 2 * ShiftLeft(a, k - 1)
  }

  // ------------------------------------------------------- exclusive or

  lemma {:induction false} XorBits(a: nat, b: nat)
    ensures Xor(a, b) / 2 == Xor(a / 2, b / 2) && Xor(a, b) % 2 == Differ(a % 2, b % 2)
  {
  }

  lemma {:induction false} XorCommutes(a: nat, b: nat)
    ensures Xor(a, b) == Xor(b, a)
    decreases a + b
  {
    if a > 0 && b > 0 {
      XorCommutes(a / 2, b / 2);
    }
  }

  lemma {:induction false} XorAssociates(a: nat, b: nat, c: nat)
    ensures Xor(Xor(a, b), c) == Xor(a, Xor(b, c))
    decreases a + b + c
  {
    if a > 0 && b > 0 && c > 0 {
      var x, y := Xor(Xor(a, b), c), Xor(a, Xor(b, c));
      assert x / 2 == y / 2 && x % 2 == y % 2 by {
        XorBits(a, b);
        XorBits(b, c);
        XorBits(Xor(a, b), c);
        XorBits(a, Xor(b, c));
        XorAssociates(a / 2, b / 2, c / 2);
      }
    }
  }

  lemma {:induction false} XorSelf(a: nat)
    ensures Xor(a, a) == 0
  {
    if a > 0 {
      XorSelf(a / 2);
    }
  }

  lemma XorCancels(s: nat, a: nat, b: nat)
    requires Xor(s, a) == Xor(s, b)
    ensures a == b
  {
    XorAssociates(s, s, a);
    XorAssociates(s, s, b);
    XorSelf(s);
  }

  lemma {:induction false} XorBelow(a: nat, b: nat, k: nat)
    requires a < Power(k) && b < Power(k)
    ensures Xor(a, b) < Power(k)
  {
    if k > 0 {
      XorBits(a, b);
      XorBelow(a / 2, b / 2, k - 1);
    }
  }

  /** Exclusive or does not carry: low bits meet high bits by addition. */
  lemma {:induction false} XorDisjoint(a: nat, low: nat, k: nat)
    requires low < Power(k)
    ensures Xor(ShiftLeft(a, k), low) == ShiftLeft(a, k) + low
  {
    if k > 0 {
      XorBits(ShiftLeft(a, k), low);
      XorDisjoint(a, low / 2, k - 1);
    }
  }

  lemma {:induction false} XorTopBit(y: nat, z: nat, k: nat)
    requires y < Power(k) && z < Power(k)
    ensures Xor(Power(k) + y, z) == Power(k) + Xor(y, z)
  {
    if k == 0 {
    } else {
      var a, b := Xor(Power(k) + y, z), Power(k) + Xor(y, z);
      assert a / 2 == b / 2 && a % 2 == b % 2 by {
        assert (Power(k) + y) / 2 == Power(k - 1) + y / 2 && (Power(k) + y) % 2 == y % 2;
        XorBits(Power(k) + y, z);
        XorBits(y, z);
        XorTopBit(y / 2, z / 2, k - 1);
      }
    }
  }

  lemma Powers()
    ensures Power(8) == 0x100 && Power(15) == 0x8000 && Power(16) == 0x1_0000
  {
    assert Power(4) == 16;
    assert Power(8) == 0x100;
    assert Power(12) == 0x1000;
  }

  // ------------------------------------------------------- the register

  /** One shift of the register: the bit that falls out selects the polynomial. */
  function BitStep(crc: u16): u16 {
    if crc >= 0x8000 then
      XorWithPolynomial(2 * crc - 0x1_0000);
      Xor(2 * crc - 0x1_0000, POLYNOMIAL)
    else
      2 * crc
  }

  lemma XorWithPolynomial(x: u16)
    ensures Xor(x, POLYNOMIAL) < 0x1_0000
  {
    Powers();
    XorBelow(x, POLYNOMIAL, 16);
  }

  function Steps(crc: u16, n: nat): u16 {
    if n == 0 then crc else BitStep(Steps(crc, n - 1))
  }

  /** The byte enters at the top of the register. */
  function Feed(crc: u16, value: byte): u16 {
    Powers();
    XorBelow(crc, 256 * value, 16);
    Xor(crc, 256 * value)
  }

  function Fold(crc: u16, data: seq<byte>): u16 {
    if data == [] then crc
    else Steps(Feed(Fold(crc, data[..|data| - 1]), data[|data| - 1]), 8)
  }

  function Crc16(data: seq<byte>): u16 {
    Fold(INITIAL, data)
  }

  method Crc16Ccitt(data: seq<byte>) returns (crc: u16)
    ensures crc == Crc16(data)
  {
    crc := INITIAL;
    for index := 0 to |data|
      invariant crc == Fold(INITIAL, data[..index])
    {
      assert data[..index + 1][..index] == data[..index];
      crc := Feed(crc, data[index]);
      ghost var start := crc;
      for bit := 0 to 8
        invariant crc == Steps(start, bit)
      {
        crc := BitStep(crc);
      }
    }
    assert data[..|data|] == data;
  }

  /** The polynomial is odd, so the bit that fell out can be read back. */
  lemma BitStepParity(x: u16)
    ensures BitStep(x) % 2 == (if x >= 0x8000 then 1 else 0)
  {
    if x >= 0x8000 {
      XorBits(2 * x - 0x1_0000, POLYNOMIAL);
    }
  }

  lemma BitStepInjective(x: u16, y: u16)
    requires BitStep(x) == BitStep(y)
    ensures x == y
  {
    BitStepParity(x);
    BitStepParity(y);
    if x >= 0x8000 {
      XorCommutes(2 * x - 0x1_0000, POLYNOMIAL);
      XorCommutes(2 * y - 0x1_0000, POLYNOMIAL);
      XorCancels(POLYNOMIAL, 2 * x - 0x1_0000, 2 * y - 0x1_0000);
    }
  }

  lemma {:induction false} StepsInjective(x: u16, y: u16, n: nat)
    requires Steps(x, n) == Steps(y, n)
    ensures x == y
  {
    if n > 0 {
      BitStepInjective(Steps(x, n - 1), Steps(y, n - 1));
      StepsInjective(x, y, n - 1);
    }
  }

  lemma XorDouble(a: nat, b: nat)
    ensures Xor(2 * a, 2 * b) == 2 * Xor(a, b)
  {
    XorBits(2 * a, 2 * b);
    assert 2 * a / 2 == a && 2 * b / 2 == b;
    assert 2 * a % 2 == 0 && 2 * b % 2 == 0;
  }

  lemma TopBitSurvives(x: u16, z: nat)
    requires z < 0x8000
    ensures Xor(x, z) < 0x1_0000
    ensures x < 0x8000 ==> Xor(x, z) < 0x8000
    ensures x >= 0x8000 ==> Xor(x - 0x8000, z) < 0x8000 && Xor(x, z) == 0x8000 + Xor(x - 0x8000, z)
  {
    Powers();
    XorBelow(x, z, 16);
    if x < 0x8000 {
      XorBelow(x, z, 15);
    } else {
      XorBelow(x - 0x8000, z, 15);
      XorTopBit(x - 0x8000, z, 15);
    }
  }

  /** Bits below the top just travel along with the register. */
  lemma BitStepCarriesLow(x: u16, z: nat)
    requires z < 0x8000
    ensures Xor(x, z) < 0x1_0000 && Xor(2 * z, BitStep(x)) == BitStep(Xor(x, z))
  {
    TopBitSurvives(x, z);
    if x < 0x8000 {
      XorDouble(x, z);
      XorCommutes(2 * z, 2 * x);
    } else {
      var y := x - 0x8000;
      XorDouble(y, z);
      XorCommutes(2 * z, 2 * y);
      XorAssociates(2 * z, 2 * y, POLYNOMIAL);
      assert BitStep(x) == Xor(2 * y, POLYNOMIAL);
      assert BitStep(Xor(x, z)) == Xor(2 * Xor(y, z), POLYNOMIAL);
    }
  }

  lemma {:induction false} StepsCarryLow(x: u16, z: nat, n: nat)
    requires n <= 8 && z < 0x100
    ensures Xor(x, z) < 0x1_0000
    ensures ShiftLeft(z, n) < 0x100 * Power(n) && Xor(ShiftLeft(z, n), Steps(x, n)) == Steps(Xor(x, z), n)
  {
    Powers();
    XorBelow(x, z, 16);
    if n == 0 {
      XorCommutes(x, z);
    } else {
      StepsCarryLow(x, z, n - 1);
      PowerMonotone(n - 1, 7);
      XorCommutes(Steps(x, n - 1), ShiftLeft(z, n - 1));
      BitStepCarriesLow(Steps(x, n - 1), ShiftLeft(z, n - 1));
    }
  }

  lemma {:induction false} PowerMonotone(k: nat, m: nat)
    requires k <= m
    ensures Power(k) <= Power(m)
  {
    if k < m {
      PowerMonotone(k, m - 1);
    }
  }

  /** From one common register, two different byte pairs never meet again. */
  lemma TwoBytesInjective(s: u16, a: byte, b: byte, c: byte, d: byte)
    requires Steps(Feed(Steps(Feed(s, a), 8), b), 8) == Steps(Feed(Steps(Feed(s, c), 8), d), 8)
    ensures a == c && b == d
  {
    StepsInjective(Feed(Steps(Feed(s, a), 8), b), Feed(Steps(Feed(s, c), 8), d), 8);
    EarlyLowByte(s, a, b);
    EarlyLowByte(s, c, d);
    StepsInjective(Xor(s, 256 * a + b), Xor(s, 256 * c + d), 8);
    XorCancels(s, 256 * a + b, 256 * c + d);
  }

  /** Feeding a and then b is the same as putting both into the register at once. */
  lemma EarlyLowByte(s: u16, a: byte, b: byte)
    ensures Xor(s, 256 * a + b) < 0x1_0000
    ensures Feed(Steps(Feed(s, a), 8), b) == Steps(Xor(s, 256 * a + b), 8)
  {
    Powers();
    EightShifts(a);
    EightShifts(b);
    XorDisjoint(a, b, 8);
    XorAssociates(s, 256 * a, b);
    StepsCarryLow(Feed(s, a), b, 8);
    XorCommutes(Steps(Feed(s, a), 8), 256 * b);
  }

  lemma EightShifts(a: nat)
    ensures ShiftLeft(a, 8) == 256 * a
  {
    assert ShiftLeft(a, 1) == 2 * a && ShiftLeft(a, 2) == 4 * a;
    assert ShiftLeft(a, 3) == 8 * a && ShiftLeft(a, 4) == 16 * a;
    assert ShiftLeft(a, 5) == 32 * a && ShiftLeft(a, 6) == 64 * a;
    assert ShiftLeft(a, 7) == 128 * a;
  }

  lemma FoldLast(crc: u16, data: seq<byte>, last: byte)
    ensures Fold(crc, data + [last]) == Steps(Feed(Fold(crc, data), last), 8)
  {
    assert (data + [last])[..|data|] == data;
  }

  lemma {:induction false} FoldSuffixInjective(p: seq<byte>, q: seq<byte>, suffix: seq<byte>)
    requires Crc16(p + suffix) == Crc16(q + suffix)
    ensures Crc16(p) == Crc16(q)
  {
    if suffix == [] {
      assert p + suffix == p && q + suffix == q;
    } else {
      var init, last := suffix[..|suffix| - 1], suffix[|suffix| - 1];
      assert p + suffix == (p + init) + [last] && q + suffix == (q + init) + [last];
      FoldLast(INITIAL, p + init, last);
      FoldLast(INITIAL, q + init, last);
      StepsInjective(Feed(Crc16(p + init), last), Feed(Crc16(q + init), last), 8);
      FeedInjective(Crc16(p + init), Crc16(q + init), last);
      FoldSuffixInjective(p, q, init);
    }
  }

  lemma FeedInjective(x: u16, y: u16, value: byte)
    requires Feed(x, value) == Feed(y, value)
    ensures x == y
  {
    XorCommutes(x, 256 * value);
    XorCommutes(y, 256 * value);
    XorCancels(256 * value, x, y);
  }

  /** Main result: an error confined to two adjacent bytes always changes the checksum,
      wherever it is and however long the message. */
  lemma AdjacentByteErrorsDetected(prefix: seq<byte>, a: byte, b: byte, c: byte, d: byte, suffix: seq<byte>)
    requires a != c || b != d
    ensures Crc16(prefix + [a, b] + suffix) != Crc16(prefix + [c, d] + suffix)
  {
    if Crc16(prefix + [a, b] + suffix) == Crc16(prefix + [c, d] + suffix) {
      FoldSuffixInjective(prefix + [a, b], prefix + [c, d], suffix);
      assert prefix + [a, b] == (prefix + [a]) + [b] && prefix + [c, d] == (prefix + [c]) + [d];
      FoldLast(INITIAL, prefix + [a], b);
      FoldLast(INITIAL, prefix + [c], d);
      FoldLast(INITIAL, prefix, a);
      FoldLast(INITIAL, prefix, c);
      TwoBytesInjective(Crc16(prefix), a, b, c, d);
    }
  }
}
