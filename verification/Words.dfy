/** Fixed-width unsigned arithmetic as the C++ sources use it: bytes, 16-bit and
    32-bit words, wrap-around subtraction and saturating counters. */
module Words {
  type byte = x: int | 0 <= x < 0x100
  type u16 = x: int | 0 <= x < 0x1_0000
  type u32 = x: int | 0 <= x < 0x1_0000_0000

  const TWO32: int := 0x1_0000_0000
  const HALF32: int := 0x8000_0000
  const MAX32: u32 := 0xffff_ffff

  datatype Option<+T> = None | Some(value: T)
  datatype Result<+T, +E> = Ok(value: T) | Err(error: E)

  /** The 32-bit word that holds an unbounded counter or clock. */
  function Wrap(x: int): u32 {
    x % TWO32
  }

  /** Unsigned 32-bit subtraction, `a - b` in C++. */
  function Sub32(a: u32, b: u32): u32 {
    (a - b) % TWO32
  }

  /** The value a saturating 32-bit counter shows after n increments. */
  function Saturate(n: nat): u32 {
    if n < TWO32 then n else MAX32
  }

  function SaturatingAdd(value: u32, increment: u32): u32 {
    if increment > MAX32 - value then MAX32 else value + increment
  }

  /** A saturating counter is the saturation of the unbounded one. */
  lemma SaturatingAddIsSaturate(a: nat, b: nat)
    ensures SaturatingAdd(Saturate(a), Saturate(b)) == Saturate(a + b)
  {
  }

  /** Wrapped subtraction recovers the true distance while it stays below 2^32. */
  lemma Elapsed(now: int, since: int)
    requires 0 <= now - since < TWO32
    ensures Sub32(Wrap(now), Wrap(since)) == now - since
  {
  }

  /** Wrapped subtraction of clocks less than 2^31 apart tells which is ahead, and by how much. */
  lemma Difference(a: int, b: int)
    requires -HALF32 < a - b < HALF32
    ensures Sub32(Wrap(a), Wrap(b)) == if a >= b then a - b else a - b + TWO32
    ensures Wrap(a) == Wrap(b) <==> a == b
  {
    if a >= b {
      Elapsed(a, b);
    } else {
      Elapsed(a + TWO32, b);
      assert Wrap(a + TWO32) == Wrap(a);
    }
  }

  /** Wrapped subtraction of a slightly later clock shows as a huge distance. */
  lemma NotYet(now: int, deadline: int)
    requires 0 < deadline - now <= HALF32
    ensures Sub32(Wrap(now), Wrap(deadline)) >= HALF32
  {
  }

  lemma WrapShift(a: int, b: int, d: int)
    requires Wrap(a) == Wrap(b)
    ensures Wrap(a + d) == Wrap(b + d)
  {
    var k := (a - b) / TWO32;
    assert a - b == k * TWO32;
  }

  /** Moving an unbounded counter by the wrapped distance lands on the target word. */
  lemma Catches(x: int, w: u32)
    ensures Wrap(x + Sub32(w, Wrap(x))) == w
  {
    WrapShift(x, Wrap(x), Sub32(w, Wrap(x)));
  }
}
