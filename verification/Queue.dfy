/** FixedQueue of include/navbench/math.hpp: a ring buffer over a fixed array. */
module Queue {
  import opened Words

  class FixedQueue<T(0)> {
    const storage: array<T>
    var head: nat
    var tail: nat
    var size: nat
    var overflowCount: u32
    ghost var contents: seq<T>

    ghost predicate Valid()
      reads this, storage
    {
      && 0 < storage.Length && head < storage.Length && size <= storage.Length
      && tail == Slot(head, size, storage.Length)
      && |contents| == size
      && forall i :: 0 <= i < size ==> storage[Slot(head, i, storage.Length)] == contents[i]
    }

    constructor (capacity: nat)
      requires capacity > 0
      ensures Valid() && fresh(storage) && storage.Length == capacity && contents == [] && overflowCount == 0
    {
      storage := new T[capacity];
      head, tail, size, overflowCount, contents := 0, 0, 0, 0, [];
    }

    /** A full queue refuses the value and counts the overflow. */
    method Push(value: T) returns (ok: bool)
      requires Valid()
      modifies this, storage
      ensures Valid() && ok == (|old(contents)| < storage.Length)
      ensures contents == if ok then old(contents) + [value] else old(contents)
      ensures overflowCount == if ok then old(overflowCount) else Wrap(old(overflowCount) + 1)
    {
      if size == storage.Length {
        overflowCount := Wrap(overflowCount + 1);
        return false;
      }
      storage[tail] := value;
      RingModulo(tail + 1, storage.Length);
      tail := (tail + 1) % storage.Length;
      size := size + 1;
      contents := contents + [value];
      return true;
    }

    method Pop() returns (value: Option<T>)
      requires Valid()
      modifies this
      ensures Valid() && overflowCount == old(overflowCount)
      ensures old(contents) == [] ==> value == None && contents == []
      ensures old(contents) != [] ==> value == Some(old(contents)[0]) && contents == old(contents)[1..]
    {
      if size == 0 {
        return None;
      }
      value := Some(storage[head]);
      RingModulo(head + 1, storage.Length);
      head := (head + 1) % storage.Length;
      size := size - 1;
      contents := contents[1..];
    }

    method Peek() returns (value: Option<T>)
      requires Valid()
      ensures value == if contents == [] then None else Some(contents[0])
    {
      return if size == 0 then None else Some(storage[head]);
    }

    method Clear()
      requires Valid()
      modifies this
      ensures Valid() && contents == [] && overflowCount == old(overflowCount)
    {
      head, tail, size, contents := 0, 0, 0, [];
    }
  }

  /** Position of the i-th element of a ring that starts at `head`. */
  function Slot(head: nat, i: nat, capacity: nat): (k: nat)
    requires head < capacity && i <= capacity
    ensures k < capacity && k == (head + i) % capacity
  {
    RingModulo(head + i, capacity);
    if head + i < capacity then head + i else head + i - capacity
  }

  lemma RingModulo(x: nat, capacity: nat)
    requires x < 2 * capacity
    ensures x % capacity == if x < capacity then x else x - capacity
  {
    if x >= capacity {
      assert x == capacity * 1 + (x - capacity);
    }
  }
}
