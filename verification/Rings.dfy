/** Indices of circular buffers. */
module Rings {

  /** The slot `i` places after the head, wrapping around. */
  function Slot(head: nat, i: nat, size: nat): (pos: nat)
    requires head < size && i < size
    ensures pos < size && pos == (head + i) % size
  {
    if head + i < size then head + i
    else
      assert (head + i) % size == head + i - size;
      head + i - size
  }

  /** The next index. */
  function Next(i: nat, size: nat): (r: nat)
    requires i < size
    ensures r < size && r == (i + 1) % size
  {
    if i + 1 == size then 0 else i + 1
  }

  /** The index before. */
  function Previous(i: nat, size: nat): (r: nat)
    requires i < size
    ensures r < size && (r + 1 == i || (i == 0 && r + 1 == size))
  {
    if i == 0 then size - 1 else i - 1
  }

  /** Where the next element goes. */
  function Tail(head: nat, num: nat, size: nat): (r: nat)
    requires head < size && num <= size
    ensures r < size && r == (head + num) % size
  {
    if num == size then
      assert (head + num) % size == head;
      head
    else Slot(head, num, size)
  }

  /** The inverse of `Slot`. */
  function Offset(head: nat, pos: nat, size: nat): (i: nat)
    requires head < size && pos < size
    ensures i < size && Slot(head, i, size) == pos
  {
    if head <= pos then pos - head else pos + size - head
  }

  lemma SlotInjective(head: nat, i: nat, j: nat, size: nat)
    requires head < size && i < size && j < size && i != j
    ensures Slot(head, i, size) != Slot(head, j, size)
  {
  }

  /** One place further, seen from the next slot. */
  lemma SlotNext(head: nat, i: nat, size: nat)
    requires head < size && i + 1 < size
    ensures Slot(Slot(head, 1, size), i, size) == Slot(head, i + 1, size)
  {
  }

  /** The elements of a circular buffer, oldest first. */
  function Ring<T>(a: seq<T>, head: nat, num: nat): (q: seq<T>)
    requires head < |a| && num <= |a|
    ensures |q| == num
  {
    seq(num, i requires 0 <= i < num => a[Slot(head, i, |a|)])
  }

  lemma RingPush<T>(a: seq<T>, head: nat, num: nat, x: T)
    requires head < |a| && num < |a|
    ensures Ring(a[Tail(head, num, |a|) := x], head, num + 1) == Ring(a, head, num) + [x]
    ensures Tail(head, num + 1, |a|) == Next(Tail(head, num, |a|), |a|)
  {
    forall i | 0 <= i < num
      ensures Slot(head, i, |a|) != Tail(head, num, |a|)
    {
      SlotInjective(head, i, num, |a|);
    }
  }

  lemma RingPop<T>(a: seq<T>, head: nat, num: nat)
    requires head < |a| && 0 < num <= |a|
    ensures Ring(a, head, num)[0] == a[head]
    ensures Ring(a, Next(head, |a|), num - 1) == Ring(a, head, num)[1..]
    ensures Tail(Next(head, |a|), num - 1, |a|) == Tail(head, num, |a|)
  {
  }

  lemma RingDrop<T>(a: seq<T>, head: nat, num: nat)
    requires head < |a| && 0 < num <= |a|
    ensures Ring(a, head, num)[num - 1] == a[Previous(Tail(head, num, |a|), |a|)]
    ensures Ring(a, head, num - 1) == Ring(a, head, num)[..num - 1]
    ensures Tail(head, num - 1, |a|) == Previous(Tail(head, num, |a|), |a|)
  {
  }

  lemma RingSet<T>(a: seq<T>, head: nat, num: nat, i: nat, x: T)
    requires head < |a| && i < num <= |a|
    ensures Ring(a[Slot(head, i, |a|) := x], head, num) == Ring(a, head, num)[i := x]
  {
    forall j | 0 <= j < num && j != i
      ensures Slot(head, j, |a|) != Slot(head, i, |a|)
    {
      SlotInjective(head, j, i, |a|);
    }
  }

  /** A circular buffer with its head and tail indices and its count, as the queues of the pipeline. */
  class RingBuffer<T> {
    const slots: array<T>
    var head: nat
    var tail: nat
    var num: nat

    ghost predicate Valid()
      reads this
    {
      head < slots.Length && num <= slots.Length && tail == Tail(head, num, slots.Length)
    }

    ghost function Contents(): (q: seq<T>)
      requires Valid()
      reads this, slots
      ensures |q| == num
    {
      Ring(slots[..], head, num)
    }

    constructor (size: nat, init: T)
      requires 0 < size
      ensures Valid() && Contents() == [] && slots.Length == size && fresh(slots)
    {
      slots := new T[size](_ => init);
      head, tail, num := 0, 0, 0;
    }

    method Push(x: T)
      requires Valid() && num < slots.Length
      modifies this`tail, this`num, slots
      ensures Valid() && Contents() == old(Contents()) + [x]
    {
      RingPush(slots[..], head, num, x);
      ghost var was := slots[..];
      slots[tail] := x;
      assert slots[..] == was[tail := x];
      tail := Next(tail, slots.Length);
      num := num + 1;
    }

    function Get(i: nat): (x: T)
      requires Valid() && i < num
      reads this, slots
      ensures x == Contents()[i]
    {
      slots[Slot(head, i, slots.Length)]
    }

    method Set(i: nat, x: T)
      requires Valid() && i < num
      modifies slots
      ensures Valid() && Contents() == old(Contents())[i := x]
    {
      Put(Slot(head, i, slots.Length), x, i);
    }

    /** The element in slot `pos` is overwritten; it is `i` places after the head. */
    method Put(pos: nat, x: T, ghost i: nat)
      requires Valid() && i < num && pos == Slot(head, i, slots.Length)
      modifies slots
      ensures Valid() && Contents() == old(Contents())[i := x]
    {
      RingSet(slots[..], head, num, i, x);
      ghost var was := slots[..];
      slots[pos] := x;
      assert slots[..] == was[pos := x];
    }

    /** The oldest leaves. */
    method Pop() returns (x: T)
      requires Valid() && 0 < num
      modifies this`head, this`num
      ensures Valid() && x == old(Contents())[0] && Contents() == old(Contents())[1..]
    {
      RingPop(slots[..], head, num);
      x := slots[head];
      head := Next(head, slots.Length);
      num := num - 1;
    }

    /** The youngest leaves. */
    method Drop() returns (x: T)
      requires Valid() && 0 < num
      modifies this`tail, this`num
      ensures Valid() && x == old(Contents())[|old(Contents())| - 1]
      ensures Contents() == old(Contents())[..|old(Contents())| - 1]
    {
      RingDrop(slots[..], head, num);
      tail := Previous(tail, slots.Length);
      x := slots[tail];
      num := num - 1;
    }

    /** The youngest leave until `n` are left. */
    method Truncate(n: nat)
      requires Valid() && n <= num
      modifies this`tail, this`num
      ensures Valid() && Contents() == old(Contents())[..n]
    {
      while num > n
        invariant Valid() && n <= num <= old(num) && Contents() == old(Contents())[..num]
        decreases num
      {
        var x := Drop();
      }
    }
  }
}
