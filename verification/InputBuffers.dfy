/** The input buffer of a router (`noc_request`, `flit_arrive`, `packet_depart`,
    `update_ingress_head`): a circular array of packet pointers that is searched from the head for
    the first free slot.  It is the queue of module `Mesh`.  */
module InputBuffers {
  import opened Mesh
  import opened Rings

  class InputBuffer {
    const slots: array<Option<Packet>>
    var head: nat
    var num: nat

    /** The occupied slots are the `num` slots from the head on. */
    ghost predicate Valid()
      reads this, slots
    {
      && 0 < slots.Length && head < slots.Length && num <= slots.Length
      && forall i | 0 <= i < slots.Length :: slots[Slot(head, i, slots.Length)].Some? <==> i < num
    }

    ghost function Contents(): (q: seq<Packet>)
      requires Valid()
      reads this, slots
      ensures |q| == num
    {
      seq(num, (i: nat) requires Valid() && i < num reads this, slots => slots[Slot(head, i, slots.Length)].value)
    }

    constructor (size: nat)
      requires 0 < size
      ensures Valid() && Contents() == [] && slots.Length == size && fresh(slots)
    {
      slots := new Option<Packet>[size](_ => None);
      head, num := 0, 0;
    }

    /** The search for the first free slot, shared by `noc_request` and `flit_arrive`. */
    method Place(p: Packet)
      requires Valid() && num < slots.Length
      modifies this`num, slots
      ensures Valid() && head == old(head)
      ensures Contents() == old(Contents()) + [p]
    {
      var size := slots.Length;
      var i := 0;
      var pos := head;
      while i < size
        invariant i <= num && pos == Slot(head, i, size)
        invariant num == old(num)
        invariant forall k | 0 <= k < size :: slots[k] == old(slots[k])
      {
        pos := (head + i) % size;
        assert pos == Slot(head, i, size);
        if slots[pos].None? {
          break;
        }
        i := i + 1;
        if i < size {
          pos := Slot(head, i, size);
        }
      }
      assert i == num;
      slots[pos] := Some(p);
      num := num + 1;
      forall j | 0 <= j < size
        ensures slots[Slot(head, j, size)] == if j == i then Some(p) else old(slots[Slot(head, j, size)])
      {
        if j != i { SlotInjective(head, j, i, size); }
      }
    }

    /** `noc_request`: a full local input refuses the packet. */
    method NocRequest(p: Packet) returns (taken: bool)
      requires Valid()
      modifies this`num, slots
      ensures Valid()
      ensures taken <==> |old(Contents())| < slots.Length
      ensures Contents() == if taken then old(Contents()) + [p] else old(Contents())
    {
      if num >= slots.Length {
        return false;
      }
      Place(p);
      taken := true;
    }

    /** `packet_depart` for the granted packet, the one at the head, with the search of
        `update_ingress_head` for the next packet. */
    method Depart() returns (p: Packet)
      requires Valid() && num > 0
      modifies this, slots
      ensures Valid()
      ensures p == old(Contents())[0] && Contents() == old(Contents())[1..]
    {
      var size := slots.Length;
      assert Slot(head, 0, size) == head;
      p := slots[head].value;
      slots[head] := None;
      num := num - 1;
      ghost var h := head;
      forall j | 0 < j < size
        ensures slots[Slot(h, j, size)] == old(slots[Slot(h, j, size)])
      {
        SlotInjective(h, j, 0, size);
      }
      var i := 0;
      while i < size
        invariant head == h && num == old(num) - 1 && i <= size
        invariant i <= 1 || num == 0
        invariant forall k | 0 <= k < size :: slots[k] == if k == h then None else old(slots[k])
      {
        var pos := (head + i) % size;
        assert pos == Slot(h, i, size);
        if slots[pos].Some? {
          head := pos;
          break;
        }
        i := i + 1;
      }
      if num > 0 {
        assert i == 1 && head == Slot(h, 1, size);
        forall j | 0 <= j < size
          ensures slots[Slot(head, j, size)].Some? <==> j < num
          ensures j < num ==> slots[Slot(head, j, size)] == old(slots[Slot(h, j + 1, size)])
        {
          if j + 1 < size {
            SlotNext(h, j, size);
          } else {
            assert Slot(head, j, size) == h;
          }
        }
      } else {
        assert Contents() == [];
      }
    }
  }

  /** The round robin of `arbitrate` for one output: the first requesting input after the one
      granted last, if any. */
  method GrantInput(req: seq<bool>, last: nat) returns (j: Option<nat>)
    requires |req| == 5
    ensures j == RoundRobin(req, last, 1)
  {
    j := None;
    var i := 1;
    while i <= 5
      invariant 1 <= i <= 6
      invariant RoundRobin(req, last, i) == RoundRobin(req, last, 1)
    {
      if req[(last + i) % 5] {
        return Some((last + i) % 5);
      }
      i := i + 1;
    }
  }
}
