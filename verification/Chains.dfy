/** Singly linked chains spliced in place. */
module Chains {

  class Link<T> {
    var next: Link?<T>
    var data: T

    constructor (data: T)
      ensures this.data == data && next == null
    {
      this.data, next := data, null;
    }
  }

  /** `head` is the first of the distinct links `ls`, and each points to the next. */
  ghost predicate Linked<T>(head: Link?<T>, ls: seq<Link<T>>)
    reads ls`next
  {
    && head == At(ls, 0)
    && (forall i {:trigger ls[i].next} | 0 <= i < |ls| :: ls[i].next == At(ls, i + 1))
    && (forall i, j | 0 <= i < j < |ls| :: ls[i] != ls[j])
  }

  ghost function At<T>(ls: seq<Link<T>>, i: nat): Link?<T>
  {
    if i < |ls| then ls[i] else null
  }

  /** What the links hold. */
  ghost predicate Holds<T>(ls: seq<Link<T>>, xs: seq<T>)
    reads ls`data
  {
    |ls| == |xs| && forall i | 0 <= i < |ls| :: ls[i].data == xs[i]
  }

  ghost function Spliced<T>(s: seq<T>, i: nat, x: T): seq<T>
    requires i <= |s|
  {
    s[..i] + [x] + s[i..]
  }

  ghost function Without<T>(s: seq<T>, i: nat): seq<T>
    requires i < |s|
  {
    s[..i] + s[i + 1..]
  }

  /** `node` is inserted at place `i`, after `prev`, or first when there is no `prev`. */
  method Insert<T>(head: Link?<T>, prev: Link?<T>, node: Link<T>, ghost ls: seq<Link<T>>, ghost i: nat)
    returns (head': Link?<T>)
    requires Linked(head, ls) && i <= |ls| && node !in ls
    requires prev == if i == 0 then null else ls[i - 1]
    modifies ls`next, node`next
    ensures Linked(head', Spliced(ls, i, node))
  {
    if prev != null {
      node.next := prev.next;
      prev.next := node;
      head' := head;
    } else {
      node.next := head;
      head' := node;
    }
    ghost var t := Spliced(ls, i, node);
    forall k | 0 <= k < |t|
      ensures t[k].next == At(t, k + 1)
    {
      if k < i { assert t[k] == ls[k]; } else if k > i { assert t[k] == ls[k - 1]; }
    }
  }

  /** The link at place `i`, which follows `prev`, is taken out. */
  method Unlink<T>(head: Link?<T>, prev: Link?<T>, node: Link<T>, ghost ls: seq<Link<T>>, ghost i: nat)
    returns (head': Link?<T>)
    requires Linked(head, ls) && i < |ls| && node == ls[i]
    requires prev == if i == 0 then null else ls[i - 1]
    modifies ls`next
    ensures Linked(head', Without(ls, i)) && node !in Without(ls, i)
  {
    if prev != null {
      prev.next := node.next;
      head' := head;
    } else {
      head' := node.next;
    }
    ghost var t := Without(ls, i);
    forall k | 0 <= k < |t|
      ensures t[k].next == At(t, k + 1)
    {
      if k < i { assert t[k] == ls[k]; } else { assert t[k] == ls[k + 1]; }
    }
  }

  /** `node` is put in front. */
  method Push<T>(head: Link?<T>, node: Link<T>, ghost ls: seq<Link<T>>) returns (head': Link?<T>)
    requires Linked(head, ls) && node !in ls
    modifies node`next
    ensures Linked(head', [node] + ls)
  {
    node.next := head;
    head' := node;
    ghost var t := [node] + ls;
    forall k | 0 <= k < |t|
      ensures t[k].next == At(t, k + 1)
    {
      if k > 0 { assert t[k] == ls[k - 1]; }
    }
  }

  lemma HoldsSpliced<T>(ls: seq<Link<T>>, xs: seq<T>, i: nat, node: Link<T>)
    requires Holds(ls, xs) && i <= |ls|
    ensures Holds(Spliced(ls, i, node), Spliced(xs, i, node.data))
  {
  }

  lemma HoldsWithout<T>(ls: seq<Link<T>>, xs: seq<T>, i: nat)
    requires Holds(ls, xs) && i < |ls|
    ensures Holds(Without(ls, i), Without(xs, i))
  {
  }

  lemma LinkedTail<T>(head: Link?<T>, ls: seq<Link<T>>)
    requires Linked(head, ls) && ls != []
    ensures Linked(ls[0].next, ls[1..])
  {
    forall k | 0 <= k < |ls| - 1
      ensures ls[1..][k].next == At(ls[1..], k + 1)
    {
      assert ls[1..][k] == ls[k + 1];
    }
  }

  ghost predicate Apart<T>(ls: seq<Link<T>>, fs: seq<Link<T>>)
  {
    forall l | l in ls :: l !in fs
  }

  lemma ApartEach<T>(ls: seq<Link<T>>, fs: seq<Link<T>>)
    requires Apart(ls, fs)
    ensures forall i, j | 0 <= i < |ls| && 0 <= j < |fs| :: ls[i] != fs[j]
    ensures forall j | 0 <= j < |fs| :: fs[j] in fs
  {
    forall i, j | 0 <= i < |ls| && 0 <= j < |fs| ensures ls[i] != fs[j] {
      assert ls[i] in ls;
    }
  }

  /** A list and the free list that its links come from and return to. */
  class LinkedList<T> {
    var head: Link?<T>
    var free: Link?<T>
    /** What the list holds, its links, and the free links. */
    ghost var items: seq<T>
    ghost var ls: seq<Link<T>>
    ghost var fs: seq<Link<T>>

    ghost predicate Valid()
      reads this, ls, fs
    {
      Linked(head, ls) && Holds(ls, items) && Linked(free, fs) && Apart(ls, fs)
    }

    constructor ()
      ensures Valid() && items == [] && ls == [] && fs == []
    {
      head, free, items, ls, fs := null, null, [], [], [];
    }

    /** A link for `x` comes from the free list, or is new when there is none. */
    method Take(x: T) returns (node: Link<T>)
      requires Valid()
      modifies this`free, this`fs, fs`data
      ensures Valid() && node !in ls && node !in fs && node.data == x && (node in old(fs) || fresh(node))
      ensures fs == if old(fs) == [] then [] else old(fs)[1..]
    {
      if free == null {
        node := new Link(x);
      } else {
        node := free;
        ApartEach(ls, fs);
        LinkedTail(free, fs);
        free := node.next;
        fs := fs[1..];
        node.data := x;
      }
    }

    /** A link that is in neither list becomes free. */
    method Release(node: Link<T>)
      requires Valid() && node !in ls && node !in fs
      modifies this`free, this`fs, node`next
      ensures Valid() && fs == [node] + old(fs)
    {
      free := Push(free, node, fs);
      fs := [node] + fs;
    }

    /** The link is spliced in at place `i`. */
    method LinkIn(prev: Link?<T>, ghost i: nat, node: Link<T>)
      requires Valid() && node !in ls && node !in fs && i <= |ls| && prev == if i == 0 then null else ls[i - 1]
      modifies this`head, this`ls, this`items, ls`next, node`next
      ensures Valid() && ls == Spliced(old(ls), i, node) && items == Spliced(old(items), i, node.data)
    {
      ApartEach(ls, fs);
      HoldsSpliced(ls, items, i, node);
      head := Insert(head, prev, node, ls, i);
      ls, items := Spliced(ls, i, node), Spliced(items, i, node.data);
    }

    /** The link at place `i` is spliced out. */
    method TakeOut(prev: Link?<T>, ghost i: nat, node: Link<T>)
      requires Valid() && i < |ls| && node == ls[i] && prev == if i == 0 then null else ls[i - 1]
      modifies this`head, this`ls, this`items, ls`next
      ensures Valid() && node !in ls && node !in fs
      ensures ls == Without(old(ls), i) && items == Without(old(items), i)
    {
      ApartEach(ls, fs);
      HoldsWithout(ls, items, i);
      head := Unlink(head, prev, node, ls, i);
      ls, items := Without(ls, i), Without(items, i);
    }

    /** It is spliced out and becomes free. */
    method LinkOut(prev: Link?<T>, ghost i: nat, node: Link<T>)
      requires Valid() && i < |ls| && node == ls[i] && prev == if i == 0 then null else ls[i - 1]
      modifies this, ls`next
      ensures Valid() && ls == Without(old(ls), i) && fs == [node] + old(fs) && items == Without(old(items), i)
    {
      TakeOut(prev, i, node);
      Release(node);
    }

    /** The first link becomes free. */
    method FreeFirst()
      requires Valid() && ls != []
      modifies this, ls`next
      ensures Valid() && ls == old(ls)[1..] && items == old(items)[1..] && |fs| == |old(fs)| + 1
    {
      LinkOut(null, 0, head);
    }
  }
}
