/** A fixed number of links shared by many lists and one free list (`rslink_init`, `RSLINK_NEW`,
    `RSLINK_FREE`, `RSLINK_FREE_LIST`): every link is in exactly one list, or free. */
module LinkPools {
  import opened Chains

  function Lengths<T>(s: seq<seq<T>>): nat
  {
    if s == [] then 0 else Lengths(s[..|s| - 1]) + |s[|s| - 1]|
  }

  lemma {:induction false} LengthsUpdate<T>(s: seq<seq<T>>, k: nat, t: seq<T>)
    requires k < |s|
    ensures Lengths(s[k := t]) == Lengths(s) - |s[k]| + |t|
  {
    var n := |s| - 1;
    if k < n {
      LengthsUpdate(s[..n], k, t);
      assert s[k := t][..n] == s[..n][k := t];
    } else {
      assert s[k := t][..n] == s[..n];
    }
  }

  lemma SuffixStep<T>(s: seq<seq<T>>, k: nat, i: nat)
    requires k < |s| && i < |s[k]|
    ensures var t := s[k := s[k][i..]];
            t[k][0] == s[k][i] && t[k := t[k][1..]] == s[k := s[k][i + 1..]]
  {
    assert s[k][i..][1..] == s[k][i + 1..];
  }

  /** All of `ls` belong to list `k`. */
  ghost predicate Owned<T>(owner: map<Link<T>, int>, ls: seq<Link<T>>, k: int)
  {
    forall i | 0 <= i < |ls| :: ls[i] in owner && owner[ls[i]] == k
  }

  lemma OwnedSpliced<T>(owner: map<Link<T>, int>, ls: seq<Link<T>>, k: int, i: nat, node: Link<T>)
    requires Owned(owner, ls, k) && i <= |ls|
    ensures Owned(owner[node := k], Spliced(ls, i, node), k)
  {
  }

  lemma OwnedWithout<T>(owner: map<Link<T>, int>, ls: seq<Link<T>>, k: int, i: nat, m: int)
    requires Owned(owner, ls, k) && i < |ls| && forall j | 0 <= j < |ls| && j != i :: ls[j] != ls[i]
    ensures Owned(owner[ls[i] := m], Without(ls, i), k)
  {
  }

  class LinkPool<T> {
    const heads: array<Link?<T>>
    var free: Link?<T>
    ghost const links: set<Link<T>>
    ghost var lists: seq<seq<Link<T>>>
    ghost var items: seq<seq<T>>
    ghost var fs: seq<Link<T>>
    ghost var owner: map<Link<T>, int>

    /** List `k` is well formed and its links are its own. */
    ghost predicate ListOk(k: nat)
      requires k < |lists| == |items| == heads.Length && owner.Keys == links
      reads this, heads, links
    {
      && Owned(owner, lists[k], k)
      && Linked(heads[k], lists[k]) && Holds(lists[k], items[k])
    }

    ghost predicate FreeOk()
      requires owner.Keys == links
      reads this, links
    {
      && Owned(owner, fs, -1)
      && Linked(free, fs)
    }

    ghost predicate Valid()
      reads this, heads, links
    {
      && |lists| == |items| == heads.Length && owner.Keys == links
      && (forall k | 0 <= k < |lists| :: ListOk(k))
      && FreeOk()
      && Lengths(lists) + |fs| == |links|
    }

    ghost predicate Shape()
      reads this
    {
      |lists| == |items| == heads.Length && owner.Keys == links
    }

    /** No link is in two places. */
    lemma NoSharing()
      requires Valid()
      ensures forall k, i, m, j | 0 <= k < |lists| && 0 <= i < |lists[k]| && 0 <= m < |lists| && 0 <= j < |lists[m]| ::
                lists[k][i] == lists[m][j] ==> k == m && i == j
      ensures forall k, i, j | 0 <= k < |lists| && 0 <= i < |lists[k]| && 0 <= j < |fs| :: lists[k][i] != fs[j]
    {
      forall k, i, m, j | 0 <= k < |lists| && 0 <= i < |lists[k]| && 0 <= m < |lists| && 0 <= j < |lists[m]|
        && lists[k][i] == lists[m][j]
        ensures k == m && i == j
      {
        assert ListOk(k) && ListOk(m);
      }
      forall k, i, j | 0 <= k < |lists| && 0 <= i < |lists[k]| && 0 <= j < |fs|
        ensures lists[k][i] != fs[j]
      {
        assert ListOk(k);
      }
    }

    /** A list that keeps its head, its links and what they hold stays well formed. */
    twostate lemma Untouched(m: nat)
      requires old(Shape()) && m < old(|lists|) && old(ListOk(m)) && Shape() && m < |lists|
      requires lists[m] == old(lists[m]) && items[m] == old(items[m]) && heads[m] == old(heads[m])
      requires forall i | 0 <= i < |lists[m]| ::
                 && lists[m][i].next == old(lists[m][i].next) && lists[m][i].data == old(lists[m][i].data)
                 && owner[lists[m][i]] == old(owner[lists[m][i]])
      ensures ListOk(m)
    {
    }

    /** Only links of list `k`, or of none, have changed: the other lists stay well formed. */
    twostate lemma OthersUntouched(k: nat)
      requires old(Shape()) && Shape() && |lists| == old(|lists|) && old(forall m | 0 <= m < |lists| :: ListOk(m))
      requires forall m | 0 <= m < |lists| && m != k ::
                 lists[m] == old(lists[m]) && items[m] == old(items[m]) && heads[m] == old(heads[m])
      requires forall l | l in links && old(owner[l]) != k && old(owner[l]) != -2 ::
                 l.next == old(l.next) && l.data == old(l.data) && owner[l] == old(owner[l])
      ensures forall m | 0 <= m < |lists| && m != k :: ListOk(m)
    {
      forall m | 0 <= m < |lists| && m != k
        ensures ListOk(m)
      {
        assert old(ListOk(m));
        Untouched(m);
      }
    }

    ghost predicate Places(k: nat, prev: Link?<T>, i: nat)
      reads this
    {
      k < |lists| && i <= |lists[k]| && prev == if i == 0 then null else lists[k][i - 1]
    }

    /** A link leaves the free list; it belongs to no list for now. */
    method TakeFree(x: T) returns (node: Link<T>)
      requires Valid() && fs != []
      modifies this`free, this`fs, this`owner, fs`data
      ensures Shape() && FreeOk() && node == old(fs)[0] && fs == old(fs)[1..] && node in links && owner[node] == -2
      ensures node.data == x && forall m | 0 <= m < |lists| :: ListOk(m)
    {
      node := free;
      LinkedTail(free, fs);
      assert node == fs[0];
      free := node.next;
      node.data := x;
      owner := owner[node := -2];
      fs := fs[1..];
      forall m | 0 <= m < |lists|
        ensures ListOk(m)
      {
        assert old(ListOk(m));
        Untouched(m);
      }
    }

    /** A link that belongs to no list is spliced into list `k` at place `i`. */
    method SpliceIn(k: nat, prev: Link?<T>, ghost i: nat, node: Link<T>)
      requires Shape() && FreeOk() && (forall m | 0 <= m < |lists| :: ListOk(m))
      requires Places(k, prev, i) && node in links && owner[node] == -2
      modifies this`lists, this`items, this`owner, heads, lists[k]`next, node`next
      ensures Shape() && FreeOk() && forall m | 0 <= m < |lists| :: ListOk(m)
      ensures lists == old(lists)[k := Spliced(old(lists)[k], i, node)] && |old(items)[k]| == |old(lists)[k]|
      ensures items == old(items)[k := Spliced(old(items)[k], i, node.data)]
    {
      assert ListOk(k);
      HoldsSpliced(lists[k], items[k], i, node);
      OwnedSpliced(owner, lists[k], k, i, node);
      var h := Insert(heads[k], prev, node, lists[k], i);
      heads[k] := h;
      owner := owner[node := k];
      items := items[k := Spliced(items[k], i, node.data)];
      lists := lists[k := Spliced(lists[k], i, node)];
      OthersUntouched(k);
      assert ListOk(k);
    }

    /** The link at place `i` of list `k` is spliced out; it belongs to no list for now. */
    method SpliceOut(k: nat, prev: Link?<T>, ghost i: nat, node: Link<T>)
      requires Shape() && FreeOk() && (forall m | 0 <= m < |lists| :: ListOk(m))
      requires Places(k, prev, i) && i < |lists[k]| && node == lists[k][i]
      modifies this`lists, this`items, this`owner, heads, lists[k]`next
      ensures Shape() && FreeOk() && (forall m | 0 <= m < |lists| :: ListOk(m))
      ensures node in links && owner[node] == -2
      ensures |old(items)[k]| == |old(lists)[k]|
      ensures lists == old(lists)[k := Without(old(lists)[k], i)]
      ensures items == old(items)[k := Without(old(items)[k], i)]
    {
      assert ListOk(k);
      HoldsWithout(lists[k], items[k], i);
      OwnedWithout(owner, lists[k], k, i, -2);
      var h := Unlink(heads[k], prev, node, lists[k], i);
      heads[k] := h;
      owner := owner[node := -2];
      items := items[k := Without(items[k], i)];
      lists := lists[k := Without(lists[k], i)];
      OthersUntouched(k);
      assert ListOk(k);
    }

    /** A link that belongs to no list becomes free. */
    method PutFree(node: Link<T>)
      requires Shape() && FreeOk() && (forall m | 0 <= m < |lists| :: ListOk(m))
      requires node in links && owner[node] == -2
      modifies this`free, this`fs, this`owner, node`next
      ensures Shape() && FreeOk() && (forall m | 0 <= m < |lists| :: ListOk(m)) && fs == [node] + old(fs)
    {
      free := Push(free, node, fs);
      owner := owner[node := -1];
      fs := [node] + fs;
      forall m | 0 <= m < |lists|
        ensures ListOk(m)
      {
        assert old(ListOk(m));
        Untouched(m);
      }
    }

    /** A free link for `x` is spliced into list `k`. */
    method InsertNew(k: nat, prev: Link?<T>, ghost i: nat, x: T)
      requires Valid() && fs != [] && Places(k, prev, i)
      modifies this, heads, links
      ensures Valid() && |fs| == |old(fs)| - 1 && |old(items)[k]| == |old(lists)[k]|
      ensures lists == old(lists)[k := Spliced(old(lists)[k], i, old(fs)[0])]
      ensures items == old(items)[k := Spliced(old(items)[k], i, x)]
    {
      assert ListOk(k);
      LengthsUpdate(lists, k, Spliced(lists[k], i, fs[0]));
      var node := TakeFree(x);
      SpliceIn(k, prev, i, node);
    }

    /** The link at place `i` of list `k` is taken out and becomes free. */
    method Remove(k: nat, prev: Link?<T>, ghost i: nat, node: Link<T>)
      requires Valid() && Places(k, prev, i) && i < |lists[k]| && node == lists[k][i]
      modifies this, heads, links
      ensures Valid() && |fs| == |old(fs)| + 1 && |old(items)[k]| == |old(lists)[k]|
      ensures lists == old(lists)[k := Without(old(lists)[k], i)]
      ensures items == old(items)[k := Without(old(items)[k], i)]
    {
      assert ListOk(k);
      LengthsUpdate(lists, k, Without(lists[k], i));
      SpliceOut(k, prev, i, node);
      PutFree(node);
    }

    /** The first link of list `k` becomes free. */
    method FreeFirst(k: nat)
      requires Valid() && k < heads.Length && lists[k] != []
      modifies this, heads, links
      ensures Valid() && |fs| == |old(fs)| + 1 && |old(items)[k]| == |old(lists)[k]|
      ensures lists == old(lists)[k := old(lists)[k][1..]]
      ensures items == old(items)[k := old(items)[k][1..]]
    {
      assert ListOk(k);
      Remove(k, null, 0, heads[k]);
      assert Without(old(lists)[k], 0) == old(lists)[k][1..] && Without(old(items)[k], 0) == old(items)[k][1..];
    }

    /** A whole list goes to the free list (`RSLINK_FREE_LIST`). */
    method FreeList(k: nat)
      requires Valid() && k < heads.Length
      modifies this, heads, links
      ensures Valid() && |fs| == |old(fs)| + |old(lists)[k]|
      ensures lists == old(lists)[k := []] && items == old(items)[k := []]
    {
      assert ListOk(k);
      while heads[k] != null
        invariant Valid() && ListOk(k) && |lists| == |old(lists)|
        invariant lists == old(lists)[k := lists[k]] && items == old(items)[k := items[k]]
        invariant |fs| + |lists[k]| == |old(fs)| + |old(lists)[k]|
        decreases |lists[k]|
      {
        FreeFirst(k);
        assert ListOk(k);
      }
    }

    /** `rslink_init`: all links are free. */
    constructor (n: nat, size: nat, none: T)
      ensures Valid() && heads.Length == n && |links| == size && |fs| == size
      ensures fresh(links) && fresh(heads)
      ensures forall k | 0 <= k < n :: lists[k] == [] && items[k] == []
    {
      var head, chain, all := NewLinks(size, none);
      heads := new Link?<T>[n](_ => null);
      free, fs, links, owner := head, chain, all, map l | l in all :: -1;
      lists, items := seq(n, _ => []), seq(n, _ => []);
      new;
      NoLengths(lists);
    }
  }

  method NewLinks<T>(size: nat, none: T) returns (head: Link?<T>, ghost chain: seq<Link<T>>, ghost all: set<Link<T>>)
    ensures Linked(head, chain) && |chain| == size == |all| && fresh(all) && forall l :: l in all <==> l in chain
  {
    head, chain, all := null, [], {};
    var i := 0;
    while i < size
      invariant i <= size && |chain| == i == |all| && Linked(head, chain) && fresh(all)
      invariant forall l :: l in all <==> l in chain
    {
      var link := new Link(none);
      head := Push(head, link, chain);
      chain := [link] + chain;
      all := all + {link};
      i := i + 1;
    }
  }

  lemma {:induction false} NoLengths<T>(s: seq<seq<T>>)
    requires forall k | 0 <= k < |s| :: s[k] == []
    ensures Lengths(s) == 0
  {
    if s != [] { NoLengths(s[..|s| - 1]); }
  }
}
