/** The load/store queue over a run (`lsq_enqueue`, `lsq_stage`, `lsq_cancel_one`, `commit_stage`): a
    load that commits without being marked took every byte from the youngest older store that writes
    it, whatever the order in which loads and stores reached the queue. */
module LoadStoreQueue {
  import opened Rings
  import opened Forwarding

  // ---------------------------------------------------------------- where a load takes its bytes

  /** The number of the store that supplies a byte, counted over the whole run, or -1 for the
      cache. */
  type Sources = nat -> int

  /** `s` is the store at position `y` of a queue whose oldest entry has number `base`, or, when
      there is none, something that left the queue before. */
  predicate FromStore(s: int, y: int, base: nat)
  {
    if y == -1 then s < base else s == base + y
  }

  predicate Arrived(e: Entry)
  {
    e.state >= LSQ_READCACHE
  }

  /** A load that is not marked looks at the youngest arrived store for each byte. */
  ghost predicate SourcesOk(q: seq<Entry>, src: seq<Sources>, base: nat)
  {
    && |src| == |q|
    && forall p, b | 0 <= p < |q| && q[p].load && Arrived(q[p]) && !q[p].ex && b in q[p].mask ::
         FromStore(src[p](b), Youngest(q, p, q[p].dword, b), base)
  }

  /** A load that has written back, and is not marked, took what it now looks at. */
  ghost predicate TakenOk(q: seq<Entry>, src: seq<Sources>, taken: seq<Sources>)
    requires |src| == |q|
  {
    && |taken| == |q|
    && forall p, b | 0 <= p < |q| && q[p].load && q[p].state >= LSQ_WRITEBACK && !q[p].ex && b in q[p].mask ::
         taken[p](b) == src[p](b)
  }

  /** Entries commit in program order. */
  predicate InOrder(q: seq<Entry>)
  {
    forall i, j | 0 <= i < j < |q| && q[j].state >= LSQ_COMMIT :: q[i].state >= LSQ_COMMIT
  }

  ghost predicate QueueOk(q: seq<Entry>, src: seq<Sources>, taken: seq<Sources>, base: nat)
  {
    SourcesOk(q, src, base) && TakenOk(q, src, taken) && InOrder(q)
  }

  /** An older entry that changes nothing but its progress does not change what a load looks at. */
  lemma {:induction false} YoungestSame(q: seq<Entry>, q': seq<Entry>, p: nat, dword: nat, b: nat)
    requires p <= |q| && p <= |q'|
    requires forall j | 0 <= j < p :: Supplies(q'[j], dword, b) <==> Supplies(q[j], dword, b)
    ensures Youngest(q', p, dword, b) == Youngest(q, p, dword, b)
  {
    if p > 0 && !Supplies(q[p - 1], dword, b) { YoungestSame(q, q', p - 1, dword, b); }
  }

  lemma QueueOkPush(q: seq<Entry>, src: seq<Sources>, taken: seq<Sources>, base: nat, e: Entry, s: Sources)
    requires QueueOk(q, src, taken, base) && !Arrived(e)
    ensures QueueOk(q + [e], src + [s], taken + [s], base)
  {
    var q' := q + [e];
    forall p, b | 0 <= p < |q'| && q'[p].load && Arrived(q'[p]) && !q'[p].ex && b in q'[p].mask
      ensures FromStore((src + [s])[p](b), Youngest(q', p, q'[p].dword, b), base)
    {
      YoungestSame(q, q', p, q[p].dword, b);
    }
  }

  lemma QueueOkPop(q: seq<Entry>, src: seq<Sources>, taken: seq<Sources>, base: nat)
    requires QueueOk(q, src, taken, base) && q != []
    ensures QueueOk(q[1..], src[1..], taken[1..], base + 1)
  {
  }

  lemma QueueOkDrop(q: seq<Entry>, src: seq<Sources>, taken: seq<Sources>, base: nat)
    requires QueueOk(q, src, taken, base) && q != []
    ensures var n := |q| - 1; QueueOk(q[..n], src[..n], taken[..n], base)
  {
  }

  /** An entry makes progress without arriving: `was` and `e` differ in state, `byterdy` or `ex`. */
  predicate Progress(was: Entry, e: Entry)
  {
    && e.load == was.load && e.store == was.store && e.dword == was.dword && e.mask == was.mask
    && (Arrived(e) <==> Arrived(was)) && (was.ex ==> e.ex) && was.state <= e.state
  }

  lemma QueueOkProgress(q: seq<Entry>, src: seq<Sources>, taken: seq<Sources>, base: nat, k: nat, e: Entry, t: Sources)
    requires QueueOk(q, src, taken, base) && k < |q| && Progress(q[k], e)
    requires e.state >= LSQ_COMMIT ==> forall i | 0 <= i < k :: q[i].state >= LSQ_COMMIT
    requires t == if q[k].state < LSQ_WRITEBACK <= e.state then src[k] else taken[k]
    ensures QueueOk(q[k := e], src, taken[k := t], base)
  {
    var q' := q[k := e];
    forall p, b | 0 <= p < |q'| && q'[p].load && Arrived(q'[p]) && !q'[p].ex && b in q'[p].mask
      ensures FromStore(src[p](b), Youngest(q', p, q'[p].dword, b), base)
    {
      YoungestSame(q, q', p, q'[p].dword, b);
    }
  }

  /** A load arrives and looks at what its scan found. */
  ghost function ScanSources(q: seq<Entry>, k: nat, base: nat): Sources
    requires k < |q|
  {
    (b: nat) => var y := Youngest(q, k, q[k].dword, b); if y == -1 then -1 else base + y
  }

  lemma QueueOkLoad(q: seq<Entry>, src: seq<Sources>, taken: seq<Sources>, base: nat, k: nat, e: Entry)
    requires QueueOk(q, src, taken, base) && k < |q| && q[k].load && !q[k].store && q[k].state == LSQ_DTAGCMP
    requires e == q[k].(state := LSQ_READCACHE, byterdy := e.byterdy, fetching := false)
    ensures QueueOk(q[k := e], src[k := ScanSources(q, k, base)], taken, base)
  {
    var q' := q[k := e];
    forall p, b | 0 <= p < |q'| && q'[p].load && Arrived(q'[p]) && !q'[p].ex && b in q'[p].mask
      ensures FromStore(src[k := ScanSources(q, k, base)][p](b), Youngest(q', p, q'[p].dword, b), base)
    {
      YoungestSame(q, q', p, q'[p].dword, b);
    }
  }

  /** The queue after the scan of an arriving store. */
  function AfterStore(q: seq<Entry>, k: nat, selected: int): (q': seq<Entry>)
    requires k < |q|
    ensures |q'| == |q|
    ensures forall p | 0 <= p < |q| ::
              && q'[p] == (if k < p then Served(q, k, p, p == selected) else q[p])
              && q'[p] == q[p].(byterdy := q'[p].byterdy, ex := q'[p].ex)
  {
    seq(|q|, p requires 0 <= p < |q| => if k < p then Served(q, k, p, p == selected) else q[p])
  }

  ghost function GivenSources(q: seq<Entry>, src: seq<Sources>, base: nat, k: nat): (src': seq<Sources>)
    requires k < |q| == |src|
  {
    seq(|q|, p requires 0 <= p < |q| =>
      if k < p then (b: nat) => if b in Given(q, k, p) then base + k else src[p](b) else src[p])
  }

  /** A store arrives: the loads that it gives bytes look at it, or are marked. */
  lemma QueueOkStore(q: seq<Entry>, src: seq<Sources>, taken: seq<Sources>, base: nat, k: nat, e: Entry, selected: int)
    requires QueueOk(q, src, taken, base) && k < |q| && q[k].store && !q[k].load && q[k].state == LSQ_DTAGCMP
    requires e == q[k].(state := LSQ_READCACHE, byterdy := e.byterdy, fetching := false)
    ensures QueueOk(AfterStore(q[k := e], k, selected), GivenSources(q[k := e], src, base, k), taken, base)
  {
    var q0 := q[k := e];
    var q' := AfterStore(q0, k, selected);
    var src' := GivenSources(q0, src, base, k);
    forall p, b | 0 <= p < |q'| && q'[p].load && Arrived(q'[p]) && !q'[p].ex && b in q'[p].mask
      ensures FromStore(src'[p](b), Youngest(q', p, q'[p].dword, b), base)
    {
      YoungestSame(q0, q', p, q'[p].dword, b);
      if k < p && q[p].dword == e.dword {
        YoungestAfterArrival(q0, q, k, p, b);
      } else {
        YoungestSame(q, q0, p, q[p].dword, b);
        if k < p { GivenExact(q0, k, p, b); }
      }
    }
    TakenAfterStore(q, src, taken, base, k, e, selected);
  }

  lemma TakenAfterStore(q: seq<Entry>, src: seq<Sources>, taken: seq<Sources>, base: nat, k: nat, e: Entry,
        selected: int)
    requires QueueOk(q, src, taken, base) && k < |q| && q[k].store && !q[k].load && q[k].state == LSQ_DTAGCMP
    requires e == q[k].(state := LSQ_READCACHE, byterdy := e.byterdy, fetching := false)
    ensures TakenOk(AfterStore(q[k := e], k, selected), GivenSources(q[k := e], src, base, k), taken)
    ensures InOrder(AfterStore(q[k := e], k, selected))
  {
  }

  // ---------------------------------------------------------------- what a committed load has read

  /** The store writes the byte, whether or not it has reached the queue. */
  predicate Writes(e: Entry, dword: nat, b: nat)
  {
    e.store && e.dword == dword && b in e.mask
  }

  /** Byte `b` was taken from the youngest older store that writes it; if there is none in the queue,
      from the cache or a store that has left. */
  ghost predicate ReadInOrder(q: seq<Entry>, k: nat, t: Sources, base: nat, b: nat)
    requires k < |q|
  {
    exists y | -1 <= y < k ::
      && FromStore(t(b), y, base)
      && (0 <= y ==> Writes(q[y], q[k].dword, b))
      && forall i | y < i < k :: !Writes(q[i], q[k].dword, b)
  }

  /** A load that is about to commit unmarked never bypassed a store. */
  lemma CommittedReadsInOrder(q: seq<Entry>, src: seq<Sources>, taken: seq<Sources>, base: nat, k: nat)
    requires QueueOk(q, src, taken, base) && k < |q|
    requires q[k].load && q[k].state >= LSQ_WRITEBACK && !q[k].ex
    requires forall i | 0 <= i < k :: q[i].state >= LSQ_COMMIT
    ensures forall b | b in q[k].mask :: ReadInOrder(q, k, taken[k], base, b)
  {
  }

  // ---------------------------------------------------------------- the queue

  lemma {:induction false} CoverGrows(q: seq<Entry>, lo: nat, mid: nat, hi: nat, dword: nat)
    requires lo <= mid <= hi <= |q|
    ensures Cover(q, mid, hi, dword) <= Cover(q, lo, hi, dword)
    ensures Cover(q, lo, mid, dword) <= Cover(q, lo, hi, dword)
  {
    forall b | b in Cover(q, mid, hi, dword) ensures b in Cover(q, lo, hi, dword) {
      CoverExact(q, mid, hi, dword, b);
      CoverExact(q, lo, hi, dword, b);
    }
    forall b | b in Cover(q, lo, mid, dword) ensures b in Cover(q, lo, hi, dword) {
      CoverExact(q, lo, mid, dword, b);
      CoverExact(q, lo, hi, dword, b);
    }
  }

  /** An entry is a load, a store or neither, and its mask is one of eight bytes. */
  predicate Shaped(es: seq<Entry>)
  {
    forall p | 0 <= p < |es| :: es[p].mask <= ALL && !(es[p].load && es[p].store)
  }

  /** The queue while store `k` scans: the entries before `p` have been served. */
  function PartlyServed(es: seq<Entry>, k: nat, selected: int, p: nat): (es': seq<Entry>)
    requires k < |es|
    ensures |es'| == |es|
  {
    seq(|es|, j requires 0 <= j < |es| => if k < j < p then Served(es, k, j, j == selected) else es[j])
  }

  lemma PartlyServedStep(es: seq<Entry>, k: nat, selected: int, p: nat)
    requires k < p < |es|
    ensures PartlyServed(es, k, selected, p)[p] == es[p]
    ensures PartlyServed(es, k, selected, p)[p := Served(es, k, p, p == selected)]
              == PartlyServed(es, k, selected, p + 1)
  {
  }

  /** One step of the masks of a forward scan. */
  lemma MatchMasks(es: seq<Entry>, k: nat, p: nat, notFound: Bytes)
    requires k < p < |es| && Shaped(es) && notFound == ALL - es[k].mask * Cover(es, k + 1, p, es[k].dword)
    ensures var m := es[p].mask * es[k].mask * notFound;
            && (LoadMatch(es[p], es[k].dword) ==> m == Given(es, k, p))
            && (!LoadMatch(es[p], es[k].dword) ==> Given(es, k, p) == {})
            && (if StoreMatch(es[p], es[k].dword) then notFound - m else notFound)
                 == ALL - es[k].mask * Cover(es, k + 1, p + 1, es[k].dword)
  {
    CoverSnoc(es, k + 1, p, es[k].dword);
  }

  lemma ServedRest(es: seq<Entry>, k: nat, selected: int, p: nat)
    requires k < p <= |es| && (p == |es| || es[k].mask <= Cover(es, k + 1, p, es[k].dword))
    ensures PartlyServed(es, k, selected, p) == AfterStore(es, k, selected)
  {
    forall j | p <= j < |es|
      ensures Given(es, k, j) == {}
    {
      CoverGrows(es, k + 1, p, j, es[k].dword);
    }
  }

  class Lsq {
    const q: RingBuffer<Entry>   // lsq, with lsq_head1, lsq_tail, lsq_num
    var wtbki: int
    ghost var base: nat
    ghost var src: seq<Sources>
    ghost var taken: seq<Sources>

    ghost predicate Valid()
      reads this, q, q.slots
    {
      && q.Valid() && -1 <= wtbki < q.slots.Length
      && QueueOk(q.Contents(), src, taken, base)
      && Shaped(q.Contents())
    }

    constructor (size: nat)
      requires 0 < size
      ensures Valid() && q.Contents() == [] && q.slots.Length == size && fresh(q) && fresh(q.slots)
    {
      q := new RingBuffer(size, Entry(LSQ_EMPTY, false, false, 0, {}, {}, false, false));
      wtbki, base, src, taken := -1, 0, [], [];
    }

    /** The scan of an arriving load over the older entries, closest first. */
    method ScanBack(k: nat) returns (notFound: Bytes)
      requires q.Valid() && Shaped(q.Contents()) && k < q.num
      ensures var e := q.Contents()[k];
              e.mask * (ALL - notFound) == e.mask * Cover(q.Contents(), 0, k, e.dword) && ALL - notFound <= e.mask
    {
      var n := q.slots.Length;
      var lsqid := Slot(q.head, k, n);
      var e := q.slots[lsqid];
      ghost var es := q.Contents();
      notFound := ALL;
      var i := Previous(lsqid, n);
      var end := Previous(q.head, n);
      ghost var p: int := k - 1;
      while i != end && e.mask * notFound != {}
        invariant -1 <= p < k && i == (if p == -1 then Previous(q.head, n) else Slot(q.head, p, n))
        invariant notFound == ALL - e.mask * Cover(es, p + 1, k, e.dword)
        decreases p
      {
        assert p != -1 && q.slots[i] == es[p];
        var matchMask := q.slots[i].mask * e.mask * notFound;
        if matchMask != {} && StoreMatch(q.slots[i], e.dword) {
          notFound := notFound - matchMask;
        }
        i := Previous(i, n);
        p := p - 1;
      }
      CoverGrows(es, 0, p + 1, k, e.dword);
    }

    /** A younger load gets bytes; if it has written back, or is about to, it is marked. */
    method Serve(i: nat, bytes: Bytes, ghost p: nat)
      requires q.Valid() && p < q.num && i == Slot(q.head, p, q.slots.Length) && -1 <= wtbki < q.slots.Length
      modifies q.slots
      ensures q.Valid()
      ensures var f := old(q.Contents())[p];
              q.Contents() == old(q.Contents())[p := f.(byterdy := f.byterdy + bytes,
                                                        ex := f.ex || f.state == LSQ_WRITEBACK || p == Position())]
    {
      var f := q.slots[i];
      assert f == q.Contents()[p];
      if wtbki != -1 && p != Position() { SlotInjective(q.head, p, Position(), q.slots.Length); }
      q.Put(i, f.(byterdy := f.byterdy + bytes, ex := f.ex || f.state == LSQ_WRITEBACK || i == wtbki), p);
    }

    /** One younger entry, at slot `i`, in the scan of store `e`. */
    method ScanOne(i: nat, e: Entry, notFound: Bytes, ghost es: seq<Entry>, ghost k: nat, ghost p: nat)
      returns (left: Bytes)
      requires q.Valid() && -1 <= wtbki < q.slots.Length && k < p < q.num == |es| && Shaped(es) && e == es[k]
      requires i == Slot(q.head, p, q.slots.Length) && q.Contents() == PartlyServed(es, k, Position(), p)
      requires notFound == ALL - e.mask * Cover(es, k + 1, p, e.dword)
      modifies q.slots
      ensures q.Valid() && q.Contents() == PartlyServed(es, k, Position(), p + 1)
      ensures left == ALL - e.mask * Cover(es, k + 1, p + 1, e.dword)
    {
      PartlyServedStep(es, k, Position(), p);
      MatchMasks(es, k, p, notFound);
      hide PartlyServed, Cover, Given;
      left := notFound;
      var f := q.slots[i];
      assert f == q.Contents()[p] == es[p];
      var matchMask := f.mask * e.mask * notFound;
      if matchMask != {} {
        if LoadMatch(f, e.dword) {
          Serve(i, matchMask, p);
        }
        if StoreMatch(f, e.dword) {
          left := notFound - matchMask;
        }
      }
    }

    /** The scan of an arriving store over the younger entries, closest first. */
    method ScanForward(k: nat)
      requires q.Valid() && Shaped(q.Contents()) && k < q.num && -1 <= wtbki < q.slots.Length
      modifies q.slots
      ensures q.Valid() && q.Contents() == AfterStore(old(q.Contents()), k, Position())
    {
      var n := q.slots.Length;
      var lsqid := Slot(q.head, k, n);
      var e := q.slots[lsqid];
      ghost var es := q.Contents();
      var notFound := ALL;
      var i := Next(lsqid, n);
      ghost var p := k + 1;
      while i != q.tail && e.mask * notFound != {}
        invariant q.Valid() && k < p <= q.num && i == Tail(q.head, p, n)
        invariant q.Contents() == PartlyServed(es, k, Position(), p)
        invariant notFound == ALL - e.mask * Cover(es, k + 1, p, e.dword)
        decreases q.num - p
      {
        notFound := ScanOne(i, e, notFound, es, k, p);
        i := Next(i, n);
        p := p + 1;
      }
      ServedRest(es, k, Position(), p);
    }

    /** The place of the selected entry in program order. */
    ghost function Position(): int
      requires q.Valid() && -1 <= wtbki < q.slots.Length
      reads this, q
    {
      if wtbki == -1 then -1 else Offset(q.head, wtbki, q.slots.Length)
    }

    // -------------------------------------------------------------- the moves of an entry

    /** `lsq_enqueue`. */
    method Enqueue(e: Entry)
      requires Valid() && q.num < q.slots.Length && e.state == LSQ_ENTER && Shaped([e])
      modifies this`src, this`taken, q, q.slots
      ensures Valid() && q.Contents() == old(q.Contents()) + [e] && base == old(base)
    {
      QueueOkPush(q.Contents(), src, taken, base, e, b => -1);
      src, taken := src + [b => -1], taken + [b => -1];
      assert e == [e][0];
      q.Push(e);
    }

    /** Progress that is not an arrival: through the early stages, to WRITEBACK, COMMIT and DELAY1,
        or being marked. */
    method Move(k: nat, e: Entry)
      requires Valid() && k < q.num && Progress(q.Contents()[k], e)
      requires e.state >= LSQ_COMMIT ==> forall i | 0 <= i < k :: q.Contents()[i].state >= LSQ_COMMIT
      modifies this`taken, q.slots
      ensures Valid() && q.Contents() == old(q.Contents())[k := e] && src == old(src) && base == old(base)
      ensures forall i | 0 <= i < |src| ::
                taken[i] == if i == k && old(q.Contents())[k].state < LSQ_WRITEBACK <= e.state then src[k]
                            else old(taken)[i]
    {
      ghost var was := q.Contents()[k];
      ghost var t := if was.state < LSQ_WRITEBACK <= e.state then src[k] else taken[k];
      QueueOkProgress(q.Contents(), src, taken, base, k, e, t);
      taken := taken[k := t];
      q.Set(k, e);
    }

    /** A load reaches READCACHE.  When it missed, its outstanding bytes are those that no older store
        in the queue writes; when it hit, it is selected for writeback at once. */
    method ArriveLoad(k: nat, hit: bool)
      requires Valid() && k < q.num && q.Contents()[k].load && q.Contents()[k].state == LSQ_DTAGCMP
      modifies this`src, this`wtbki, q.slots
      ensures Valid() && base == old(base) && taken == old(taken)
      ensures q.Contents() == old(q.Contents())[k := old(q.Contents())[k].(
                state := LSQ_READCACHE, byterdy := if hit then ALL else LoadReady(old(q.Contents()), k),
                fetching := false)]
      ensures src == old(src)[k := ScanSources(old(q.Contents()), k, base)]
    {
      var notFound := ScanBack(k);
      var e := q.Get(k);
      var byterdy := if hit then ALL else (ALL - e.mask) + (ALL - notFound);
      assert !hit ==> byterdy == LoadReady(q.Contents(), k);
      QueueOkLoad(q.Contents(), src, taken, base, k, e.(state := LSQ_READCACHE, byterdy := byterdy, fetching := false));
      src := src[k := ScanSources(q.Contents(), k, base)];
      q.Set(k, e.(state := LSQ_READCACHE, byterdy := byterdy, fetching := false));
      if hit && !e.ex {
        wtbki := Slot(q.head, k, q.slots.Length);
      }
    }

    /** A store reaches READCACHE and gives its bytes to the younger loads. */
    method ArriveStore(k: nat, hit: bool)
      requires Valid() && k < q.num && q.Contents()[k].store && q.Contents()[k].state == LSQ_DTAGCMP
      modifies this`src, q.slots
      ensures Valid() && base == old(base) && taken == old(taken)
      ensures var e := old(q.Contents())[k];
              var q0 := old(q.Contents())[k := e.(
                state := LSQ_READCACHE, byterdy := if hit then ALL else ALL - e.mask, fetching := false)];
              q.Contents() == AfterStore(q0, k, Position()) && src == GivenSources(q0, old(src), base, k)
    {
      var e := q.Get(k);
      e := e.(state := LSQ_READCACHE, byterdy := if hit then ALL else ALL - e.mask, fetching := false);
      QueueOkStore(q.Contents(), src, taken, base, k, e, Position());
      src := GivenSources(q.Contents()[k := e], src, base, k);
      q.Set(k, e);
      ScanForward(k);
    }

    /** The first scan of a cycle: the oldest entry that has all its bytes, other than the one selected
        before, is selected for writeback. */
    method SelectWriteback()
      requires Valid()
      modifies this`wtbki
      ensures Valid()
      ensures var last := old(Position());
              (wtbki == -1 <==> forall p | 0 <= p < q.num :: p == last || !Ready(q.Contents()[p]))
              && (wtbki != -1 ==>
                    && Position() < q.num && Position() != last && Ready(q.Contents()[Position()])
                    && forall p | 0 <= p < Position() :: p == last || !Ready(q.Contents()[p]))
    {
      var last := wtbki;
      var i := q.head;
      var p := 0;
      wtbki := -1;
      while p < q.num
        invariant p <= q.num && i == Tail(q.head, p, q.slots.Length) && wtbki == -1 && last == old(wtbki)
        invariant forall j | 0 <= j < p :: j == old(Position()) || !Ready(q.Contents()[j])
      {
        assert q.slots[i] == q.Contents()[p];
        SameSlot(last, p);
        if Ready(q.slots[i]) && i != last {
          wtbki := i;
          break;
        }
        i := Next(i, q.slots.Length);
        p := p + 1;
      }
    }

    lemma SameSlot(last: int, p: nat)
      requires q.Valid() && p < q.num && -1 <= last < q.slots.Length
      ensures last == Slot(q.head, p, q.slots.Length)
              <==> last != -1 && p == Offset(q.head, last, q.slots.Length)
    {
      if last != -1 && p != Offset(q.head, last, q.slots.Length) {
        SlotInjective(q.head, p, Offset(q.head, last, q.slots.Length), q.slots.Length);
      }
    }

    /** The second scan: the oldest entry that needs a miss request. */
    method SelectMiss() returns (missi: int)
      requires Valid()
      ensures -1 <= missi < q.num
      ensures missi == -1 <==> forall p | 0 <= p < q.num :: !CacheMiss(q.Contents()[p])
      ensures missi != -1 ==> CacheMiss(q.Contents()[missi]) && forall p | 0 <= p < missi :: !CacheMiss(q.Contents()[p])
    {
      var i := q.head;
      missi := 0;
      while missi < q.num
        invariant 0 <= missi <= q.num && i == Tail(q.head, missi, q.slots.Length)
        invariant forall j | 0 <= j < missi :: !CacheMiss(q.Contents()[j])
      {
        assert q.slots[i] == q.Contents()[missi];
        if CacheMiss(q.slots[i]) {
          return;
        }
        i := Next(i, q.slots.Length);
        missi := missi + 1;
      }
      missi := -1;
    }

    /** `commit_stage`: a load that is not marked has read every byte in program order. */
    method Commit(k: nat)
      requires Valid() && k < q.num && q.Contents()[k].state == LSQ_WRITEBACK && !q.Contents()[k].ex
      requires forall i | 0 <= i < k :: q.Contents()[i].state >= LSQ_COMMIT
      modifies this`taken, q.slots
      ensures Valid() && q.Contents() == old(q.Contents())[k := old(q.Contents())[k].(state := LSQ_COMMIT)]
      ensures q.Contents()[k].load ==>
                forall b | b in q.Contents()[k].mask :: ReadInOrder(old(q.Contents()), k, old(taken)[k], base, b)
    {
      var e := q.Get(k);
      if e.load {
        CommittedReadsInOrder(q.Contents(), src, taken, base, k);
      }
      Move(k, e.(state := LSQ_COMMIT));
    }

    /** The oldest entry leaves in DELAY1. */
    method Free()
      requires Valid() && 0 < q.num && q.Contents()[0].state == LSQ_DELAY1
      modifies this, q
      ensures Valid() && q.Contents() == old(q.Contents())[1..] && base == old(base) + 1
    {
      QueueOkPop(q.Contents(), src, taken, base);
      var e := q.Pop();
      src, taken, base := src[1..], taken[1..], base + 1;
    }

    /** `lsq_cancel_one`: the youngest entry is squashed. */
    method Cancel()
      requires Valid() && 0 < q.num
      modifies this`src, this`taken, q
      ensures Valid() && q.Contents() == old(q.Contents())[..|old(q.Contents())| - 1] && base == old(base)
    {
      QueueOkDrop(q.Contents(), src, taken, base);
      var e := q.Drop();
      src, taken := src[..q.num], taken[..q.num];
    }
  }
}
