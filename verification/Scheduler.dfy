/** The methods that move the links (`readyq_enqueue`, `next_valid_node`, `delete_node`, `issue_stage`,
    `roq_link_idep`, `roq_install_odep`, `update_create_vector`, `writeback_stage`, `eventq_queue_event`,
    `eventq_next_event`, `brerr_recover`, `tracer_recover`, `pipeline_flush`).
    All of them keep `Valid`, and with it: every link of the initial pool is in one list or free, the
    queues are sorted, no instruction is queued or woken twice, none is forgotten, and only results that
    are still to come have creators' entries and dependants. */
module Scheduling {
  import opened Chains
  import opened LinkPools
  import opened ReadyQueue
  import opened CreateVector
  import opened Writeback

  class Scheduler {
    const units: nat
    /** `sim_has_bypass`. */
    const bypass: bool
    /** MD_TOTAL_REGS. */
    const regs: nat
    const pool: LinkPool<Item>
    /** `next_issue_item` of each unit. */
    const chosen: array<Link?<Item>>
    var stations: seq<Station>
    /** The reorder queue and the decode queue, oldest first. */
    var roq: seq<nat>
    var decoded: seq<nat>
    var nextSeq: nat
    /** The create vectors of levels 0 to `spec_level`. */
    var create: seq<Vector>
    /** The instruction after which each wrong path was entered. */
    ghost var entries: seq<int>

    ghost predicate Shape()
      reads this`stations, pool, pool.heads, pool.links
    {
      && pool.Valid() && chosen.Length == units && chosen != pool.heads
      && |pool.items| == units + 1 + RESULTS * |stations|
    }

    /** All but the chosen links. */
    ghost predicate Linked()
      reads this`stations, pool, pool.heads, pool.links
    {
      Shape() && Good(units, pool.items, stations)
    }

    ghost predicate ChosenOk(f: nat)
      requires f < chosen.Length && f < |pool.lists|
      reads pool, chosen
    {
      chosen[f] == null || (!bypass && chosen[f] in pool.lists[f])
    }

    ghost predicate AllChosenOk()
      reads pool, chosen
    {
      units <= chosen.Length && units <= |pool.lists| && forall f | 0 <= f < units :: ChosenOk(f)
    }

    /** The links are right. */
    ghost predicate Held()
      reads this`stations, pool, pool.heads, pool.links, chosen
    {
      Linked() && AllChosenOk()
    }

    ghost predicate Vectors()
      reads this`create
    {
      create != [] && forall l | 0 <= l < |create| :: |create[l]| == regs
    }

    /** And so are program order, creators and dependants, except that instruction `but` may be passing on
        its results. */
    ghost predicate ValidBut(but: Option<nat>)
      reads this, pool, pool.heads, pool.links, chosen
    {
      && Held() && Vectors() && Traced(roq, decoded, nextSeq, entries, create, regs, stations, but)
      && Open(units, pool.items, stations, but)
    }

    ghost predicate Valid()
      reads this, pool, pool.heads, pool.links, chosen
    {
      ValidBut(None)
    }

    ghost function Repr(): set<object>
      reads this
    {
      {pool, pool.heads} + pool.links
    }

    constructor (units: nat, bypass: bool, regs: nat, insts: nat, links: nat)
      ensures Valid() && this.units == units && this.bypass == bypass && this.regs == regs
      ensures |stations| == insts && |pool.fs| == |pool.links| == links && |create| == 1
      ensures forall r | 0 <= r < insts :: !stations[r].used
    {
      this.units, this.bypass, this.regs := units, bypass, regs;
      var none := Station(false, 0, 0, 0, false, false, 0, false, false, false, false, false, [], []);
      stations := seq(insts, _ => none);
      roq, decoded, nextSeq, create, entries := [], [], 0, [seq(regs, _ => None)], [];
      var p := new LinkPool(units + 1 + RESULTS * insts, links, Item(0, 0, 0));
      pool := p;
      chosen := new Link?<Item>[units](_ => null);
      new;
      assert pool.heads != chosen;
      Fresh();
    }

    /** Nothing is there yet. */
    lemma Fresh()
      requires Shape() && roq == decoded == [] && nextSeq == 0 && entries == [] && create == [seq(regs, _ => None)]
      requires (forall k | 0 <= k < |pool.items| :: pool.items[k] == [])
      requires (forall r | 0 <= r < |stations| :: !stations[r].used) && forall f | 0 <= f < units :: chosen[f] == null
      ensures Valid()
    {
      EmptyGood(units, pool.items, stations);
      NothingTraced(0, regs, stations);
    }

    /** Nothing has changed that the create vectors or the order are about, and no chain has got its first
        link. */
    twostate lemma AllKept(but: Option<nat>)
      requires old(ValidBut(but)) && Held() && roq == old(roq) && decoded == old(decoded)
      requires nextSeq == old(nextSeq) && entries == old(entries) && create == old(create)
      requires SameIdentity(old(stations), stations) && Shrunk(units, old(pool.items), pool.items)
      ensures ValidBut(but)
    {
      TracedSame(roq, decoded, nextSeq, entries, create, regs, old(stations), but, stations);
      OpenKept(units, old(pool.items), pool.items, old(stations), stations, but, but);
    }

    /** The scan for the insertion point. */
    method FindPlace(q: nat, x: nat) returns (prev: Link?<Item>, ghost i: nat)
      requires pool.Valid() && q < pool.heads.Length
      ensures i == Place(pool.items[q], x) && pool.Places(q, prev, i) && |pool.items[q]| == |pool.lists[q]|
    {
      assert pool.ListOk(q);
      ghost var ls, xs := pool.lists[q], pool.items[q];
      i := 0;
      prev := null;
      var node := pool.heads[q];
      while node != null && node.data.x < x
        invariant i <= |ls| && node == At(ls, i) && prev == if i == 0 then null else ls[i - 1]
        invariant Place(xs, x) == i + Place(xs[i..], x)
        decreases |ls| - i
      {
        assert xs[i..][0] == node.data && xs[i..][1..] == xs[i + 1..];
        prev := node;
        node := node.next;
        i := i + 1;
      }
      assert i < |ls| ==> xs[i..][0] == ls[i].data;
    }

    /** A link for `x` is put at its place in a ready queue or in the event queue. */
    method InsertSorted(q: nat, x: Item)
      requires pool.Valid() && q < pool.heads.Length && pool.fs != []
      modifies Repr()
      ensures pool.Valid() && |pool.fs| == |old(pool.fs)| - 1
      ensures pool.items == Enqueued(old(pool.items), q, x)
      ensures Grown(old(pool.lists), pool.lists)
      ensures forall k | 0 <= k < |pool.lists| && k != q :: pool.lists[k] == old(pool.lists)[k]
    {
      var prev, i := FindPlace(q, x.x);
      pool.InsertNew(q, prev, i, x);
    }

    /** The event of a memory operation that has been issued (`eventq_queue_event`). */
    method QueueEvent(r: nat, when: nat)
      requires Valid() && r < |stations| && stations[r].used && pool.fs != []
      requires stations[r].mem && stations[r].issued && !Done(stations[r]) && NoEvent(units, pool.items, stations, r)
      modifies Repr()
      ensures Valid() && |pool.fs| == |old(pool.fs)| - 1
      ensures pool.items == Enqueued(old(pool.items), units, Item(r, stations[r].tag, when))
    {
      var x := Item(r, stations[r].tag, when);
      assert StationOk(units, pool.items, r, stations[r]);
      EventGood(units, pool.items, stations, x);
      InsertSorted(units, x);
      ChosenKept();
      AllKept(None);
    }

    /** The chosen links stay where they are when no ready queue loses a link. */
    twostate lemma ChosenKept()
      requires old(AllChosenOk()) && |old(pool.lists)| == |pool.lists|
      requires forall f | 0 <= f < units :: chosen[f] == old(chosen[f])
      requires forall f, l | 0 <= f < units && l in old(pool.lists)[f] :: l in pool.lists[f]
      ensures AllChosenOk()
    {
      forall f | 0 <= f < units
        ensures ChosenOk(f)
      {
        assert old(ChosenOk(f));
        assert chosen[f] == null || chosen[f] in old(pool.lists)[f];
      }
    }

    /** The first link of list `q` is squashed, and is freed. */
    method DropFirst(q: nat)
      requires Linked() && q < |pool.lists| && pool.lists[q] != []
      requires |pool.items[q]| == |pool.lists[q]| && !Live(pool.items[q][0], stations)
      modifies Repr()
      ensures Linked() && |pool.fs| == |old(pool.fs)| + 1
      ensures pool.items == old(pool.items)[q := old(pool.items)[q][1..]]
      ensures pool.lists == old(pool.lists)[q := old(pool.lists)[q][1..]]
      ensures pool.ListOk(q) && pool.heads[q] == At(pool.lists[q], 0)
      ensures pool.heads[q] != null ==> pool.heads[q].data == pool.items[q][0]
    {
      DropGood(units, pool.items, stations, q, 0);
      assert Without(pool.items[q], 0) == pool.items[q][1..];
      pool.FreeFirst(q);
      assert pool.ListOk(q);
    }

    /** The scan from the head of a ready queue, which frees what it passes. */
    method DropSquashed(f: nat) returns (node: Link?<Item>, ghost i: nat)
      requires Linked() && f < units
      modifies Repr()
      ensures Linked() && i <= |old(pool.items)[f]| == |old(pool.lists)[f]| && |pool.fs| == |old(pool.fs)| + i
      ensures forall k | 0 <= k < i :: !Live(old(pool.items)[f][k], stations)
      ensures pool.items == old(pool.items)[f := old(pool.items)[f][i..]]
      ensures pool.lists == old(pool.lists)[f := old(pool.lists)[f][i..]]
      ensures node == pool.heads[f] && (node != null ==> Live(node.data, stations))
    {
      assert pool.ListOk(f);
      ghost var its, ls := pool.items, pool.lists;
      node := pool.heads[f];
      i := 0;
      while node != null && !Live(node.data, stations)
        invariant Linked() && i <= |its[f]| && node == pool.heads[f] == At(ls[f], i)
        invariant node != null ==> node.data == its[f][i]
        invariant pool.items == its[f := its[f][i..]] && pool.lists == ls[f := ls[f][i..]]
        invariant |pool.fs| == |old(pool.fs)| + i
        invariant forall k | 0 <= k < i :: !Live(its[f][k], stations)
        decreases |its[f]| - i
      {
        SuffixStep(its, f, i);
        SuffixStep(ls, f, i);
        DropFirst(f);
        node := pool.heads[f];
        i := i + 1;
      }
    }

    /** `next_valid_node` from the head: the squashed links before the oldest live one are freed, and
        only those. */
    method NextValid(f: nat) returns (node: Link?<Item>)
      requires Linked() && f < units
      modifies Repr()
      ensures Linked()
      ensures var i := FirstLive(old(pool.items)[f], stations);
              && |old(pool.items)[f]| == |old(pool.lists)[f]| && |pool.fs| == |old(pool.fs)| + i
              && pool.items == old(pool.items)[f := old(pool.items)[f][i..]]
              && pool.lists == old(pool.lists)[f := old(pool.lists)[f][i..]]
      ensures node == At(pool.lists[f], 0)
      ensures node != null ==> pool.items[f] != [] && node.data == pool.items[f][0] && Live(node.data, stations)
      ensures forall j | 0 <= j < |pool.items[f]| && Live(pool.items[f][j], stations) ::
                pool.items[f][0].x <= pool.items[f][j].x
    {
      ghost var xs, i := pool.items[f], 0;
      assert Sorted(xs);
      node, i := DropSquashed(f);
      assert pool.ListOk(f);
      assert i < |xs| ==> xs[i..][0] == xs[i];
      ScanFound(xs, stations, i);
    }

    /** `delete_node`: the link is looked up and freed. */
    method Delete(q: nat, n: Link<Item>, ghost i: nat)
      requires pool.Valid() && q < pool.heads.Length && i < |pool.lists[q]| && pool.lists[q][i] == n
      modifies Repr()
      ensures pool.Valid() && |pool.fs| == |old(pool.fs)| + 1 && |old(pool.items)[q]| == |old(pool.lists)[q]|
      ensures pool.items == old(pool.items)[q := Without(old(pool.items)[q], i)]
      ensures pool.lists == old(pool.lists)[q := Without(old(pool.lists)[q], i)]
    {
      assert pool.ListOk(q);
      ghost var ls, j := pool.lists[q], 0;
      var prev: Link?<Item> := null;
      var node := pool.heads[q];
      while node != null && node != n
        invariant j <= i && node == ls[j] && prev == if j == 0 then null else ls[j - 1]
        decreases i - j
      {
        prev := node;
        node := node.next;
        j := j + 1;
      }
      pool.Remove(q, prev, i, n);
    }

    /** The link of an issued instruction is freed, after that of its event has been queued. */
    method MoveLinks(f: nat, node: Link<Item>, ghost i: nat, event: bool, x: Item)
      requires pool.Valid() && f < units < pool.heads.Length && pool.fs != []
      requires i < |pool.lists[f]| && pool.lists[f][i] == node
      modifies Repr()
      ensures pool.Valid() && |pool.fs| >= |old(pool.fs)| && |old(pool.items)[f]| == |old(pool.lists)[f]|
      ensures var its := old(pool.items);
              var its1 := if event then Enqueued(its, units, x) else its;
              pool.items == its1[f := Without(its[f], i)]
      ensures |pool.lists| == |old(pool.lists)|
      ensures forall k | 0 <= k < units && k != f :: pool.lists[k] == old(pool.lists)[k]
    {
      assert pool.ListOk(f);
      if event {
        InsertSorted(units, x);
      }
      Delete(f, node, i);
    }

    /** Where a link is in its ready queue. */
    lemma PlaceOf(f: nat, node: Link<Item>) returns (i: nat)
      requires Linked() && f < units && node in pool.lists[f]
      ensures |pool.lists| == |pool.items| == pool.heads.Length == units + 1 + RESULTS * |stations|
      ensures i < |pool.lists[f]| == |pool.items[f]| && pool.lists[f][i] == node && pool.items[f][i] == node.data
    {
      assert pool.ListOk(f);
      i :| 0 <= i < |pool.lists[f]| && pool.lists[f][i] == node;
    }

    /** An instruction goes to its unit.  What the source checks before it does so holds: all operands
        are ready, and it has neither been issued nor completed yet. */
    method IssueNode(f: nat, node: Link<Item>, when: nat) returns (r: nat)
      requires Linked() && f < units && node in pool.lists[f] && Live(node.data, stations) && pool.fs != []
      modifies this`stations, Repr()
      ensures Linked() && |pool.fs| >= |old(pool.fs)| && r < |stations|
      ensures r == old(node.data.rs) && IssuedNow(f, old(stations), stations, r)
      ensures SameChains(units, old(pool.items), pool.items) && |pool.lists| == |old(pool.lists)|
      ensures forall k | 0 <= k < units && k != f :: pool.lists[k] == old(pool.lists)[k]
    {
      hide Good, LinkPool.Valid;
      ghost var its := pool.items;
      ghost var i := PlaceOf(f, node);
      r := node.data.rs;
      var s := stations[r];
      ReadyOnly(units, its, stations, f, i);
      assert OperandsReady(s) && s.queued && !s.issued && !s.completed;
      IssueGood(units, its, stations, f, i, when);
      stations := stations[r := Started(s)];
      MoveLinks(f, node, i, !s.mem, Item(r, s.tag, when));
    }

    /** The link to issue: the one chosen in the cycle before if its instruction is still live, or with
        bypass the oldest live one. */
    method Candidate(f: nat) returns (node: Link?<Item>)
      requires Held() && f < units
      modifies Repr()
      ensures Linked() && |pool.fs| >= |old(pool.fs)| && |pool.lists| == |old(pool.lists)|
      ensures SameChains(units, old(pool.items), pool.items)
      ensures forall k | 0 <= k < units && k != f :: pool.lists[k] == old(pool.lists)[k]
      ensures node != null ==> node in pool.lists[f] && Live(node.data, stations)
      ensures !bypass ==> (node != null <==> old(chosen[f] != null && Live(chosen[f].data, stations)))
    {
      assert ChosenOk(f) && pool.ListOk(f);
      if bypass {
        node := NextValid(f);
      } else {
        node := chosen[f];
        if node != null && !Live(node.data, stations) {
          node := null;
        }
      }
    }

    /** Without bypass the oldest live link is chosen for the next cycle. */
    method ChooseNext(f: nat)
      requires Linked() && f < units && (bypass ==> chosen[f] == null)
      modifies Repr(), chosen
      ensures Linked() && ChosenOk(f) && |pool.fs| >= |old(pool.fs)| && |pool.lists| == |old(pool.lists)|
      ensures SameChains(units, old(pool.items), pool.items)
      ensures forall k | 0 <= k < units && k != f :: pool.lists[k] == old(pool.lists)[k] && chosen[k] == old(chosen[k])
      ensures !bypass ==> chosen[f] == At(pool.lists[f], 0) && (chosen[f] != null ==> Live(chosen[f].data, stations))
    {
      if !bypass {
        chosen[f] := NextValid(f);
      }
    }

    /** One turn of the loop of `issue_stage`: the candidate is issued if its unit is free, and the next
        link is chosen. */
    method IssueUnit(f: nat, unitFree: bool, when: nat) returns (issued: Option<nat>)
      requires Held() && f < units && pool.fs != []
      modifies this`stations, Repr(), chosen
      ensures Held() && |pool.fs| >= |old(pool.fs)| && SameChains(units, old(pool.items), pool.items)
      ensures issued.None? ==> stations == old(stations)
      ensures issued.Some? ==> unitFree && IssuedNow(f, old(stations), stations, issued.value)
      ensures !bypass ==> (issued.Some? <==> unitFree && old(chosen[f] != null && Live(chosen[f].data, stations)))
      ensures !bypass ==> chosen[f] == At(pool.lists[f], 0) && (chosen[f] != null ==> Live(chosen[f].data, stations))
    {
      hide Good, LinkPool.Valid;
      assert ChosenOk(f);
      issued := None;
      var node := Candidate(f);
      if node != null && unitFree {
        var r := IssueNode(f, node, when);
        issued := Some(r);
      }
      ChooseNext(f);
      OthersChosenKept(f);
    }

    twostate lemma OthersChosenKept(f: nat)
      requires old(Held()) && Linked() && |old(pool.lists)| == |pool.lists| && f < units
      requires forall g | 0 <= g < units && g != f :: chosen[g] == old(chosen[g]) && pool.lists[g] == old(pool.lists)[g]
      requires ChosenOk(f)
      ensures Held()
    {
      forall g | 0 <= g < units && g != f
        ensures ChosenOk(g)
      {
        assert old(ChosenOk(g));
      }
    }

    /** The loop of `issue_stage`, over all units. */
    method IssueAll(unitFree: seq<bool>, when: seq<nat>) returns (issued: set<nat>)
      requires Held() && |unitFree| == |when| == units && pool.fs != []
      modifies this`stations, Repr(), chosen
      ensures Held() && |pool.fs| >= |old(pool.fs)| && SameChains(units, old(pool.items), pool.items)
      ensures AllIssued(old(stations), stations, issued, unitFree, units)
    {
      issued := {};
      var f := 0;
      while f < units
        invariant f <= units && Held() && |pool.fs| >= |old(pool.fs)|
        invariant SameChains(units, old(pool.items), pool.items)
        invariant AllIssued(old(stations), stations, issued, unitFree, f)
      {
        var one := IssueUnit(f, unitFree[f], when[f]);
        if one.Some? {
          issued := issued + {one.value};
        }
        f := f + 1;
      }
    }

    /** `issue_stage`.  No instruction is issued twice, or before its operands are ready. */
    method IssueStage(unitFree: seq<bool>, when: seq<nat>) returns (issued: set<nat>)
      requires Valid() && |unitFree| == |when| == units && pool.fs != []
      modifies this`stations, Repr(), chosen
      ensures Valid() && |pool.fs| >= |old(pool.fs)| && |stations| == |old(stations)|
      ensures forall r | 0 <= r < |stations| ::
                stations[r] == if r in issued then Started(old(stations)[r]) else old(stations)[r]
      ensures forall r | r in issued ::
                r < |stations| && OperandsReady(old(stations)[r]) && old(stations)[r].queued && !old(stations)[r].issued
                && old(stations)[r].fu < units && unitFree[old(stations)[r].fu]
    {
      issued := IssueAll(unitFree, when);
      AllKept(None);
    }

    // -------------------------------------------------------------- decode and map

    /** The list of the dependants of result `o` of instruction `r`. */
    function Chain(r: nat, o: nat): (c: nat)
      requires o < RESULTS
      ensures c > units && Creator(units, c) == r
    {
      ChainOf(units, r, o)
    }

    /** `r` is being decoded: it is the youngest, and its results are not known yet. */
    ghost predicate Decoding(r: nat)
      reads this`stations, this`create
    {
      && r < |stations| && stations[r].used && !stations[r].mapped && !Done(stations[r])
      && stations[r].specLevel == |create| - 1 && stations[r].onames == [None, None]
      && forall q | 0 <= q < |stations| && q != r && stations[q].used :: stations[q].seqNo < stations[r].seqNo
    }

    /** A record that is not in use is taken, with every operand ready for now. */
    method Enter(r: nat, seqNo: nat, mem: bool, ctrl: bool)
      requires Valid() && r < |stations| && !stations[r].used && nextSeq <= seqNo
      modifies this`stations, this`decoded, this`nextSeq
      ensures Valid() && Decoding(r) && decoded == old(decoded) + [r] && stations == old(stations)[r := stations[r]]
      ensures stations[r]
                == Station(true, seqNo, old(stations)[r].tag, |create| - 1, mem, ctrl, 0, false, false, false, false,
                           false, [true, true, true], [None, None])
    {
      var s := Station(true, seqNo, stations[r].tag, |create| - 1, mem, ctrl, 0, false, false, false, false, false,
                       [true, true, true], [None, None]);
      hide Good, Traced, Open, LinkPool.Valid;
      DecodeGood(units, pool.items, stations, r, s);
      OpenIdle(units, pool.items, stations, r, s);
      EnteredTraced(roq, decoded, nextSeq, entries, create, regs, stations, r, s);
      stations := stations[r := s];
      decoded := decoded + [r];
      nextSeq := seqNo + 1;
    }

    /** The creator of an operand, if its value is still to come (`CREATE_VECTOR`). */
    function Source(name: Option<nat>): (cv: Option<CvLink>)
      requires create != [] && (name.Some? ==> name.value < |create[|create| - 1]|)
      reads this`create
    {
      if name.None? then None else create[|create| - 1][name.value]
    }

    /** The link is in the chain of the creator, if there is one. */
    ghost predicate InChain(cv: Option<CvLink>, link: Item)
      reads pool
    {
      cv.Some? ==>
        && cv.value.o < RESULTS && Chain(cv.value.rs, cv.value.o) < |pool.items|
        && link in pool.items[Chain(cv.value.rs, cv.value.o)]
    }

    /** The link of operand `n` goes to the front of chain `c`. */
    method LinkTo(r: nat, n: nat, c: nat)
      requires Held() && r < |stations| && stations[r].used && !stations[r].mapped && pool.fs != []
      requires n < OPERANDS && |stations[r].ready| == OPERANDS && stations[r].ready[n]
      requires units < c < |pool.items| && Creator(units, c) < |stations| && stations[Creator(units, c)].used
      requires stations[Creator(units, c)].seqNo < stations[r].seqNo
      modifies this`stations, Repr()
      ensures Held() && |pool.fs| == |old(pool.fs)| - 1
      ensures stations == old(stations)[r := old(stations)[r].(ready := old(stations)[r].ready[n := false])]
      ensures pool.items
                == old(pool.items)[c := Spliced(old(pool.items)[c], 0, Item(r, stations[r].tag, n))]
    {
      assert pool.ListOk(c);
      LinkGood(units, pool.items, stations, r, n, c);
      var s := stations[r];
      pool.InsertNew(c, null, 0, Item(r, s.tag, n));
      stations := stations[r := s.(ready := s.ready[n := false])];
      ChosenKept();
    }

    /** `roq_link_idep`: if the value of operand `n` is still to come, a link for it goes to the front of
        its creator's chain.  The creator is older, and has not completed. */
    method LinkOperand(r: nat, n: nat, name: Option<nat>)
      requires Valid() && Decoding(r) && (name.Some? ==> name.value < regs) && pool.fs != []
      requires n < OPERANDS && |stations[r].ready| == OPERANDS && stations[r].ready[n]
      modifies this`stations, Repr()
      ensures Valid() && Decoding(r) && |pool.fs| >= |old(pool.fs)| - 1
      ensures stations
                == old(stations)[r := old(stations)[r].(ready := old(stations)[r].ready[n := Source(name).None?])]
      ensures Source(name).Some? ==>
                var cv, its := Source(name).value, old(pool.items);
                && cv.o < RESULTS && Chain(cv.rs, cv.o) < |its|
                && pool.items == its[Chain(cv.rs, cv.o) :=
                                       Spliced(its[Chain(cv.rs, cv.o)], 0, Item(r, stations[r].tag, n))]
      ensures Source(name).None? ==> pool.items == old(pool.items)
    {
      hide Good, Traced, Open, LinkPool.Valid, Creator, SameIdentity, SameCreators;
      if Source(name).Some? {
        var cv := Source(name).value;
        SourceOlder(r, name.value);
        LinkTo(r, n, Chain(cv.rs, cv.o));
        ReadyIdentity(old(stations), r, stations[r].ready);
        OpenLinked(units, old(pool.items), pool.items, old(stations), stations, cv.rs, cv.o);
        TracedSame(roq, decoded, nextSeq, entries, create, regs, old(stations), None, stations);
      } else {
        assert stations[r].ready[n := true] == stations[r].ready;
      }
    }

    /** The creator that the create vector names is an older instruction that has not completed. */
    lemma SourceOlder(r: nat, name: nat)
      requires Valid() && Decoding(r) && name < regs && create[|create| - 1][name].Some?
      ensures var cv := create[|create| - 1][name].value;
              && cv.rs < |stations| && cv.rs != r && cv.o < RESULTS && stations[cv.rs].used && !Done(stations[cv.rs])
              && stations[cv.rs].seqNo < stations[r].seqNo
              && |stations[cv.rs].onames| == RESULTS && stations[cv.rs].onames[cv.o] == Some(name)
    {
      assert LinkOk(create[|create| - 1][name].value, |create| - 1, name, stations, None);
    }

    /** `roq_install_odep`: the result of `r` will be the value of its register. */
    method InstallResult(r: nat, o: nat, name: Option<nat>)
      requires Valid() && r < |stations| && stations[r].used && !Done(stations[r]) && o < RESULTS
      requires stations[r].specLevel == |create| - 1 && stations[r].onames[o] == None
      requires name.Some? ==> name.value < regs
      modifies this`stations, this`create
      ensures Valid() && stations == old(stations)[r := old(stations)[r].(onames := old(stations)[r].onames[o := name])]
      ensures create == Installed(old(create), r, o, name)
      ensures pool.items[Chain(r, o)] == []
    {
      hide Good, Open, LinkPool.Valid;
      NothingWaits(units, pool.items, stations, None, r, o);
      var s := stations[r].(onames := stations[r].onames[o := name]);
      RenamedGood(units, pool.items, stations, r, s);
      InstalledTraced(roq, decoded, nextSeq, entries, create, regs, stations, r, o, name);
      OpenNamed(units, pool.items, stations, r, o, name);
      stations := stations[r := s];
      create := Installed(create, r, o, name);
    }

    /** All operands are looked up. */
    method LinkOperands(r: nat, ins: seq<Option<nat>>)
      requires Valid() && Decoding(r) && OPERANDS <= |pool.fs| && stations[r].ready == [true, true, true]
      requires |ins| == OPERANDS && (forall n | 0 <= n < OPERANDS :: ins[n].Some? ==> ins[n].value < regs)
      modifies this`stations, Repr()
      ensures Valid() && Decoding(r) && |old(pool.fs)| - OPERANDS <= |pool.fs|
      ensures stations == old(stations)[r := old(stations)[r].(ready := stations[r].ready)]
      ensures |stations[r].ready| == OPERANDS
      ensures forall n | 0 <= n < OPERANDS :: stations[r].ready[n] <==> Source(ins[n]).None?
      ensures forall n | 0 <= n < OPERANDS :: InChain(Source(ins[n]), Item(r, stations[r].tag, n))
      ensures SameQueues(units, old(pool.items), pool.items)
    {
      hide Good, Traced, Open, LinkPool.Valid;
      var n := 0;
      ghost var st := stations;
      while n < OPERANDS
        invariant n <= OPERANDS && Valid() && Decoding(r) && |old(pool.fs)| - n <= |pool.fs|
        invariant r < |st| == |stations| && stations == st[r := st[r].(ready := stations[r].ready)]
        invariant |stations[r].ready| == OPERANDS
        invariant forall m | 0 <= m < OPERANDS :: stations[r].ready[m] <==> m >= n || Source(ins[m]).None?
        invariant forall m | 0 <= m < n :: InChain(Source(ins[m]), Item(r, stations[r].tag, m))
        invariant SameQueues(units, old(pool.items), pool.items)
        decreases OPERANDS - n
      {
        LinkOperand(r, n, ins[n]);
        n := n + 1;
      }
    }

    /** `decode_stage` for one instruction: its operands are looked up in the create vector of the present
        level, and its results entered there. */
    method Decode(r: nat, seqNo: nat, mem: bool, ctrl: bool, ins: seq<Option<nat>>, outs: seq<Option<nat>>)
      requires Valid() && r < |stations| && !stations[r].used && nextSeq <= seqNo && OPERANDS <= |pool.fs|
      requires |ins| == OPERANDS && (forall n | 0 <= n < OPERANDS :: ins[n].Some? ==> ins[n].value < regs)
      requires |outs| == RESULTS && (forall o | 0 <= o < RESULTS :: outs[o].Some? ==> outs[o].value < regs)
      modifies this`stations, this`decoded, this`nextSeq, this`create, Repr()
      ensures Valid() && |old(pool.fs)| - OPERANDS <= |pool.fs| && decoded == old(decoded) + [r]
      ensures |stations| == |old(stations)| && stations == old(stations)[r := stations[r]]
      ensures stations[r]
                == Station(true, seqNo, old(stations)[r].tag, |create| - 1, mem, ctrl, 0, false, false, false, false,
                           false, stations[r].ready, outs)
      ensures |stations[r].ready| == OPERANDS
      ensures forall n | 0 <= n < OPERANDS :: stations[r].ready[n] <==> old(Source(ins[n])).None?
      ensures forall n | 0 <= n < OPERANDS :: InChain(old(Source(ins[n])), Item(r, stations[r].tag, n))
      ensures SameQueues(units, old(pool.items), pool.items)
      ensures create == Installed(Installed(old(create), r, 0, outs[0]), r, 1, outs[1])
    {
      hide Good, Traced, Open, LinkPool.Valid;
      Enter(r, seqNo, mem, ctrl);
      LinkOperands(r, ins);
      InstallResult(r, 0, outs[0]);
      InstallResult(r, 1, outs[1]);
      assert stations[r].onames == outs;
    }

    /** After the delay slot of a mispredicted branch, or after a likely branch, the next instructions are
        of another level (`prepare_level`). */
    method EnterSpeculation()
      requires Valid() && 0 < nextSeq
      modifies this`create, this`entries
      ensures Valid() && create == old(create) + [old(create)[|old(create)| - 1]]
      ensures entries == old(entries) + [nextSeq as int - 1]
    {
      hide Good, Open, LinkPool.Valid;
      LevelCopied(create, regs, stations);
      create := create + [create[|create| - 1]];
      entries := entries + [nextSeq as int - 1];
    }

    /** `readyq_enqueue`, when nothing is missing. */
    method EnqueueIf(ready: bool, f: nat, link: Item)
      requires pool.Valid() && f < |pool.lists| && (ready ==> pool.fs != [])
      modifies Repr()
      ensures pool.Valid() && |pool.lists| == |old(pool.lists)|
      ensures pool.items == if ready then Enqueued(old(pool.items), f, link) else old(pool.items)
      ensures forall k, l | 0 <= k < |pool.lists| && l in old(pool.lists)[k] :: l in pool.lists[k]
    {
      if ready {
        InsertSorted(f, link);
      }
    }

    /** The links of an instruction that is mapped. */
    method MapLinks(r: nat, fu: nat)
      requires Held() && r < |stations| && stations[r].used && !stations[r].mapped && fu < units
      requires OperandsReady(stations[r]) ==> pool.fs != []
      modifies this`stations, Repr()
      ensures Held() && stations == old(stations)[r := MappedTo(old(stations)[r], fu)]
      ensures var s := MappedTo(old(stations)[r], fu);
              pool.items
                == if OperandsReady(s) then Enqueued(old(pool.items), fu, ReadyLink(r, s)) else old(pool.items)
    {
      hide Good;
      MapGood(units, pool.items, stations, r, fu);
      var s := MappedTo(stations[r], fu);
      EnqueueIf(OperandsReady(s), fu, ReadyLink(r, s));
      stations := stations[r := s];
      ChosenKept();
    }

    /** `map_stage` for one instruction, the oldest decoded one: it gets its unit, and is queued at once
        when nothing is missing. */
    method Map(fu: nat)
      requires Valid() && decoded != [] && fu < units
      requires decoded[0] < |stations| && (OperandsReady(stations[decoded[0]]) ==> pool.fs != [])
      modifies this`stations, this`roq, this`decoded, Repr()
      ensures Valid() && roq == old(roq) + [old(decoded)[0]] && decoded == old(decoded)[1..]
      ensures var r := old(decoded)[0];
              var s := MappedTo(old(stations)[r], fu);
              && stations == old(stations)[r := s]
              && pool.items
                 == if OperandsReady(s) then Enqueued(old(pool.items), fu, ReadyLink(r, s)) else old(pool.items)
    {
      hide Good, Traced, Open, LinkPool.Valid;
      MappedTraced(roq, decoded, nextSeq, entries, create, regs, stations, fu);
      var r := decoded[0];
      MapLinks(r, fu);
      roq, decoded := roq + [r], decoded[1..];
      OpenKept(units, old(pool.items), pool.items, old(stations), stations, None, None);
    }

    // -------------------------------------------------------------- write back

    /** The first link of chain `c` is freed, after the instruction has been put in its ready queue if
        nothing is missing any more. */
    method PassOn(c: nat, ready: bool, f: nat, link: Item)
      requires pool.Valid() && units < c < |pool.items| && pool.lists[c] != [] && pool.fs != []
      requires ready ==> f < units
      modifies Repr()
      ensures pool.Valid() && |pool.fs| >= |old(pool.fs)| && |old(pool.items)[c]| == |old(pool.lists)[c]|
      ensures var its := if ready then Enqueued(old(pool.items), f, link) else old(pool.items);
              pool.items == its[c := Without(old(pool.items)[c], 0)]
      ensures |pool.lists| == |old(pool.lists)|
      ensures forall k, l | 0 <= k < units && l in old(pool.lists)[k] :: l in pool.lists[k]
    {
      assert pool.ListOk(c);
      if ready {
        InsertSorted(f, link);
      }
      assert pool.ListOk(c) && Without(pool.items[c], 0) == pool.items[c][1..];
      pool.FreeFirst(c);
    }

    /** A live link of a chain: its operand was not ready, so the panic of `writeback_stage` does not
        happen. */
    method WakeLive(c: nat, x: Item)
      requires Held() && units < c < |pool.items| && pool.lists[c] != [] && pool.fs != []
      requires pool.items[c] != [] && x == pool.items[c][0] && Live(x, stations)
      modifies this`stations, Repr()
      ensures Held() && |pool.fs| >= |old(pool.fs)| && |pool.items| == |old(pool.items)|
      ensures ChainsBut(units, old(pool.items), pool.items, c)
      ensures pool.items[c] == Without(old(pool.items)[c], 0) && pool.items[units] == old(pool.items)[units]
      ensures x.x < |old(stations)[x.rs].ready| && !old(stations)[x.rs].ready[x.x]
      ensures stations == old(stations)[x.rs := Filled(old(stations)[x.rs], x.x)]
    {
      hide Good;
      WakeGood(units, pool.items, stations, c);
      var s := stations[x.rs];
      assert !s.ready[x.x];
      s := s.(ready := s.ready[x.x := true]);
      var ready := OperandsReady(s) && s.mapped;
      if ready {
        s := s.(queued := true);
      }
      PassOn(c, ready, s.fu, Item(x.rs, s.tag, s.seqNo));
      stations := stations[x.rs := s];
      ChosenKept();
    }

    lemma ListHead(q: nat)
      requires Linked() && q < |pool.items|
      ensures |pool.lists| == |pool.items| == pool.heads.Length && |pool.items[q]| == |pool.lists[q]|
      ensures pool.heads[q] == null <==> pool.items[q] == []
      ensures pool.heads[q] != null ==>
                && pool.heads[q].data == pool.items[q][0] && pool.heads[q].data.rs < |stations|
    {
      assert pool.ListOk(q);
      if pool.items[q] != [] {
        assert ItemOk(units, q, pool.items[q][0], stations);
      }
    }

    /** The first link of a chain is followed and freed. */
    method WakeFirst(c: nat)
      requires Held() && units < c < |pool.items| && pool.lists[c] != [] && pool.fs != []
      modifies this`stations, Repr()
      ensures Held() && |pool.fs| >= |old(pool.fs)| && |pool.items| == |old(pool.items)|
      ensures ChainsBut(units, old(pool.items), pool.items, c)
      ensures |old(pool.items)[c]| == |old(pool.lists)[c]| && pool.items[c] == old(pool.items)[c][1..]
      ensures pool.items[units] == old(pool.items)[units]
      ensures |pool.items[c]| == |pool.lists[c]| && (pool.heads[c] == null <==> pool.items[c] == [])
      ensures SameInstructions(old(stations), stations)
      ensures var x := old(pool.items)[c][0];
              Live(x, old(stations)) ==> x.x < |stations[x.rs].ready| && stations[x.rs].ready[x.x]
    {
      hide Good, LinkPool.Valid;
      ListHead(c);
      assert pool.items[c][1..] == Without(pool.items[c], 0);
      var x := pool.heads[c].data;
      if x.tag == stations[x.rs].tag {
        ghost var st := stations;
        WakeLive(c, x);
        FilledSame(st, x.rs, x.x);
      } else {
        DropFirst(c);
        ChosenKept();
      }
      ListHead(c);
    }

    /** The loop over one chain in `writeback_stage`.  Every operand that waited for the result becomes
        ready. */
    method WakeChain(r: nat, o: nat)
      requires Held() && r < |stations| && o < RESULTS && pool.fs != []
      modifies this`stations, Repr()
      ensures Held() && |pool.fs| >= |old(pool.fs)| && |pool.items| == |old(pool.items)|
      ensures ChainsBut(units, old(pool.items), pool.items, Chain(r, o))
      ensures pool.items[Chain(r, o)] == [] && SameInstructions(old(stations), stations)
      ensures var xs := old(pool.items)[Chain(r, o)]; AllFilled(xs, |xs|, old(stations), stations)
      ensures pool.items[units] == old(pool.items)[units]
    {
      var c := Chain(r, o);
      ghost var xs, st, i := pool.items[c], stations, 0;
      assert pool.ListOk(c);
      while pool.heads[c] != null
        invariant Held() && |pool.fs| >= |old(pool.fs)| && |pool.items| == |old(pool.items)|
        invariant i <= |xs| && pool.items[c] == xs[i..] && pool.items[units] == old(pool.items)[units]
        invariant |pool.lists[c]| == |xs| - i && (pool.heads[c] == null <==> i == |xs|)
        invariant ChainsBut(units, old(pool.items), pool.items, c)
        invariant SameInstructions(st, stations) && AllFilled(xs, i, st, stations)
        decreases |xs| - i
      {
        ghost var before := stations;
        WakeFirst(c);
        AllFilledStep(xs, i, st, before, stations);
        i := i + 1;
      }
    }

    /** `eventq_next_event`: events that are due are taken off until one belongs to an instruction that
        is still there.  That instruction has completed now; what `writeback_stage` checks before it says
        so holds. */
    method NextEvent(now: nat) returns (found: Option<nat>)
      requires Valid()
      modifies this`stations, Repr()
      ensures ValidBut(found) && |pool.fs| >= |old(pool.fs)|
      ensures |pool.items[units]| <= |old(pool.items)[units]|
      ensures Progress(units, old(pool.items), old(stations), pool.items, stations)
      ensures found.Some? ==>
                && CompletedNow(old(stations), stations, found.value) && pool.fs != []
                && |pool.items[units]| < |old(pool.items)[units]|
      ensures found.None? ==>
                stations == old(stations) && forall j | 0 <= j < |pool.items[units]| :: pool.items[units][j].x > now
    {
      hide Good, Traced, Open, Progress, LinkPool.Valid;
      found := None;
      ghost var its, st := pool.items, stations;
      NoProgress(units, its, st);
      EventHead();
      while pool.heads[units] != null && pool.heads[units].data.x <= now
        invariant Valid() && |pool.fs| >= |old(pool.fs)| && stations == st
        invariant units < pool.heads.Length && |pool.items[units]| <= |its[units]|
        invariant Progress(units, its, st, pool.items, stations)
        decreases |pool.items[units]|
      {
        EventHead();
        ghost var its1 := pool.items;
        EventTaken(units, its1, st);
        var x := pool.heads[units].data;
        if x.tag == stations[x.rs].tag {
          TakeEvent();
          found := Some(x.rs);
          ProgressTwice(units, its, st, its1, st, pool.items, stations);
          return;
        }
        DropEvent();
        ProgressTwice(units, its, st, its1, st, pool.items, stations);
      }
      EventHead();
    }

    /** The head of the event queue is its first event. */
    lemma EventHead()
      requires Linked()
      ensures |pool.lists| == |pool.items| == pool.heads.Length == units + 1 + RESULTS * |stations|
      ensures |pool.items[units]| == |pool.lists[units]|
      ensures pool.heads[units] == null <==> pool.items[units] == []
      ensures pool.heads[units] != null ==>
                && pool.heads[units].data == pool.items[units][0] && pool.heads[units].data.rs < |stations|
      ensures forall j | 0 <= j < |pool.items[units]| :: pool.items[units][0].x <= pool.items[units][j].x
    {
      ListHead(units);
      assert Sorted(pool.items[units]);
    }

    /** The first event is that of a squashed instruction. */
    method DropEvent()
      requires Valid() && units < |pool.lists| && pool.lists[units] != []
      requires |pool.items[units]| == |pool.lists[units]| && !Live(pool.items[units][0], stations)
      modifies Repr()
      ensures Valid() && |pool.fs| == |old(pool.fs)| + 1
      ensures pool.items == old(pool.items)[units := old(pool.items)[units][1..]]
    {
      hide Good, Traced, Open;
      DropFirst(units);
      ChosenKept();
      AllKept(None);
    }

    /** The first event is unlinked and its link freed, and its instruction has completed. */
    method TakeEvent()
      requires Valid() && units < |pool.lists| && pool.lists[units] != []
      requires |pool.items[units]| == |pool.lists[units]| && Live(pool.items[units][0], stations)
      modifies this`stations, Repr()
      ensures ValidBut(Some(old(pool.items)[units][0].rs)) && |pool.fs| == |old(pool.fs)| + 1
      ensures CompletedNow(old(stations), stations, old(pool.items)[units][0].rs)
      ensures pool.items == old(pool.items)[units := old(pool.items)[units][1..]]
    {
      hide Good, Traced, Open;
      assert pool.ListOk(units);
      var r := pool.heads[units].data.rs;
      EventDoneGood(units, pool.items, stations);
      assert Without(pool.items[units], 0) == pool.items[units][1..];
      pool.FreeFirst(units);
      stations := stations[r := Finished(stations[r])];
      ChosenKept();
      FinishedTraced(roq, decoded, nextSeq, entries, create, regs, old(stations), r, stations);
      OpenKept(units, old(pool.items), pool.items, old(stations), stations, None, Some(r));
    }

    /** The loop over the levels in `update_create_vector`, which stops at the first entry that is another
        one. */
    method Clear(link: CvLink, start: nat, name: nat) returns (stop: nat)
      requires Vectors() && start <= |create| && name < regs
      modifies this`create
      ensures Vectors() && |create| == |old(create)| && start <= stop <= |create|
      ensures stop < |create| ==> old(create)[stop][name] != Some(link)
      ensures forall l | start <= l < stop :: old(create)[l][name] == Some(link)
      ensures forall l | 0 <= l < |create| ::
                create[l] == if start <= l < stop then old(create)[l][name := None] else old(create)[l]
    {
      ghost var was := create;
      stop := start;
      while stop < |create| && create[stop][name] == Some(link)
        invariant Vectors() && start <= stop <= |create| == |was|
        invariant forall l | start <= l < stop :: was[l][name] == Some(link)
        invariant forall l | 0 <= l < |was| :: create[l] == if start <= l < stop then was[l][name := None] else was[l]
        decreases |was| - stop
      {
        create := create[stop := create[stop][name := None]];
        stop := stop + 1;
      }
    }

    /** The entries for result `o` of `r` go. */
    method Forget(r: nat, o: nat)
      requires ValidBut(Some(r)) && r < |stations| && stations[r].used && o < RESULTS
      modifies this`create
      ensures ValidBut(Some(r)) && Forgotten(old(create), create, r, o)
    {
      hide Good, Open, LinkPool.Valid, InOrder, Levels;
      ghost var was := create;
      if stations[r].onames[o].None? {
        NoneForgotten(create, regs, stations, Some(r), r, o);
        return;
      }
      var name, start := stations[r].onames[o].value, stations[r].specLevel;
      LevelExists(r);
      var stop := Clear(CvLink(r, o), start, name);
      ClearedForgotten(was, create, regs, stations, Some(r), r, o, name, stop);
      ForgottenOk(was, create, regs, stations, Some(r), r, o);
    }

    lemma LevelExists(r: nat)
      requires Levels(stations, nextSeq, entries) && r < |stations| && stations[r].used
      ensures stations[r].specLevel <= |entries|
    {
    }

    /** `update_create_vector`: later instructions find the results of `r` in the registers. */
    method UpdateCreateVector(r: nat)
      requires ValidBut(Some(r)) && r < |stations| && stations[r].used
      modifies this`create
      ensures ValidBut(Some(r)) && Unnamed(create, r)
      ensures |create| == |old(create)|
      ensures forall l, n | 0 <= l < |create| && 0 <= n < regs ::
                create[l][n] == if Names(old(create)[l][n], r) then None else old(create)[l][n]
    {
      ghost var was := create;
      Forget(r, 0);
      ghost var half := create;
      Forget(r, 1);
      ForgottenUnnamed(was, half, create, regs, stations, Some(r), r);
    }

    /** Result `o` of `r` is passed on, if it has one. */
    method PassResult(r: nat, o: nat)
      requires ValidBut(Some(r)) && r < |stations| && stations[r].used && o < RESULTS && pool.fs != []
      modifies this`stations, this`create, Repr()
      ensures ValidBut(Some(r)) && |pool.fs| >= |old(pool.fs)| && SameInstructions(old(stations), stations)
      ensures Shrunk(units, old(pool.items), pool.items) && pool.items[Chain(r, o)] == []
      ensures pool.items[units] == old(pool.items)[units]
      ensures Progress(units, old(pool.items), old(stations), pool.items, stations)
      ensures stations[r].onames[o].Some? || Unnamed(old(create), r) ==> Unnamed(create, r)
    {
      hide Good, Traced, Open, Progress, AllFilled, LinkPool.Valid;
      TracedNamed(roq, decoded, nextSeq, entries, create, regs, stations, Some(r), r);
      if stations[r].onames[o].Some? {
        UpdateCreateVector(r);
        label Updated:
        WakeChain(r, o);
        WokenProgress(units, old(pool.items), old(stations), Chain(r, o), pool.items, stations);
        AllKept@Updated(Some(r));
      } else {
        NothingWaits(units, pool.items, stations, Some(r), r, o);
        NoProgress(units, pool.items, stations);
      }
    }

    /** `writeback_stage` for one instruction: its results are passed on, and it has no dependants and no
        entries in the create vectors any more. */
    method Broadcast(r: nat)
      requires ValidBut(Some(r)) && r < |stations| && stations[r].used && pool.fs != []
      modifies this`stations, this`create, Repr()
      ensures Valid() && |pool.fs| >= |old(pool.fs)| && pool.items[units] == old(pool.items)[units]
      ensures Progress(units, old(pool.items), old(stations), pool.items, stations)
      ensures Unnamed(create, r) && forall o | 0 <= o < RESULTS :: pool.items[Chain(r, o)] == []
    {
      hide Good, Traced, Open, LinkPool.Valid;
      ghost var its, st := pool.items, stations;
      PassResult(r, 0);
      ghost var its1, st1 := pool.items, stations;
      PassResult(r, 1);
      ProgressTwice(units, its, st, its1, st1, pool.items, stations);
      Settled(r);
    }

    /** All results of `r` have been passed on. */
    lemma Settled(r: nat)
      requires ValidBut(Some(r)) && r < |stations| && stations[r].used
      requires pool.items[Chain(r, 0)] == [] && pool.items[Chain(r, 1)] == []
      requires forall o | 0 <= o < RESULTS && stations[r].onames[o].Some? :: Unnamed(create, r)
      ensures Valid() && Unnamed(create, r)
    {
      if stations[r].onames == [None, None] {
        NothingToName(create, regs, stations, Some(r), r);
      }
      VectorSettled(create, regs, stations, r);
      OpenAbout(units, pool.items, stations, Some(r), r, stations[r]);
      assert stations[r := stations[r]] == stations;
    }

    /** `writeback_stage`: every event that is due completes its instruction, and whoever waits for a
        completed instruction has the operand now. */
    method WritebackStage(now: nat)
      requires Valid()
      modifies this`stations, this`create, Repr()
      ensures Valid() && |pool.fs| >= |old(pool.fs)| && Advanced(old(stations), stations)
      ensures |pool.items| == |old(pool.items)|
      ensures forall j | 0 <= j < |pool.items[units]| :: pool.items[units][j].x > now
      ensures var xs := old(pool.items)[units];
              forall i | 0 <= i < |xs| && Live(xs[i], old(stations)) && xs[i].x <= now :: DoneNow(xs[i], stations)
      ensures var its := old(pool.items);
              forall k, i | units < k < |its| && 0 <= i < |its[k]| && Live(its[k][i], old(stations))
                && Done(stations[Creator(units, k)]) :: ReadyNow(its[k][i], stations)
    {
      hide Good, Traced, Open, LinkPool.Valid;
      ghost var its, st := pool.items, stations;
      NoProgress(units, its, st);
      var found := NextEvent(now);
      while found.Some?
        invariant ValidBut(found) && |pool.fs| >= |old(pool.fs)| && Progress(units, its, st, pool.items, stations)
        invariant found.Some? ==> found.value < |stations| && stations[found.value].used && pool.fs != []
        invariant found.None? ==> forall j | 0 <= j < |pool.items[units]| :: pool.items[units][j].x > now
        decreases |pool.items[units]|, found.Some?
      {
        ghost var its1, st1 := pool.items, stations;
        Broadcast(found.value);
        ProgressTwice(units, its, st, its1, st1, pool.items, stations);
        ghost var its2, st2 := pool.items, stations;
        found := NextEvent(now);
        ProgressTwice(units, its, st, its2, st2, pool.items, stations);
      }
      AllServed(its, st, now);
    }

    lemma AllServed(its: seq<seq<Item>>, st: seq<Station>, now: nat)
      requires Valid() && Progress(units, its, st, pool.items, stations)
      requires forall j | 0 <= j < |pool.items[units]| :: pool.items[units][j].x > now
      ensures forall i | 0 <= i < |its[units]| && Live(its[units][i], st) && its[units][i].x <= now ::
                DoneNow(its[units][i], stations)
      ensures forall k | units < k < |its| :: Creator(units, k) < |stations|
      ensures forall k, i | units < k < |its| && 0 <= i < |its[k]| && Live(its[k][i], st)
                && Done(stations[Creator(units, k)]) :: ReadyNow(its[k][i], stations)
    {
      forall k | units < k < |its|
        ensures Creator(units, k) < |stations| && (Done(stations[Creator(units, k)]) ==> pool.items[k] == [])
      {
        var r, o := Creator(units, k), (k - units - 1) % RESULTS;
        assert k == Chain(r, o);
        assert OpenAt(units, pool.items, stations, None, r, o);
      }
      ServedAll(units, its, st, pool.items, stations, now);
    }

    /** `check_brq`: a branch that has been resolved is completed. */
    method ResolveBranch(r: nat)
      requires Valid() && r < |stations| && stations[r].used && stations[r].brcompleted
      modifies this`stations
      ensures Valid()
      ensures stations == old(stations)[r := old(stations)[r].(brcompleted := false, completed := true)]
    {
      var s := stations[r].(brcompleted := false, completed := true);
      hide Good, Traced, Open, LinkPool.Valid;
      RenamedGood(units, pool.items, stations, r, s);
      stations := stations[r := s];
      AllKept(None);
    }

    // -------------------------------------------------------------- commit

    /** `commit_stage`: the oldest instruction goes when it has completed.  Nothing is left in its chains,
        as the source checks. */
    method Retire()
      requires Valid() && roq != [] && roq[0] < |stations| && stations[roq[0]].completed
      modifies this`stations, this`roq
      ensures Valid() && roq == old(roq)[1..]
      ensures forall o | 0 <= o < RESULTS :: pool.items[Chain(old(roq)[0], o)] == []
      ensures stations == old(stations)[old(roq)[0] := Gone(old(stations)[old(roq)[0]])]
    {
      hide Good, Traced, Open, LinkPool.Valid;
      var r := roq[0];
      var s := Gone(stations[r]);
      OpenIdle(units, pool.items, stations, r, s);
      OnlyChains(units, pool.items, stations, r);
      GoneGood(units, pool.items, stations, r, s);
      RetiredTraced(roq, decoded, nextSeq, entries, create, regs, stations);
      stations := stations[r := s];
      roq := roq[1..];
    }

    // -------------------------------------------------------------- recovery

    /** What holds while instructions younger than `limit` are cancelled. */
    ghost predicate Recovering(limit: int)
      reads this, pool, pool.heads, pool.links, chosen
    {
      && Shape() && AllChosenOk() && GoodTo(units, pool.items, stations, limit)
      && Open(units, pool.items, stations, None) && InOrder(roq, decoded, stations, nextSeq)
    }

    /** Both chains of a younger instruction are freed, with all that is in them. */
    method CutChains(r: nat, ghost limit: int)
      requires Recovering(limit) && r < |stations| && limit < stations[r].seqNo
      modifies Repr()
      ensures Recovering(limit) && |pool.fs| >= |old(pool.fs)|
      ensures pool.items == old(pool.items)[Chain(r, 0) := []][Chain(r, 1) := []]
    {
      hide GoodTo, Open, InOrder;
      CutGood(units, pool.items, stations, limit, Chain(r, 0));
      pool.FreeList(Chain(r, 0));
      CutGood(units, pool.items, stations, limit, Chain(r, 1));
      pool.FreeList(Chain(r, 1));
      ChosenKept();
      OpenKept(units, old(pool.items), pool.items, stations, stations, None, None);
    }

    /** One turn of the loops of `brerr_recover` and `tracer_recover`: a younger instruction goes, which is
        the last of its queue, with its chains.  Live links may be in them, of instructions that are to go
        after it. */
    method CancelOne(r: nat, ghost limit: int)
      requires Recovering(limit) && r < |stations| && limit < stations[r].seqNo
      modifies this`stations, Repr()
      ensures Shape() && AllChosenOk() && GoodTo(units, pool.items, stations, limit)
      ensures Open(units, pool.items, stations, None) && |pool.fs| >= |old(pool.fs)|
      ensures stations == old(stations)[r := Gone(old(stations)[r])]
      ensures pool.items == old(pool.items)[Chain(r, 0) := []][Chain(r, 1) := []]
    {
      CutChains(r, limit);
      var s := Gone(stations[r]);
      OnlyChains(units, pool.items, stations, r);
      CancelGood(units, pool.items, stations, limit, r, s);
      OpenAbout(units, pool.items, stations, None, r, s);
      stations := stations[r := s];
    }

    /** `tracer_recover`: the decode queue is emptied, youngest first. */
    method TracerRecover(ghost limit: int)
      requires Recovering(limit)
      requires forall i | 0 <= i < |decoded| :: decoded[i] < |stations| && limit < stations[decoded[i]].seqNo
      modifies this`stations, this`decoded, Repr()
      ensures Recovering(limit) && decoded == [] && |pool.fs| >= |old(pool.fs)|
      ensures Thinned(old(stations), stations, limit)
      ensures OnlyFreed(units, old(pool.items), pool.items, old(stations), limit)
    {
      hide GoodTo, Open, InOrder, OnlyFreed, LinkPool.Valid;
      ghost var its, st := pool.items, stations;
      NoneFreed(units, its, st, limit);
      while decoded != []
        invariant Recovering(limit) && |pool.fs| >= |old(pool.fs)| && Thinned(st, stations, limit)
        invariant OnlyFreed(units, its, pool.items, st, limit)
        invariant decoded <= old(decoded)
        decreases |decoded|
      {
        var n := |decoded| - 1;
        var r := decoded[n];
        assert r == old(decoded)[n];
        Places(roq, decoded, stations, nextSeq);
        DecodedGone(roq, decoded, stations, nextSeq, Gone(stations[r]));
        ghost var its1, st1 := pool.items, stations;
        CancelOne(r, limit);
        OnlyFreedStep(units, its, its1, pool.items, st, st1, limit, r);
        decoded := decoded[..n];
      }
    }

    /** The reorder queue is emptied down to place `keep`, youngest first. */
    method CancelMapped(keep: nat, ghost limit: int)
      requires Recovering(limit) && keep < |roq| && roq[keep] < |stations| && limit == stations[roq[keep]].seqNo
      modifies this`stations, this`roq, Repr()
      ensures Recovering(limit) && |pool.fs| >= |old(pool.fs)| && roq == old(roq)[..keep + 1]
      ensures Thinned(old(stations), stations, limit)
      ensures OnlyFreed(units, old(pool.items), pool.items, old(stations), limit)
    {
      hide GoodTo, Open, InOrder, OnlyFreed, LinkPool.Valid;
      ghost var its, st := pool.items, stations;
      NoneFreed(units, its, st, limit);
      while |roq| > keep + 1
        invariant Recovering(limit) && |pool.fs| >= |old(pool.fs)| && Thinned(st, stations, limit)
        invariant OnlyFreed(units, its, pool.items, st, limit)
        invariant keep < |roq| && roq <= old(roq)
        decreases |roq|
      {
        var n := |roq| - 1;
        var r := roq[n];
        Places(roq, decoded, stations, nextSeq);
        MappedGone(roq, decoded, stations, nextSeq, Gone(stations[r]));
        ghost var its1, st1 := pool.items, stations;
        CancelOne(r, limit);
        OnlyFreedStep(units, its, its1, pool.items, st, st1, limit, r);
        roq := roq[..n];
      }
    }

    /** Both queues, the reorder queue first. */
    method CancelBoth(keep: nat, ghost limit: int)
      requires Recovering(limit) && keep < |roq| && roq[keep] < |stations| && limit == stations[roq[keep]].seqNo
      modifies this`stations, this`roq, this`decoded, Repr()
      ensures Shape() && AllChosenOk() && Good(units, pool.items, stations) && Open(units, pool.items, stations, None)
      ensures |pool.fs| >= |old(pool.fs)| && roq == old(roq)[..keep + 1] && decoded == []
      ensures InOrder(roq, [], stations, nextSeq) && SquashedAfter(old(stations), stations, limit)
      ensures OnlyFreed(units, old(pool.items), pool.items, old(stations), limit)
    {
      hide Good, GoodTo, Open, InOrder, OnlyFreed, LinkPool.Valid;
      ghost var its, st := pool.items, stations;
      CancelMapped(keep, limit);
      ghost var its1, st1 := pool.items, stations;
      Places(roq, decoded, stations, nextSeq);
      TracerRecover(limit);
      OnlyFreedTwice(units, its, its1, pool.items, st, st1, limit);
      ThinnedTwice(st, st1, stations, limit);
      LastYoungest(roq, stations, nextSeq);
      GoodToAll(units, pool.items, stations, limit);
    }

    /** `brerr_recover`: everything younger than the instruction at place `keep` of the reorder queue is
        cancelled, first in the reorder queue and then in the decode queue.  What follows it is of a deeper
        level, and the levels after its own are given up. */
    method BrerrRecover(keep: nat)
      requires Valid() && keep < |roq| && FollowedDeeper(keep)
      modifies this`stations, this`roq, this`decoded, this`create, this`entries, Repr()
      ensures Valid() && |pool.fs| >= |old(pool.fs)| && roq == old(roq)[..keep + 1] && decoded == []
      ensures var s := old(stations[roq[keep]]);
              && SquashedAfter(old(stations), stations, s.seqNo) && s.specLevel < |old(create)|
              && create == old(create)[..s.specLevel + 1] && entries <= old(entries)
              && OnlyFreed(units, old(pool.items), pool.items, old(stations), s.seqNo)
    {
      hide Good, GoodTo, Traced, Open, InOrder, LinkPool.Valid;
      ghost var limit := stations[roq[keep]].seqNo;
      var level := stations[roq[keep]].specLevel;
      GoodUpTo(units, pool.items, stations, limit);
      TracedInOrder(roq, decoded, nextSeq, entries, create, regs, stations, None);
      assert (roq + decoded)[keep] == roq[keep];
      DeeperFromNext(roq, decoded, stations, nextSeq, entries, keep);
      CancelBoth(keep, limit);
      TracedCut(old(roq), old(decoded), roq, nextSeq, entries, create, regs, old(stations), stations, limit, level);
      create := create[..level + 1];
      entries := entries[..level];
    }

    /** The instruction after the one at place `k` of the reorder queue, in either queue, is of a deeper
        level. */
    ghost predicate FollowedDeeper(k: nat)
      requires k < |roq|
      reads this`roq, this`decoded, this`stations
    {
      var q := roq + decoded;
      q[k] < |stations|
      && (k + 1 < |q| ==> q[k + 1] < |stations| && stations[q[k]].specLevel < stations[q[k + 1]].specLevel)
    }

    // -------------------------------------------------------------- flush

    /** What holds while the pipeline is flushed. */
    ghost predicate Flushing()
      reads this, pool, pool.heads, pool.links, chosen
    {
      Held() && Open(units, pool.items, stations, None) && InOrder(roq, decoded, stations, nextSeq)
    }

    /** A chain whose links are all squashed is freed. */
    method FreeChain(c: nat)
      requires Held() && units < c < |pool.items|
      requires forall i | 0 <= i < |pool.items[c]| :: !Live(pool.items[c][i], stations)
      modifies Repr()
      ensures Held() && |pool.fs| >= |old(pool.fs)| && pool.items == old(pool.items)[c := []]
    {
      FreedGood(units, pool.items, stations, c);
      pool.FreeList(c);
      ChosenKept();
    }

    method FreeBoth(r: nat)
      requires Held() && r < |stations| && ChainsDead(units, pool.items, stations, r)
      modifies Repr()
      ensures Held() && |pool.fs| >= |old(pool.fs)| && ChainsDead(units, pool.items, stations, r)
      ensures pool.items == old(pool.items)[Chain(r, 0) := []][Chain(r, 1) := []]
    {
      ghost var its := pool.items;
      FreedDead(units, its, stations, r, Chain(r, 0));
      FreedDead(units, its[Chain(r, 0) := []], stations, r, Chain(r, 1));
      FreeChain(Chain(r, 0));
      FreeChain(Chain(r, 1));
    }

    /** One turn of the loop of `pipeline_flush`: the youngest instruction goes, its chains are freed and
        its tag changes.  Nothing live is freed, since its dependants would be younger. */
    method Squash() returns (r: nat)
      requires Flushing() && decoded == [] && roq != []
      modifies this`stations, this`roq, Repr()
      ensures Flushing() && |pool.fs| >= |old(pool.fs)| && roq == old(roq)[..|old(roq)| - 1]
      ensures r == old(roq)[|old(roq)| - 1] && r < |old(stations)| && old(stations)[r].used
      ensures ChainsDead(units, old(pool.items), old(stations), r)
      ensures stations == old(stations)[r := Gone(old(stations)[r])]
      ensures pool.items == old(pool.items)[Chain(r, 0) := []][Chain(r, 1) := []]
    {
      hide Good, Open, InOrder, ChainsDead, LinkPool.Valid;
      var n := |roq| - 1;
      r := roq[n];
      LastYoungest(roq, stations, nextSeq);
      YoungestChainsDead(units, pool.items, stations, r);
      FreeBoth(r);
      OpenKept(units, old(pool.items), pool.items, stations, stations, None, None);
      var s := Gone(stations[r]);
      GoneGood(units, pool.items, stations, r, s);
      OpenAbout(units, pool.items, stations, None, r, s);
      MappedGone(roq, decoded, stations, nextSeq, s);
      stations := stations[r := s];
      roq := roq[..n];
    }

    /** The decode queue is emptied first (`tracer_recover`); all of `Good` holds then. */
    method FlushDecoded()
      requires Valid()
      modifies this`stations, this`decoded, Repr()
      ensures Flushing() && decoded == [] && |pool.fs| >= |old(pool.fs)| && Thinned(old(stations), stations, -1)
      ensures OnlyFreed(units, old(pool.items), pool.items, old(stations), -1)
    {
      hide Good, GoodTo, Traced, Open, InOrder, LinkPool.Valid;
      TracedInOrder(roq, decoded, nextSeq, entries, create, regs, stations, None);
      Places(roq, decoded, stations, nextSeq);
      if roq != [] {
        ghost var limit := stations[roq[|roq| - 1]].seqNo;
        GoodUpTo(units, pool.items, stations, limit);
        TracerRecover(limit);
        LastYoungest(roq, stations, nextSeq);
        GoodToAll(units, pool.items, stations, limit);
      } else {
        GoodUpTo(units, pool.items, stations, -1);
        TracerRecover(-1);
        NoneLeft(stations, nextSeq);
        GoodToAll(units, pool.items, stations, -1);
      }
    }

    /** `pipeline_flush`: first the decode queue and then the reorder queue is emptied, and the create
        vector is cleared. */
    method Flush()
      requires Valid()
      modifies this`stations, this`roq, this`decoded, this`create, this`entries, Repr()
      ensures Valid() && |pool.fs| >= |old(pool.fs)| && roq == decoded == []
      ensures create == [seq(regs, _ => None)] && entries == []
      ensures SquashedAfter(old(stations), stations, -1)
      ensures OnlyFreed(units, old(pool.items), pool.items, old(stations), -1)
    {
      hide Good, Traced, Open, InOrder, OnlyFreed, LinkPool.Valid;
      ghost var its, st := pool.items, stations;
      FlushDecoded();
      while roq != []
        invariant Flushing() && decoded == [] && |pool.fs| >= |old(pool.fs)| && Thinned(st, stations, -1)
        invariant OnlyFreed(units, its, pool.items, st, -1)
        decreases |roq|
      {
        ghost var its1, st1 := pool.items, stations;
        var r := Squash();
        OnlyFreedStep(units, its, its1, pool.items, st, st1, -1, r);
        ThinnedTwice(st, st1, stations, -1);
      }
      NoneLeft(stations, nextSeq);
      NothingTraced(nextSeq, regs, stations);
      create := [seq(regs, _ => None)];
      entries := [];
    }
  }

  /** Instruction `r`, which waited in the ready queue of unit `f`, is issued. */
  ghost predicate IssuedNow(f: nat, st: seq<Station>, st': seq<Station>, r: nat)
  {
    && r < |st| && st[r].used && OperandsReady(st[r]) && st[r].queued && !st[r].issued && !st[r].completed
    && st[r].fu == f && st' == st[r := Started(st[r])]
  }

  /** Those of `issued`, whose units are among the first `f` and are free, have been issued. */
  ghost predicate AllIssued(st: seq<Station>, st': seq<Station>, issued: set<nat>, unitFree: seq<bool>, f: nat)
    requires f <= |unitFree|
  {
    && |st| == |st'|
    && (forall r | 0 <= r < |st| :: st'[r] == if r in issued then Started(st[r]) else st[r])
    && forall r | r in issued ::
         && r < |st| && OperandsReady(st[r]) && st[r].queued && !st[r].issued && !st[r].completed
         && st[r].fu < f && unitFree[st[r].fu]
  }

  /** Instruction `r`, which was executing, has completed. */
  ghost predicate CompletedNow(st: seq<Station>, st': seq<Station>, r: nat)
  {
    && r < |st| && st[r].used && OperandsReady(st[r]) && !st[r].queued && st[r].issued && !Done(st[r])
    && st' == st[r := Finished(st[r])]
  }

  /** No list loses a link. */
  ghost predicate Grown<T>(ls: seq<seq<T>>, ls': seq<seq<T>>)
  {
    |ls| == |ls'| && forall k, x | 0 <= k < |ls| && x in ls[k] :: x in ls'[k]
  }

  /** The chains are as they were, but for chain `c`. */
  ghost predicate ChainsBut(u: nat, its: seq<seq<Item>>, its': seq<seq<Item>>, c: nat)
  {
    |its| == |its'| && forall k | u < k < |its| && k != c :: its'[k] == its[k]
  }

  /** The ready queues and the event queue are as they were. */
  ghost predicate SameQueues(u: nat, its: seq<seq<Item>>, its': seq<seq<Item>>)
  {
    |its| == |its'| && forall k | 0 <= k <= u && k < |its| :: its'[k] == its[k]
  }

  ghost predicate SameChains(u: nat, its: seq<seq<Item>>, its': seq<seq<Item>>)
  {
    |its| == |its'| && forall k | u < k < |its| :: its'[k] == its[k]
  }
}
