/** The resources that instructions hold between mapping and retirement (`map_stage`, `issue_enqueue`,
    `issue_stage`, `commit_stage`, `pipeline_flush`, `brerr_recover`): the counters always equal what
    the instructions in the reorder queue hold, and the queues never overflow. */
module Resources {
  import opened Rings

  /** Where a result goes. */
  datatype Dest = NoDest | Gpr | Fpr | Hi | Lo

  /** The fields of an instruction that say what it holds. */
  datatype Inst = Inst(
    id: nat, ctrl: bool, mem: bool, trap: bool, intq: bool, queued: bool, out1: Dest, out2: Dest)

  /** Rename registers as `map_stage` counts them; HI in the first and LO in the second place are
      integer registers. */
  function IntRegs(i: Inst): nat
  {
    (if i.out1.Gpr? || i.out1.Hi? then 1 else 0) + (if i.out2.Gpr? || i.out2.Lo? then 1 else 0)
  }

  function FpRegs(i: Inst): nat
  {
    (if i.out1.Fpr? || i.out1.Lo? then 1 else 0) + (if i.out2.Fpr? || i.out2.Hi? then 1 else 0)
  }

  datatype Kind = IntIssue | FpIssue | IntRename | FpRename | Branch | Memory

  function Holds(i: Inst, k: Kind): nat
  {
    match k
    case IntIssue => if i.queued && i.intq then 1 else 0
    case FpIssue => if i.queued && !i.intq then 1 else 0
    case IntRename => IntRegs(i)
    case FpRename => FpRegs(i)
    case Branch => if i.ctrl then 1 else 0
    case Memory => if i.mem then 1 else 0
  }

  function Total(s: seq<Inst>, k: Kind): nat
  {
    if s == [] then 0 else Total(s[..|s| - 1], k) + Holds(s[|s| - 1], k)
  }

  lemma TotalPush(s: seq<Inst>, i: Inst, k: Kind)
    ensures Total(s + [i], k) == Total(s, k) + Holds(i, k)
  {
    assert (s + [i])[..|s|] == s;
  }

  lemma {:induction false} TotalPop(s: seq<Inst>, k: Kind)
    requires s != []
    ensures Total(s[1..], k) == Total(s, k) - Holds(s[0], k)
  {
    var n := |s| - 1;
    if n > 0 {
      TotalPop(s[..n], k);
      assert s[1..][..n - 1] == s[..n][1..];
    }
  }

  lemma {:induction false} TotalUpdate(s: seq<Inst>, j: nat, i: Inst, k: Kind)
    requires j < |s|
    ensures Total(s[j := i], k) == Total(s, k) - Holds(s[j], k) + Holds(i, k)
  {
    var n := |s| - 1;
    if j < n {
      TotalUpdate(s[..n], j, i, k);
      assert s[j := i][..n] == s[..n][j := i];
    } else {
      assert s[j := i][..n] == s[..n];
    }
  }

  lemma {:induction false} TotalPrefix(s: seq<Inst>, n: nat)
    requires n <= |s|
    ensures Total(s[..n], Branch) <= Total(s, Branch)
  {
    if n < |s| {
      TotalPrefix(s[..|s| - 1], n);
      assert s[..|s| - 1][..n] == s[..n];
    } else {
      assert s[..n] == s;
    }
  }

  /** The totals of all kinds and the branches. */
  datatype Ledger = Ledger(intIssue: int, fpIssue: int, intRename: int, fpRename: int, memory: int, branches: seq<nat>)

  function LedgerOf(s: seq<Inst>): Ledger
  {
    Ledger(Total(s, IntIssue), Total(s, FpIssue), Total(s, IntRename), Total(s, FpRename), Total(s, Memory),
           Branches(s))
  }

  /** An instruction enters at the young end, or leaves there. */
  lemma LedgerPush(s: seq<Inst>, i: Inst)
    ensures LedgerOf(s + [i]) == Added(LedgerOf(s), i, 1).(branches := Branches(s) + BranchOf(i))
  {
    assert (s + [i])[..|s|] == s;
  }

  /** The oldest instruction leaves. */
  lemma LedgerPop(s: seq<Inst>)
    requires s != []
    ensures LedgerOf(s[1..]) == Added(LedgerOf(s), s[0], -1).(branches := Branches(s[1..]))
    ensures Branches(s) == BranchOf(s[0]) + Branches(s[1..])
  {
    TotalPop(s, IntIssue);
    TotalPop(s, FpIssue);
    TotalPop(s, IntRename);
    TotalPop(s, FpRename);
    TotalPop(s, Memory);
    BranchesPop(s);
  }

  /** An instruction is issued. */
  lemma LedgerIssue(s: seq<Inst>, j: nat)
    requires j < |s| && s[j].queued
    ensures var l := LedgerOf(s);
            LedgerOf(s[j := s[j].(queued := false)])
              == if s[j].intq then l.(intIssue := l.intIssue - 1) else l.(fpIssue := l.fpIssue - 1)
  {
    var i := s[j].(queued := false);
    TotalUpdate(s, j, i, IntIssue);
    TotalUpdate(s, j, i, FpIssue);
    TotalUpdate(s, j, i, IntRename);
    TotalUpdate(s, j, i, FpRename);
    TotalUpdate(s, j, i, Memory);
    BranchesUpdate(s, j, i);
  }

  /** What the kinds amount to when an instruction is added or taken away. */
  function Added(l: Ledger, i: Inst, sign: int): Ledger
  {
    Ledger(l.intIssue + sign * Holds(i, IntIssue), l.fpIssue + sign * Holds(i, FpIssue),
           l.intRename + sign * IntRegs(i), l.fpRename + sign * FpRegs(i), l.memory + sign * Holds(i, Memory),
           l.branches)
  }

  function BranchOf(i: Inst): seq<nat>
  {
    if i.ctrl then [i.id] else []
  }

  /** The branches in program order. */
  function Branches(s: seq<Inst>): seq<nat>
  {
    if s == [] then []
    else Branches(s[..|s| - 1]) + BranchOf(s[|s| - 1])
  }

  lemma {:induction false} BranchesCount(s: seq<Inst>)
    ensures |Branches(s)| == Total(s, Branch)
  {
    if s != [] { BranchesCount(s[..|s| - 1]); }
  }

  lemma {:induction false} BranchesPop(s: seq<Inst>)
    requires s != []
    ensures Branches(s) == BranchOf(s[0]) + Branches(s[1..])
  {
    var n := |s| - 1;
    if n > 0 {
      BranchesPop(s[..n]);
      assert s[1..][..n - 1] == s[..n][1..];
    }
  }

  lemma {:induction false} BranchesUpdate(s: seq<Inst>, j: nat, i: Inst)
    requires j < |s| && i.ctrl == s[j].ctrl && i.id == s[j].id
    ensures Branches(s[j := i]) == Branches(s)
  {
    var n := |s| - 1;
    if j < n {
      BranchesUpdate(s[..n], j, i);
      assert s[j := i][..n] == s[..n][j := i];
    } else {
      assert s[j := i][..n] == s[..n];
    }
  }

  /** A branch is followed by its delay slot, which is no branch. */
  ghost predicate Alternating(s: seq<Inst>)
  {
    forall i, j | 0 <= i < j < |s| && j == i + 1 :: !(s[i].ctrl && s[j].ctrl)
  }

  lemma {:induction false} AlternatingBranches(s: seq<Inst>)
    requires Alternating(s)
    ensures Total(s, Branch) <= (|s| + 1) / 2
    ensures s != [] && !s[|s| - 1].ctrl ==> Total(s, Branch) <= |s| / 2
  {
    if s != [] { AlternatingBranches(s[..|s| - 1]); }
  }

  datatype Sizes = Sizes(
    mapWidth: nat, roq: nat, brq: nat, lsq: nat, intIssue: nat, fpIssue: nat, intRename: nat, fpRename: nat)

  // ---------------------------------------------------------------- the back end

  class BackEnd {
    const sizes: Sizes
    const decode: RingBuffer<Inst>
    const roq: RingBuffer<Inst>
    const brq: RingBuffer<nat>
    var intIssueNum: nat
    var fpIssueNum: nat
    var intRenameNum: nat
    var fpRenameNum: nat
    var lsqNum: nat
    /** Entries of the load/store queue whose instruction has committed. */
    var lsqRetiring: nat

    ghost predicate Shape()
      reads this, decode, roq, brq
    {
      && decode.Valid() && roq.Valid() && brq.Valid()
      && decode != roq && decode.slots != roq.slots
      && roq.slots.Length == sizes.roq && brq.slots.Length == sizes.brq
    }

    ghost function Counters(): Ledger
      requires brq.Valid()
      reads this, brq, brq.slots
    {
      Ledger(intIssueNum, fpIssueNum, intRenameNum, fpRenameNum, lsqNum - lsqRetiring, brq.Contents())
    }

    /** The counters say what the reorder queue holds. */
    ghost predicate Counted()
      requires Shape()
      reads this, decode, roq, brq, roq.slots, brq.slots
    {
      Counters() == LedgerOf(roq.Contents())
    }

    /** No queue holds more than it has room for. */
    ghost predicate Bounded()
      reads this
    {
      && lsqNum <= sizes.lsq && intIssueNum <= sizes.intIssue && fpIssueNum <= sizes.fpIssue
      && intRenameNum <= sizes.intRename && fpRenameNum <= sizes.fpRename
    }

    ghost predicate Valid()
      reads this, decode, decode.slots, roq, roq.slots, brq, brq.slots
    {
      Shape() && Counted() && Bounded() && Decoded(decode.Contents())
    }

    constructor (sizes: Sizes, decodeSize: nat)
      requires 0 < decodeSize && 0 < sizes.roq && 0 < sizes.brq
      ensures Valid() && this.sizes == sizes && roq.Contents() == [] && decode.Contents() == []
    {
      this.sizes := sizes;
      var none := Inst(0, false, false, false, false, false, NoDest, NoDest);
      decode := new RingBuffer(decodeSize, none);
      roq := new RingBuffer(sizes.roq, none);
      brq := new RingBuffer(sizes.brq, 0);
      intIssueNum, fpIssueNum, intRenameNum, fpRenameNum, lsqNum, lsqRetiring := 0, 0, 0, 0, 0, 0;
    }

    /** Mapping one instruction: it takes its resources and enters the queues. */
    method MapOne()
      requires Shape() && Counted() && 0 < decode.num && Fresh(decode.Contents()[0])
      requires roq.num < sizes.roq && (decode.Contents()[0].ctrl ==> brq.num < sizes.brq)
      modifies decode, roq, roq.slots, brq, brq.slots, this`intIssueNum, this`fpIssueNum, this`intRenameNum,
               this`fpRenameNum, this`lsqNum
      ensures Shape() && Counted() && lsqRetiring == old(lsqRetiring)
      ensures decode.Contents() == old(decode.Contents())[1..]
      ensures roq.Contents() == old(roq.Contents()) + [Mapped(old(decode.Contents())[0])]
    {
      var i := decode.Pop();
      LedgerPush(roq.Contents(), Mapped(i));
      Take(i);
      roq.Push(Mapped(i));
    }

    /** The branch-queue entry and the counters of one mapped instruction. */
    method Take(i: Inst)
      requires brq.Valid() && Fresh(i) && (i.ctrl ==> brq.num < brq.slots.Length)
      modifies brq, brq.slots, this`intIssueNum, this`fpIssueNum, this`intRenameNum, this`fpRenameNum, this`lsqNum
      ensures brq.Valid()
      ensures Counters() == Added(old(Counters()), Mapped(i), 1).(branches := old(brq.Contents()) + BranchOf(Mapped(i)))
    {
      PushBranch(i);
      Count(i);
    }

    method PushBranch(i: Inst)
      requires brq.Valid() && (i.ctrl ==> brq.num < brq.slots.Length)
      modifies brq, brq.slots
      ensures brq.Valid() && brq.Contents() == old(brq.Contents()) + BranchOf(i)
    {
      if i.ctrl {
        brq.Push(i.id);
      }
    }

    method Count(i: Inst)
      requires brq.Valid() && Fresh(i)
      modifies this`intIssueNum, this`fpIssueNum, this`intRenameNum, this`fpRenameNum, this`lsqNum
      ensures Counters() == Added(old(Counters()), Mapped(i), 1)
    {
      intRenameNum := intRenameNum + IntRegs(i);
      fpRenameNum := fpRenameNum + FpRegs(i);
      if !i.trap {
        if i.intq {
          intIssueNum := intIssueNum + 1;
        } else {
          fpIssueNum := fpIssueNum + 1;
        }
        if i.mem {
          lsqNum := lsqNum + 1;
        }
      }
    }

    /** The loop of `map_stage`. */
    method MapGroup()
      requires Shape() && Counted() && Decoded(decode.Contents()) && Admits() && BranchesFit()
      modifies decode, roq, roq.slots, brq, brq.slots, this`intIssueNum, this`fpIssueNum, this`intRenameNum,
               this`fpRenameNum, this`lsqNum
      ensures Shape() && Counted() && Decoded(decode.Contents()) && lsqRetiring == old(lsqRetiring)
      ensures var n := Min(old(decode.num), sizes.mapWidth);
              && decode.Contents() == old(decode.Contents())[n..]
              && roq.Contents() == old(roq.Contents()) + MappedAll(old(decode.Contents())[..n])
    {
      ghost var ds, q := decode.Contents(), roq.Contents();
      var mapped := 0;
      assert q + MappedAll(ds[..0]) == q;
      while decode.num != 0 && mapped < sizes.mapWidth
        invariant Shape() && Counted() && lsqRetiring == old(lsqRetiring)
        invariant mapped <= sizes.mapWidth && mapped <= |ds| && decode.Contents() == ds[mapped..]
        invariant roq.Contents() == q + MappedAll(ds[..mapped])
        decreases decode.num
      {
        GroupRoom(q, ds, mapped);
        MappedStep(q, ds, mapped);
        MapOne();
        mapped := mapped + 1;
      }
      DecodedSuffix(ds, mapped);
    }

    /** The branches among the next `map_width` instructions have room in the branch queue.  The
        admission test does not look at them (`BranchRoomIff`). */
    ghost predicate BranchesFit()
      requires Shape()
      reads this, decode, decode.slots, roq, brq
    {
      brq.num + Total(decode.Contents()[..Min(decode.num, sizes.mapWidth)], Branch) <= sizes.brq
    }

    /** Groups of at most four instructions always fit. */
    lemma SmallGroupsFit()
      requires Valid() && Admits() && sizes.mapWidth <= 4
      ensures BranchesFit()
    {
      AlternatingBranches(decode.Contents()[..Min(decode.num, sizes.mapWidth)]);
    }

    /** `map_stage`: when every queue has room for a full group, up to `map_width` instructions are
        mapped. */
    method MapStage()
      requires Valid() && (Admits() ==> BranchesFit())
      modifies decode, roq, roq.slots, brq, brq.slots, this`intIssueNum, this`fpIssueNum, this`intRenameNum,
               this`fpRenameNum, this`lsqNum
      ensures Valid() && lsqRetiring == old(lsqRetiring)
      ensures var n := if old(Admits()) then Min(old(decode.num), sizes.mapWidth) else 0;
              && decode.Contents() == old(decode.Contents())[n..]
              && roq.Contents() == old(roq.Contents()) + MappedAll(old(decode.Contents())[..n])
    {
      if Admits() {
        ghost var n := Min(decode.num, sizes.mapWidth);
        forall k: Kind { GroupHolds(roq.Contents(), decode.Contents(), n, k); }
        MapGroup();
      } else {
        assert roq.Contents() + MappedAll(decode.Contents()[..0]) == roq.Contents();
      }
    }

    /** The admission test. */
    predicate Admits()
      reads this, roq, brq
    {
      && roq.num + sizes.mapWidth <= sizes.roq && brq.num + 1 < sizes.brq && lsqNum + sizes.mapWidth <= sizes.lsq
      && intIssueNum + sizes.mapWidth <= sizes.intIssue && fpIssueNum + sizes.mapWidth <= sizes.fpIssue
      && intRenameNum + sizes.mapWidth <= sizes.intRename && fpRenameNum + sizes.mapWidth <= sizes.fpRename
    }

    /** `issue_stage`: a queued instruction goes to its unit. */
    method Issue(j: nat)
      requires Valid() && j < roq.num && roq.Contents()[j].queued
      modifies roq.slots, this`intIssueNum, this`fpIssueNum
      ensures Valid() && roq.Contents() == old(roq.Contents())[j := old(roq.Contents())[j].(queued := false)]
    {
      var i := roq.Get(j);
      ghost var q := roq.Contents();
      LedgerIssue(q, j);
      if i.intq {
        intIssueNum := intIssueNum - 1;
      } else {
        fpIssueNum := fpIssueNum - 1;
      }
      roq.Set(j, i.(queued := false));
    }

    /** `commit_stage`: the head, which has completed, leaves.  A branch is the one at the head of the
        branch queue, as the source asserts. */
    method Commit()
      requires Valid() && 0 < roq.num && !roq.Contents()[0].queued
      modifies roq, brq, this`intRenameNum, this`fpRenameNum, this`lsqRetiring
      ensures Valid() && roq.Contents() == old(roq.Contents())[1..] && lsqNum == old(lsqNum)
      ensures old(roq.Contents())[0].ctrl ==>
                old(brq.Contents()) == [old(roq.Contents())[0].id] + brq.Contents()
    {
      ghost var q := roq.Contents();
      LedgerPop(q);
      var i := roq.Pop();
      Leave(i, Branches(roq.Contents()));
    }

    /** The branch-queue entry and the counters of one retired instruction. */
    method Leave(i: Inst, ghost younger: seq<nat>)
      requires brq.Valid() && brq.Contents() == BranchOf(i) + younger
      requires !i.queued && IntRegs(i) <= intRenameNum && FpRegs(i) <= fpRenameNum
      modifies brq, this`intRenameNum, this`fpRenameNum, this`lsqRetiring
      ensures brq.Valid() && Counters() == Added(old(Counters()), i, -1).(branches := younger)
      ensures intRenameNum <= old(intRenameNum) && fpRenameNum <= old(fpRenameNum)
    {
      PopBranch(i, younger);
      Retire(i);
    }

    /** The counters of one retired instruction: its entry in the load/store queue stays for now. */
    method Retire(i: Inst)
      requires brq.Valid() && !i.queued && IntRegs(i) <= intRenameNum && FpRegs(i) <= fpRenameNum
      modifies this`intRenameNum, this`fpRenameNum, this`lsqRetiring
      ensures Counters() == Added(old(Counters()), i, -1)
      ensures intRenameNum <= old(intRenameNum) && fpRenameNum <= old(fpRenameNum)
    {
      intRenameNum := intRenameNum - IntRegs(i);
      fpRenameNum := fpRenameNum - FpRegs(i);
      if i.mem {
        lsqRetiring := lsqRetiring + 1;
      }
    }

    /** `lsq_stage`: a committed entry leaves the load/store queue. */
    method LsqFree()
      requires Valid() && 0 < lsqRetiring
      modifies this`lsqNum, this`lsqRetiring
      ensures Valid() && lsqNum == old(lsqNum) - 1 && lsqRetiring == old(lsqRetiring) - 1
    {
      lsqNum, lsqRetiring := lsqNum - 1, lsqRetiring - 1;
    }

    /** One turn of the squash loops: the youngest instruction gives everything back. */
    method Squash()
      requires Valid() && 0 < roq.num
      modifies roq, brq, this`intIssueNum, this`fpIssueNum, this`intRenameNum, this`fpRenameNum, this`lsqNum
      ensures Valid() && roq.Contents() == old(roq.Contents())[..|old(roq.Contents())| - 1]
    {
      ghost var q := roq.Contents();
      var i := roq.Drop();
      LedgerPush(roq.Contents(), i);
      assert q == roq.Contents() + [i];
      DropBranch(i, Branches(roq.Contents()));
      GiveBack(i);
    }

    /** The branch-queue entry of the youngest instruction, if it has one. */
    method DropBranch(i: Inst, ghost older: seq<nat>)
      requires brq.Valid() && brq.Contents() == older + BranchOf(i)
      modifies brq
      ensures brq.Valid() && brq.Contents() == older
    {
      if i.ctrl {
        var id := brq.Drop();
      }
    }

    /** The branch-queue entry of the oldest instruction: the source asserts that it is the head. */
    method PopBranch(i: Inst, ghost younger: seq<nat>)
      requires brq.Valid() && brq.Contents() == BranchOf(i) + younger
      modifies brq
      ensures brq.Valid() && brq.Contents() == younger
    {
      if i.ctrl {
        var id := brq.Pop();
        assert id == i.id;
      }
    }

    /** The counters of one squashed instruction. */
    method GiveBack(i: Inst)
      requires brq.Valid() && Holds(i, Memory) <= lsqNum && IntRegs(i) <= intRenameNum && FpRegs(i) <= fpRenameNum
      requires Holds(i, IntIssue) <= intIssueNum && Holds(i, FpIssue) <= fpIssueNum
      modifies this`intIssueNum, this`fpIssueNum, this`intRenameNum, this`fpRenameNum, this`lsqNum
      ensures Counters() == Added(old(Counters()), i, -1)
      ensures lsqNum <= old(lsqNum) && intIssueNum <= old(intIssueNum) && fpIssueNum <= old(fpIssueNum)
      ensures intRenameNum <= old(intRenameNum) && fpRenameNum <= old(fpRenameNum)
    {
      if i.mem {
        lsqNum := lsqNum - 1;
      }
      intRenameNum := intRenameNum - IntRegs(i);
      fpRenameNum := fpRenameNum - FpRegs(i);
      if i.queued {
        if i.intq {
          intIssueNum := intIssueNum - 1;
        } else {
          fpIssueNum := fpIssueNum - 1;
        }
      }
    }

    /** `brerr_recover`: what is younger than `keep` is squashed and the decode queue emptied. */
    method SquashDownTo(keep: nat)
      requires Valid() && keep <= roq.num
      modifies decode, roq, brq, this`intIssueNum, this`fpIssueNum, this`intRenameNum, this`fpRenameNum, this`lsqNum
      ensures Valid() && roq.Contents() == old(roq.Contents())[..keep] && decode.Contents() == []
    {
      while roq.num > keep
        invariant Valid() && keep <= roq.num <= old(roq.num)
        invariant roq.Contents() == old(roq.Contents())[..roq.num] && decode.Contents() == old(decode.Contents())
        decreases roq.num
      {
        Squash();
      }
      decode.Truncate(0);
    }

    /** `pipeline_flush`: nothing is held any more but by stores and loads that have committed. */
    method Flush()
      requires Valid()
      modifies decode, roq, brq, this`intIssueNum, this`fpIssueNum, this`intRenameNum, this`fpRenameNum, this`lsqNum
      ensures Valid() && roq.Contents() == [] && decode.Contents() == [] && brq.Contents() == []
      ensures intIssueNum == 0 && fpIssueNum == 0 && intRenameNum == 0 && fpRenameNum == 0 && lsqNum == lsqRetiring
    {
      SquashDownTo(0);
    }

    lemma GroupRoom(q: seq<Inst>, ds: seq<Inst>, mapped: nat)
      requires Shape() && mapped < |ds| && mapped < sizes.mapWidth
      requires |q| + sizes.mapWidth <= sizes.roq
      requires |Branches(q)| + Total(ds[..Min(|ds|, sizes.mapWidth)], Branch) <= sizes.brq
      requires roq.Contents() == q + MappedAll(ds[..mapped]) && brq.Contents() == Branches(roq.Contents())
      ensures roq.num < sizes.roq && (ds[mapped].ctrl ==> brq.num < sizes.brq)
    {
      TotalMapped(q, ds[..mapped]);
      BranchesCount(q);
      BranchesCount(roq.Contents());
      TotalPrefix(ds[..Min(|ds|, sizes.mapWidth)], mapped + 1);
      assert ds[..Min(|ds|, sizes.mapWidth)][..mapped + 1] == ds[..mapped + 1];
      assert ds[..mapped + 1][..mapped] == ds[..mapped];
    }

    lemma GroupHolds(q: seq<Inst>, ds: seq<Inst>, mapped: nat, k: Kind)
      requires Decoded(ds) && mapped <= |ds|
      ensures Total(q + MappedAll(ds[..mapped]), k) <= Total(q, k) + mapped
    {
      if mapped == 0 {
        assert q + MappedAll(ds[..0]) == q;
      } else {
        GroupHolds(q, ds, mapped - 1, k);
        var q' := q + MappedAll(ds[..mapped - 1]);
        assert q + MappedAll(ds[..mapped]) == q' + [Mapped(ds[mapped - 1])];
        TotalPush(q', Mapped(ds[mapped - 1]), k);
      }
    }
  }

  function Min(a: nat, b: nat): nat
  {
    if a < b then a else b
  }

  function Mapped(i: Inst): Inst
  {
    i.(queued := !i.trap)
  }

  function MappedAll(s: seq<Inst>): (t: seq<Inst>)
    ensures |t| == |s|
  {
    seq(|s|, i requires 0 <= i < |s| => Mapped(s[i]))
  }

  lemma {:induction false} TotalMapped(q: seq<Inst>, s: seq<Inst>)
    ensures Total(q + MappedAll(s), Branch) == Total(q, Branch) + Total(s, Branch)
  {
    if s == [] {
      assert q + MappedAll(s) == q;
    } else {
      var n := |s| - 1;
      TotalMapped(q, s[..n]);
      assert q + MappedAll(s) == (q + MappedAll(s[..n])) + [Mapped(s[n])];
      TotalPush(q + MappedAll(s[..n]), Mapped(s[n]), Branch);
    }
  }

  /** The admission test leaves two free entries in the branch queue: that is enough for every group
      if and only if a group has at most four instructions. */
  lemma BranchRoomIff(mapWidth: nat)
    ensures (forall s | |s| <= mapWidth && Decoded(s) :: Total(s, Branch) <= 2) <==> mapWidth <= 4
  {
    if mapWidth <= 4 {
      forall s | |s| <= mapWidth && Decoded(s) ensures Total(s, Branch) <= 2 {
        AlternatingBranches(s);
      }
    } else {
      var b := Inst(0, true, false, false, true, false, NoDest, NoDest);
      var n := b.(ctrl := false);
      var s := [b, n, b, n, b];
      assert Decoded(s);
      TotalPush([b, n, b, n], b, Branch);
      TotalPush([b, n, b], n, Branch);
      TotalPush([b, n], b, Branch);
      TotalPush([b], n, Branch);
      TotalPush([], b, Branch);
      assert s == [b, n, b, n] + [b] && [b, n, b, n] == [b, n, b] + [n];
      assert [b, n, b] == [b, n] + [b] && [b, n] == [b] + [n];
      assert [] + [b] == [b];
    }
  }

  /** Decoded instructions: in program order with delay slots, one result at most (no instruction of
      the table has a second one; a multiplication or division is split in two), and an instruction
      that stands for a bad address is a no-op. */
  ghost predicate Decoded(s: seq<Inst>)
  {
    && Alternating(s)
    && forall i | 0 <= i < |s| :: Fresh(s[i])
  }

  predicate Fresh(i: Inst)
  {
    !i.queued && i.out2 == NoDest && (i.trap ==> !i.mem && !i.ctrl)
  }

  lemma DecodedSuffix(s: seq<Inst>, n: nat)
    requires Decoded(s) && n <= |s|
    ensures Decoded(s[n..])
  {
  }

  lemma MappedStep(q: seq<Inst>, ds: seq<Inst>, mapped: nat)
    requires mapped < |ds|
    ensures ds[mapped..][1..] == ds[mapped + 1..] && ds[mapped..][0] == ds[mapped]
    ensures q + MappedAll(ds[..mapped]) + [Mapped(ds[mapped])] == q + MappedAll(ds[..mapped + 1])
  {
  }
}
