/** Stores in the load/store queue, the data cache and the bus that carries replacements, refills and
    interventions into it (`lsq_stage`, `cache_probe`, `replace_block`, `mark_valid`).  A committed
    store sets the dirty bit of its block without looking at the block's status; the order of the
    stages and `replace_delay` are what keeps that from happening to a block that is not owned. */
module StorePipeline {

  // ---------------------------------------------------------------- status codes

  type Status = bv8

  const INVALID: Status := 1
  const SHARED: Status := 2
  const EXCLUSIVE: Status := 3
  const DIRTY: Status := 4
  const DIRTY_INVALID: Status := 5
  const MODIFIED: Status := 7

  /** One way of one set: the 32-byte block it was last given, and its status. */
  datatype Line = Line(block: nat, status: Status)

  /** The block that is being refilled: its line, what `refill_new_status` says, and how many of
      its four words have arrived. */
  datatype Refill = NoRefill | Refill(line: nat, block: nat, exclusive: bool, words: seq<nat>)

  datatype Intervention = IntervShd | IntervExc | Invalidate

  datatype Packet =
    | NoPacket
    | Replacing(block: nat, exclusive: bool)
    | Filling(block: nat, word: nat, cnt: nat, exclusive: bool)
    | Intervening(kind: Intervention, block: nat)

  /** A store: it is probed in the data-cache stage, enters READCACHE one cycle later, and is ready
      when all bytes it needs are there (`byterdy == 0xff`). */
  datatype Phase = Free | Waiting | Probed | Arrived | Committed

  datatype Slot = Slot(phase: Phase, block: nat, word: nat, ready: bool, blk: int)

  // ---------------------------------------------------------------- the bus

  /** A transfer is a replacement and four refills; nothing else comes in between. */
  datatype Transfer = Idle | Transferring(block: nat, exclusive: bool, done: nat)

  predicate Legal(t: Transfer, p: Packet)
  {
    match p
    case NoPacket => true
    case Replacing(_, _) => t == Idle
    case Filling(block, _, cnt, exclusive) => 1 <= cnt <= 4 && t == Transferring(block, exclusive, cnt - 1)
    case Intervening(_, _) => t == Idle
  }

  function After(t: Transfer, p: Packet): Transfer
  {
    match p
    case NoPacket => t
    case Replacing(block, exclusive) => Transferring(block, exclusive, 0)
    case Filling(block, _, cnt, exclusive) => if cnt == 4 then Idle else Transferring(block, exclusive, cnt)
    case Intervening(_, _) => t
  }

  function View(r: Refill): Transfer
  {
    if r.NoRefill? then Idle else Transferring(r.block, r.exclusive, |r.words|)
  }

  // ---------------------------------------------------------------- invariants

  /** The status codes that occur: DIRTY_INVALID only on the block under exclusive refill. */
  predicate LineOk(l: Line, i: nat, r: Refill)
  {
    if r.Refill? && r.line == i then
      l.block == r.block && (l.status == INVALID || (r.exclusive && l.status == DIRTY_INVALID))
    else l.status == INVALID || l.status == SHARED || l.status == EXCLUSIVE || l.status == MODIFIED
  }

  predicate LinesOk(ls: seq<Line>, r: Refill)
  {
    && (r.Refill? ==> r.line < |ls| && |r.words| < 4)
    && forall i | 0 <= i < |ls| :: LineOk(ls[i], i, r)
  }

  /** The cache holds the block, or is getting it, for writing. */
  predicate Owned(ls: seq<Line>, r: Refill, i: int, block: nat)
  {
    && 0 <= i < |ls| && ls[i].block == block
    && (ls[i].status == EXCLUSIVE || ls[i].status == MODIFIED || (r.Refill? && r.line == i && r.exclusive))
  }

  /** A store that may write: it is ready, or was found in the cache and becomes ready next. */
  predicate Armed(s: Slot)
  {
    ((s.phase == Arrived || s.phase == Committed) && s.ready) || (s.phase == Probed && s.blk != -1)
  }

  /** The block whose stores are to be disarmed by the packet in the tag-compare stage. */
  predicate Disarms(dt: Packet, replaceBlock: nat, block: nat)
  {
    (dt.Replacing? && block == replaceBlock) || (dt.Intervening? && block == dt.block)
  }

  predicate SlotsOk(ss: seq<Slot>, ls: seq<Line>, r: Refill, dt: Packet, replaceBlock: nat)
  {
    forall j | 0 <= j < |ss| && Armed(ss[j]) && !(ss[j].phase != Probed && Disarms(dt, replaceBlock, ss[j].block)) ::
      Owned(ls, r, ss[j].blk, ss[j].block)
  }

  /** An exclusive refill in the tag-compare stage delivers an owned block. */
  predicate FillOk(ls: seq<Line>, r: Refill, dt: Packet, blk: int)
  {
    dt.Filling? && dt.exclusive ==> Owned(ls, r, blk, dt.block)
  }

  // ---------------------------------------------------------------- the cache

  /** Does the line hold the block?  A probe passes over a block that is still being refilled, an
      intervention does not. */
  predicate Holds(l: Line, block: nat, partial: bool)
  {
    l.block == block && l.status != INVALID && (partial || l.status != DIRTY_INVALID)
  }

  /** The first line that holds the block, or -1. */
  function Find(ls: seq<Line>, block: nat, partial: bool, from: nat := 0): (i: int)
    requires from <= |ls|
    decreases |ls| - from
    ensures i == -1 || from <= i < |ls|
    ensures 0 <= i ==> Holds(ls[i], block, partial)
    ensures forall k | from <= k < (if i == -1 then |ls| else i) :: !Holds(ls[k], block, partial)
  {
    if from == |ls| then -1
    else if Holds(ls[from], block, partial) then from
    else Find(ls, block, partial, from + 1)
  }

  /** The line that `replace_block` takes: the last shared copy of the block itself, as after an
      upgrade, or else the given way. */
  function Victim(ls: seq<Line>, block: nat, way: nat): (v: nat)
    requires way < |ls|
    ensures v < |ls|
    ensures v == way || (ls[v].block == block && ls[v].status == SHARED)
  {
    VictimFrom(ls, block, way, |ls|)
  }

  function VictimFrom(ls: seq<Line>, block: nat, way: nat, upTo: nat): (v: nat)
    requires way < |ls| && upTo <= |ls|
    ensures v < |ls|
    ensures v == way || (ls[v].block == block && ls[v].status == SHARED)
  {
    if upTo == 0 then way
    else if ls[upTo - 1].block == block && ls[upTo - 1].status == SHARED then upTo - 1
    else VictimFrom(ls, block, way, upTo - 1)
  }

  /** What an intervention leaves of a block, and `mark_valid`. */
  function Intervened(kind: Intervention): Status
  {
    if kind == IntervShd then SHARED else INVALID
  }

  function MarkValid(s: Status, exclusive: bool): Status
  {
    (s & DIRTY) | (if exclusive then EXCLUSIVE else SHARED)
  }

  /** `mark_valid` gives a proper status, never the code 6. */
  lemma MarkValidProper(l: Line, r: Refill)
    requires r.Refill? && LineOk(l, r.line, r)
    ensures var s := MarkValid(l.status, r.exclusive);
            s == (if !r.exclusive then SHARED else if l.status == DIRTY_INVALID then MODIFIED else EXCLUSIVE)
  {
  }

  /** What a store finds in the data-cache stage. */
  function Probe(ls: seq<Line>, r: Refill, block: nat, word: nat): (i: int)
    requires LinesOk(ls, r)
  {
    var i := Find(ls, block, false);
    if i != -1 then (if ls[i].status == SHARED then -1 else i)
    else if r.Refill? && r.block == block && word in r.words && r.exclusive then r.line
    else -1
  }

  /** Setting the dirty bit of an owned block gives a proper status. */
  lemma DirtyKeepsLinesOk(ls: seq<Line>, r: Refill, i: nat, block: nat)
    requires LinesOk(ls, r) && Owned(ls, r, i, block)
    ensures LinesOk(ls[i := ls[i].(status := ls[i].status | DIRTY)], r)
    ensures ls[i].status | DIRTY == MODIFIED || (r.Refill? && r.line == i && ls[i].status | DIRTY == DIRTY_INVALID)
  {
    assert LineOk(ls[i], i, r);
  }

  class Unit {
    const lines: array<Line>
    const slots: array<Slot>
    var refill: Refill
    var replaceBlock: nat
    var replaceDelay: nat
    var bus: Packet            // lsq_refill
    var dcacheRefill: Packet   // lsq_dcache_refill
    var dtagcmpRefill: Packet  // lsq_dtagcmp_refill
    var dtagcmpBlk: int        // and its blk
    var issuei: int
    var dcachei: int
    var dtagcmpi: int
    /** What the sender has put on the bus (`refilltag`, `cachecnt`). */
    ghost var sent: Transfer

    /** Between two calls of `lsq_stage`. */
    ghost predicate Valid()
      reads this, lines, slots
    {
      && Consistent() && SlotsOk(slots[..], lines[..], refill, dtagcmpRefill, replaceBlock)
      && FillOk(lines[..], refill, dtagcmpRefill, dtagcmpBlk)
      && (dtagcmpRefill.Replacing? || dtagcmpRefill.Intervening? ==> replaceDelay > 0)
      && (dtagcmpi != -1 ==> dtagcmpRefill.NoPacket?)
    }

    ghost predicate Consistent()
      reads this, lines, slots
    {
      && LinesOk(lines[..], refill)
      && Legal(View(refill), dcacheRefill) && Legal(After(View(refill), dcacheRefill), bus)
      && sent == After(After(View(refill), dcacheRefill), bus)
      && -1 <= issuei < slots.Length && -1 <= dcachei < slots.Length && -1 <= dtagcmpi < slots.Length
      && (dcacheRefill.NoPacket? || dcachei == -1)
      && (forall j | 0 <= j < slots.Length :: slots[j].phase == Probed <==> j == dtagcmpi)
      && (dcachei != -1 ==> slots[dcachei].phase == Waiting)
      && (issuei != -1 ==> slots[issuei].phase == Waiting && issuei != dcachei)
    }

    /** `cache_create` starts with invalid blocks. */
    constructor (ways: nat, stores: nat)
      ensures Valid() && fresh(lines) && fresh(slots) && lines.Length == ways && slots.Length == stores
    {
      lines := new Line[ways](_ => Line(0, INVALID));
      slots := new Slot[stores](_ => Slot(Free, 0, 0, false, -1));
      refill, replaceBlock, replaceDelay := NoRefill, 0, 0;
      bus, dcacheRefill, dtagcmpRefill := NoPacket, NoPacket, NoPacket;
      issuei, dcachei, dtagcmpi, dtagcmpBlk := -1, -1, -1, -1;
      sent := Idle;
    }

    // ------------------------------------------------------------ from other stages

    /** `cache2mem` puts a packet on the free bus. */
    method Send(p: Packet)
      requires Valid() && bus.NoPacket? && Legal(sent, p)
      modifies this`bus, this`sent
      ensures Valid() && bus == p && sent == After(old(sent), p)
    {
      bus := p;
      sent := After(sent, p);
    }

    /** `lsq_enqueue`: `blk` and `byterdy` keep what the last user of the slot left there. */
    method Enqueue(j: nat, block: nat, word: nat)
      requires Valid() && j < slots.Length && slots[j].phase == Free
      modifies slots
      ensures Valid() && slots[j] == old(slots[j]).(phase := Waiting, block := block, word := word)
    {
      slots[j] := slots[j].(phase := Waiting, block := block, word := word);
      assert slots[..] == old(slots[..])[j := slots[j]];
    }

    /** `lsq_issue`. */
    method Issue(j: nat)
      requires Valid() && j < slots.Length && slots[j].phase == Waiting && issuei == -1 && j != dcachei
      modifies this`issuei
      ensures Valid() && issuei == j
    {
      issuei := j;
    }

    /** `commit_stage`. */
    method Commit(j: nat)
      requires Valid() && j < slots.Length && slots[j].phase == Arrived
      modifies slots
      ensures Valid() && slots[j] == old(slots[j]).(phase := Committed)
    {
      slots[j] := slots[j].(phase := Committed);
      assert slots[..] == old(slots[..])[j := slots[j]];
    }

    /** `lsq_cancel_one`, and the end of a retired store. */
    method Release(j: nat)
      requires Valid() && j < slots.Length
      modifies slots, this`issuei, this`dcachei, this`dtagcmpi
      ensures Valid() && slots[..] == old(slots[..])[j := old(slots[j]).(phase := Free)]
      ensures issuei == (if old(issuei) == j then -1 else old(issuei))
      ensures dtagcmpi == (if old(dtagcmpi) == j then -1 else old(dtagcmpi))
      ensures dcachei == (if old(dcachei) == j then -1 else old(dcachei))
    {
      if issuei == j { issuei := -1; }
      if dcachei == j { dcachei := -1; }
      if dtagcmpi == j { dtagcmpi := -1; }
      slots[j] := slots[j].(phase := Free);
      assert slots[..] == old(slots[..])[j := slots[j]];
    }

    // ------------------------------------------------------------ the stages, youngest last

    /** Between the stages of one cycle, after tag compare. */
    ghost predicate Compared()
      reads this, lines, slots
    {
      && Consistent() && SlotsOk(slots[..], lines[..], refill, NoPacket, 0)
      && dtagcmpRefill.NoPacket? && dtagcmpi == -1
    }

    /** The committed store at the head writes the cache, unless a replacement or an intervention is
        on its way to the queue.  The block it marks dirty is owned: it is held exclusively, or under
        exclusive refill. */
    method DcacheWrite(j: nat, bankFree: bool) returns (written: bool)
      requires Valid() && j < slots.Length && slots[j].phase == Committed && slots[j].ready
      modifies lines
      ensures Valid()
      ensures written <==> bus.NoPacket? && replaceDelay == 0 && bankFree
      ensures var i := slots[j].blk;
              written ==>
                && 0 <= i < lines.Length && Owned(old(lines[..]), refill, i, slots[j].block)
                && lines[..] == old(lines[..])[i := Line(slots[j].block, old(lines[i].status) | DIRTY)]
                && (|| lines[i].status == MODIFIED
                    || (refill.Refill? && refill.line == i && lines[i].status == DIRTY_INVALID))
      ensures !written ==> lines[..] == old(lines[..])
    {
      written := bus.NoPacket? && replaceDelay == 0 && bankFree;
      if written {
        var i := slots[j].blk;
        assert Armed(slots[..][j]);
        DirtyKeepsLinesOk(lines[..], refill, i, slots[j].block);
        DirtyKeepsOwned(lines[..], refill, i, slots[j].block);
        lines[i] := lines[i].(status := lines[i].status | DIRTY);
        assert lines[..] == old(lines[..])[i := lines[i]];
      }
    }

    /** The packet of the tag-compare stage reaches the queue, or the probed store does. */
    method Dtagcmp()
      requires Valid()
      modifies slots, this`dtagcmpRefill, this`dtagcmpi
      ensures Compared()
      ensures forall j | 0 <= j < slots.Length ::
                slots[j] == Compare(old(slots[j]), old(dtagcmpRefill), replaceBlock, dtagcmpBlk)
    {
      for j := 0 to slots.Length
        invariant dtagcmpRefill == old(dtagcmpRefill) && dtagcmpi == old(dtagcmpi)
        invariant forall k | 0 <= k < slots.Length ::
                    slots[k] == if k < j then Compare(old(slots[k]), dtagcmpRefill, replaceBlock, dtagcmpBlk)
                                else old(slots[k])
      {
        slots[j] := Compare(slots[j], dtagcmpRefill, replaceBlock, dtagcmpBlk);
      }
      CompareArms(old(slots[..]), slots[..], lines[..], refill, dtagcmpRefill, replaceBlock, dtagcmpBlk);
      dtagcmpRefill := NoPacket;
      dtagcmpi := -1;
    }

    /** `replace_block` in the data-cache stage.  The line taken is not under refill. */
    method DcacheReplace(way: nat)
      requires Compared() && dcacheRefill.Replacing? && way < lines.Length
      modifies lines, this`refill, this`replaceBlock, this`replaceDelay, this`dtagcmpRefill, this`dtagcmpBlk,
               this`dcacheRefill
      ensures Valid() && dcacheRefill.NoPacket?
      ensures var v, p := Victim(old(lines[..]), old(dcacheRefill.block), way), old(dcacheRefill);
              && old(lines[..])[v].status != DIRTY_INVALID
              && lines[..] == old(lines[..])[v := Line(p.block, INVALID)]
              && refill == Refill(v, p.block, p.exclusive, [])
              && replaceBlock == (if old(lines[..])[v].status == INVALID then 0 else old(lines[..])[v].block)
      ensures replaceDelay == 2 && dtagcmpRefill == old(dcacheRefill)
    {
      var p := dcacheRefill;
      var v := VictimLine(p.block, way);
      ghost var ls := lines[..];
      assert LineOk(ls[v], v, refill);
      ReplaceKeepsSlots(slots[..], ls, v, p);
      replaceBlock := if lines[v].status == INVALID then 0 else lines[v].block;
      lines[v] := Line(p.block, INVALID);
      assert lines[..] == ls[v := Line(p.block, INVALID)];
      refill := Refill(v, p.block, p.exclusive, []);
      replaceDelay := 2;
      dtagcmpRefill, dtagcmpBlk, dcacheRefill := p, v, NoPacket;
    }

    method VictimLine(block: nat, way: nat) returns (v: nat)
      requires way < lines.Length
      ensures v == Victim(lines[..], block, way)
    {
      v := way;
      for i := 0 to lines.Length
        invariant v == VictimFrom(lines[..], block, way, i)
      {
        if lines[i].block == block && lines[i].status == SHARED {
          v := i;
        }
      }
    }

    /** The line search of `cache_probe` and of the interventions. */
    method FindLine(block: nat, partial: bool) returns (i: int)
      ensures i == Find(lines[..], block, partial)
    {
      i := 0;
      while i < lines.Length
        invariant 0 <= i <= lines.Length
        invariant Find(lines[..], block, partial, i) == Find(lines[..], block, partial)
      {
        if Holds(lines[i], block, partial) {
          return;
        }
        i := i + 1;
      }
      i := -1;
    }

    /** An intervention in the data-cache stage.  INVALIDATE stops the simulator on an owned block. */
    method DcacheIntervene()
      requires Compared() && dcacheRefill.Intervening?
      requires Invalidable(lines[..], dcacheRefill)
      modifies lines, this`replaceDelay, this`dtagcmpRefill, this`dtagcmpBlk, this`dcacheRefill
      ensures Valid() && dcacheRefill.NoPacket?
      ensures var i, p := Find(old(lines[..]), old(dcacheRefill.block), true), old(dcacheRefill);
              lines[..] == if i == -1 then old(lines[..])
                           else old(lines[..])[i := Line(p.block, Intervened(p.kind))]
      ensures replaceDelay == 2 && dtagcmpRefill == old(dcacheRefill)
    {
      var p := dcacheRefill;
      var i := FindLine(p.block, true);
      ghost var ls := lines[..];
      IntervenesKeepsSlots(slots[..], ls, i, p);
      if i != -1 {
        lines[i] := lines[i].(status := Intervened(p.kind));
        assert lines[..] == ls[i := Line(p.block, Intervened(p.kind))];
      }
      replaceDelay := 2;
      dtagcmpRefill, dtagcmpBlk, dcacheRefill := p, i, NoPacket;
    }

    /** A refill word in the data-cache stage; the fourth one makes the block valid. */
    method DcacheFill()
      requires Compared() && dcacheRefill.Filling?
      modifies lines, this`refill, this`dtagcmpRefill, this`dtagcmpBlk, this`dcacheRefill
      ensures Valid() && dcacheRefill.NoPacket?
      ensures var r, p := old(refill), old(dcacheRefill);
              && r.Refill? && r.block == p.block && r.line < lines.Length
              && (p.cnt < 4 ==> refill == r.(words := r.words + [p.word]) && lines[..] == old(lines[..]))
              && (p.cnt == 4 ==> refill == NoRefill)
              && (p.cnt == 4 ==>
                    lines[..] == old(lines[..])[r.line :=
                      Line(p.block, MarkValid(old(lines[r.line].status), r.exclusive))])
              && dtagcmpRefill == p && dtagcmpBlk == r.line
    {
      var p := dcacheRefill;
      var r := refill;
      ghost var ls := lines[..];
      assert LineOk(ls[r.line], r.line, r);
      FillKeepsSlots(slots[..], ls, r, p);
      dtagcmpRefill, dtagcmpBlk, dcacheRefill := p, r.line, NoPacket;
      refill := r.(words := r.words + [p.word]);
      if p.cnt == 4 {
        MarkValidProper(ls[r.line], r);
        lines[r.line] := lines[r.line].(status := MarkValid(lines[r.line].status, r.exclusive));
        assert lines[..] == ls[r.line := lines[r.line]];
        refill := NoRefill;
      }
    }

    /** A store is probed; an exclusive block becomes modified at once. */
    method DcacheStore()
      requires Compared() && dcacheRefill.NoPacket? && dcachei != -1
      modifies lines, slots, this`dcachei, this`dtagcmpi
      ensures Valid() && dcacheRefill.NoPacket? && dcachei == -1
      ensures var j := old(dcachei);
              var i := Probe(old(lines[..]), refill, old(slots[j].block), old(slots[j].word));
              && dtagcmpi == j && slots[..] == old(slots[..])[j := old(slots[j]).(phase := Probed, blk := i)]
              && lines[..] == if i != -1 && old(lines[..])[i].status == EXCLUSIVE
                              then old(lines[..])[i := Line(old(slots[j].block), MODIFIED)] else old(lines[..])
    {
      var j := dcachei;
      var block := slots[j].block;
      ghost var ls, ss := lines[..], slots[..];
      var i := FindLine(block, false);
      if i != -1 {
        assert LineOk(ls[i], i, refill);
        if lines[i].status == EXCLUSIVE {
          lines[i] := lines[i].(status := MODIFIED);
        } else if lines[i].status == SHARED {
          i := -1;
        }
      } else if refill.Refill? && refill.block == block && slots[j].word in refill.words && refill.exclusive {
        i := refill.line;
        assert LineOk(ls[i], i, refill);
      }
      assert i == Probe(ls, refill, block, slots[j].word);
      assert lines[..] == if i != -1 && ls[i].status == EXCLUSIVE then ls[i := Line(block, MODIFIED)] else ls;
      slots[j] := slots[j].(phase := Probed, blk := i);
      assert slots[..] == ss[j := slots[j]];
      ProbeKeepsSlots(ss, ls, refill, j, i);
      dcachei, dtagcmpi := -1, j;
    }

    /** The last stage: the packet on the bus, or else the issued store, moves on. */
    method Memaddr()
      requires Valid() && dcacheRefill.NoPacket? && dcachei == -1
      modifies this`bus, this`dcacheRefill, this`dcachei, this`issuei
      ensures Valid() && bus.NoPacket? && dcacheRefill == old(bus)
      ensures dcachei == if old(bus).NoPacket? then old(issuei) else -1
      ensures lines[..] == old(lines[..]) && slots[..] == old(slots[..])
    {
      if !bus.NoPacket? {
        dcacheRefill, bus := bus, NoPacket;
      } else if issuei != -1 {
        dcachei, issuei := issuei, -1;
      }
    }

    /** One cycle of `lsq_stage` for this state: the stages run from the last to the first. */
    method LsqStage(head: int, bankFree: bool, way: nat)
      requires Valid() && way < lines.Length
      requires -1 <= head < slots.Length && (head != -1 ==> slots[head].phase == Committed && slots[head].ready)
      requires Invalidable(lines[..], dcacheRefill)
      modifies lines, slots, this
      ensures Valid() && bus.NoPacket?
      ensures dcacheRefill == old(bus) && dtagcmpRefill == old(dcacheRefill)
      ensures dtagcmpi == if old(dcacheRefill).NoPacket? then old(dcachei) else -1
      ensures dcachei == if old(bus).NoPacket? then old(issuei) else -1
    {
      if head != -1 {
        var written := DcacheWrite(head, bankFree);
      }
      Dtagcmp();
      if replaceDelay > 0 {
        replaceDelay := replaceDelay - 1;
      }
      Dcache(way);
      Memaddr();
    }

    method Dcache(way: nat)
      requires Compared() && way < lines.Length && Invalidable(lines[..], dcacheRefill)
      modifies lines, slots, this`refill, this`replaceBlock, this`replaceDelay, this`dtagcmpRefill, this`dtagcmpBlk,
               this`dcacheRefill, this`dcachei, this`dtagcmpi
      ensures Valid() && dcacheRefill.NoPacket? && dcachei == -1
      ensures dtagcmpRefill == old(dcacheRefill)
      ensures dtagcmpi == if old(dcacheRefill).NoPacket? then old(dcachei) else -1
    {
      match dcacheRefill {
        case Replacing(_, _) => DcacheReplace(way);
        case Intervening(_, _) => DcacheIntervene();
        case Filling(_, _, _, _) => DcacheFill();
        case NoPacket => if dcachei != -1 { DcacheStore(); }
      }
    }
  }

  /** `invalidate` stops the simulator when it finds an owned block. */
  predicate Invalidable(ls: seq<Line>, p: Packet)
  {
    p.Intervening? && p.kind == Invalidate ==>
      forall i | 0 <= i < |ls| && ls[i].block == p.block :: ls[i].status == SHARED || ls[i].status == INVALID
  }

  lemma ReplaceKeepsSlots(ss: seq<Slot>, ls: seq<Line>, v: nat, p: Packet)
    requires p.Replacing? && LinesOk(ls, NoRefill) && SlotsOk(ss, ls, NoRefill, NoPacket, 0) && v < |ls|
    requires forall j | 0 <= j < |ss| :: ss[j].phase != Probed
    ensures SlotsOk(ss, ls[v := Line(p.block, INVALID)], Refill(v, p.block, p.exclusive, []), p,
                    if ls[v].status == INVALID then 0 else ls[v].block)
    ensures LinesOk(ls[v := Line(p.block, INVALID)], Refill(v, p.block, p.exclusive, []))
  {
    assert forall i | 0 <= i < |ls| :: LineOk(ls[i], i, NoRefill);
  }

  lemma IntervenesKeepsSlots(ss: seq<Slot>, ls: seq<Line>, i: int, p: Packet)
    requires p.Intervening? && LinesOk(ls, NoRefill) && SlotsOk(ss, ls, NoRefill, NoPacket, 0)
    requires -1 <= i < |ls| && (i != -1 ==> ls[i].block == p.block)
    requires forall j | 0 <= j < |ss| :: ss[j].phase != Probed
    ensures var ls' := if i == -1 then ls else ls[i := Line(p.block, Intervened(p.kind))];
            LinesOk(ls', NoRefill) && SlotsOk(ss, ls', NoRefill, p, 0)
  {
    assert forall k | 0 <= k < |ls| :: LineOk(ls[k], k, NoRefill);
  }

  lemma FillKeepsSlots(ss: seq<Slot>, ls: seq<Line>, r: Refill, p: Packet)
    requires r.Refill? && LinesOk(ls, r) && SlotsOk(ss, ls, r, NoPacket, 0) && p.Filling?
    ensures SlotsOk(ss, ls, r.(words := r.words + [p.word]), NoPacket, 0)
    ensures var ls' := ls[r.line := Line(r.block, MarkValid(ls[r.line].status, r.exclusive))];
            LinesOk(ls', NoRefill) && SlotsOk(ss, ls', NoRefill, NoPacket, 0)
  {
    assert forall k | 0 <= k < |ls| :: LineOk(ls[k], k, r);
    MarkValidProper(ls[r.line], r);
  }

  lemma ProbeKeepsSlots(ss: seq<Slot>, ls: seq<Line>, r: Refill, j: nat, i: int)
    requires LinesOk(ls, r) && SlotsOk(ss, ls, r, NoPacket, 0) && j < |ss| && i == Probe(ls, r, ss[j].block, ss[j].word)
    ensures var ls' := if i != -1 && ls[i].status == EXCLUSIVE then ls[i := Line(ss[j].block, MODIFIED)] else ls;
            LinesOk(ls', r) && SlotsOk(ss[j := ss[j].(phase := Probed, blk := i)], ls', r, NoPacket, 0)
  {
    assert forall k | 0 <= k < |ls| :: LineOk(ls[k], k, r);
  }

  /** What one slot becomes in the tag-compare stage. */
  function Compare(s: Slot, dt: Packet, replaceBlock: nat, blk: int): Slot
  {
    if s.phase == Probed then s.(phase := Arrived, ready := s.blk != -1)
    else if s.phase != Arrived && s.phase != Committed then s
    else if Disarms(dt, replaceBlock, s.block) then s.(ready := false, blk := -1)
    else if dt.Filling? && dt.exclusive && s.block == dt.block && s.word == dt.word then s.(ready := true, blk := blk)
    else s
  }

  lemma CompareArms(was: seq<Slot>, ss: seq<Slot>, ls: seq<Line>, r: Refill, dt: Packet, replaceBlock: nat, blk: int)
    requires |ss| == |was| && forall j | 0 <= j < |ss| :: ss[j] == Compare(was[j], dt, replaceBlock, blk)
    requires SlotsOk(was, ls, r, dt, replaceBlock) && FillOk(ls, r, dt, blk)
    ensures SlotsOk(ss, ls, r, NoPacket, 0)
  {
    forall j | 0 <= j < |ss| && Armed(ss[j])
      ensures Owned(ls, r, ss[j].blk, ss[j].block)
    {
      assert ss[j] == Compare(was[j], dt, replaceBlock, blk);
      assert Armed(was[j]) || (dt.Filling? && ss[j].blk == blk && ss[j].block == dt.block);
    }
  }

  /** A dirty bit takes no block away. */
  lemma DirtyKeepsOwned(ls: seq<Line>, r: Refill, i: nat, block: nat)
    requires LinesOk(ls, r) && Owned(ls, r, i, block)
    ensures var ls' := ls[i := ls[i].(status := ls[i].status | DIRTY)];
            forall k, b :: Owned(ls, r, k, b) ==> Owned(ls', r, k, b)
  {
    assert LineOk(ls[i], i, r);
  }
}
