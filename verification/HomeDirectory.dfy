/** The home side as the simulator stores it: per-processor flag arrays for the data and the
    instruction caches in the L2 line and in the miss-queue entry, walked by loops (`scache_probe`,
    the MQ_MODIFY_L1 part of `cache2mem`, `home_enter`, the home's writeback queue).  Each method is
    proved to perform the transition of modules `Coherence` and `DirtyData`.  */
module HomeDirectory {
  import opened Coherence
  import opened DirtyData

  /** The states of a miss-queue entry that the home side of a block tells apart. */
  datatype EntryState = Empty | ReadL2 | ModifyL1 | L2Miss | ReplaceL1 | ExtRdy

  function Members(a: seq<bool>): set<Cache>
  {
    set i: nat | i < |a| && a[i]
  }

  lemma MembersUpdate(a: seq<bool>, i: nat, b: bool)
    requires i < |a|
    ensures Members(a[i := b]) == if b then Members(a) + {i} else Members(a) - {i}
  {
  }

  /** One flag for the data cache and one for the instruction cache of each processor. */
  class Flags {
    const data: array<bool>
    const inst: array<bool>

    ghost predicate Valid(n: nat)
    {
      data.Length == inst.Length == n && data != inst
    }

    /** The caches whose flag is set. */
    ghost function On(): set<Cache>
      reads data, inst
    {
      Members(data[..] + inst[..])
    }

    ghost predicate Has(c: Cache)
      requires data.Length == inst.Length
      reads data, inst
    {
      if c < data.Length then data[c] else c < 2 * data.Length && inst[c - data.Length]
    }

    constructor (n: nat)
      ensures Valid(n) && fresh(data) && fresh(inst) && On() == {}
    {
      data := new bool[n](_ => false);
      inst := new bool[n](_ => false);
      new;
      assert Members(data[..] + inst[..]) == {};
    }

    lemma OnHas(n: nat)
      requires Valid(n)
      ensures forall c: Cache :: c in On() <==> Has(c)
    {
    }

    method Get(cpu: nat, isInst: bool) returns (b: bool)
      requires Valid(data.Length) && cpu < data.Length
      ensures b <==> (if isInst then cpu + data.Length else cpu) in On()
    {
      OnHas(data.Length);
      b := if isInst then inst[cpu] else data[cpu];
    }

    method Set(cpu: nat, isInst: bool, b: bool)
      requires Valid(data.Length) && cpu < data.Length
      modifies data, inst
      ensures var c := if isInst then cpu + data.Length else cpu;
              On() == if b then old(On()) + {c} else old(On()) - {c}
    {
      if isInst {
        MembersUpdate(data[..] + inst[..], cpu + data.Length, b);
        inst[cpu] := b;
        assert data[..] + inst[..] == (old(data[..]) + old(inst[..]))[cpu + data.Length := b];
      } else {
        MembersUpdate(data[..] + inst[..], cpu, b);
        data[cpu] := b;
        assert data[..] + inst[..] == (old(data[..]) + old(inst[..]))[cpu := b];
      }
    }
  }

  class L2Line {
    var status: Status
    var dirty: bool
    const directory: Flags

    constructor (cpus: nat)
      ensures status == Invalid && !dirty && directory.Valid(cpus) && directory.On() == {}
      ensures fresh(directory) && fresh(directory.data) && fresh(directory.inst)
    {
      status, dirty := Invalid, false;
      directory := new Flags(cpus);
    }
  }

  class MissEntry {
    var state: EntryState
    var cpuid: nat
    var inst: bool
    var req: Request
    var interventionType: Intervention
    var readLocalL2: bool
    var waitForResponse: nat
    const directory: Flags
    const sent: Flags
    const acked: Flags

    constructor (cpus: nat)
      ensures state == Empty && cpuid == 0 && !inst && req == ReadShd
      ensures directory.Valid(cpus) && sent.Valid(cpus) && acked.Valid(cpus)
      ensures fresh(directory.data) && fresh(directory.inst) && fresh(sent.data) && fresh(sent.inst)
      ensures fresh(acked.data) && fresh(acked.inst)
      ensures directory.data != sent.data && directory.data != sent.inst && directory.inst != sent.data
      ensures directory.inst != sent.inst && directory.data != acked.data && directory.data != acked.inst
      ensures directory.inst != acked.data && directory.inst != acked.inst && sent.data != acked.data
      ensures sent.data != acked.inst && sent.inst != acked.data && sent.inst != acked.inst
    {
      state := Empty;
      cpuid, inst, req, interventionType, readLocalL2, waitForResponse := 0, false, ReadShd, InterventionShd, false, 0;
      directory := new Flags(cpus);
      sent := new Flags(cpus);
      acked := new Flags(cpus);
    }
  }

  /** An entry with the line it is about (`L2_changed_blk`), in the home of processor `cpu`. */
  class HomeSlot {
    const cpu: nat
    const cpus: nat
    const line: L2Line
    const entry: MissEntry

    ghost function Repr(): set<object>
    {
      {line, entry} + Arrays(line.directory) + Arrays(entry.directory) + Arrays(entry.sent) + Arrays(entry.acked)
    }

    static ghost function Arrays(f: Flags): set<object>
    {
      {f.data, f.inst}
    }

    ghost predicate Valid()
      reads entry
    {
      && cpu < cpus && entry.cpuid < cpus
      && line.directory.Valid(cpus) && entry.directory.Valid(cpus) && entry.sent.Valid(cpus) && entry.acked.Valid(cpus)
      && Arrays(line.directory) !! Arrays(entry.directory) !! Arrays(entry.sent) !! Arrays(entry.acked)
    }

    /** The cache that asks. */
    function Requester(): Cache
      reads entry
    {
      if entry.inst then entry.cpuid + cpus else entry.cpuid
    }

    ghost function ActiveTxn(): Txn
      reads entry, Arrays(entry.directory), Arrays(entry.sent), Arrays(entry.acked)
    {
      match entry.state
      case ReadL2 =>
        if entry.readLocalL2 then Probing(Requester(), entry.req)
        else Waiting(Requester(), entry.req, entry.waitForResponse == 2)
      case ModifyL1 =>
        Modify(Requester(), entry.req, entry.interventionType,
               entry.directory.On(), entry.sent.On(), entry.acked.On())
      case L2Miss => Drain(entry.directory.On(), entry.sent.On(), entry.acked.On())
      case _ => Idle
    }

    /** The state of the home as module `Coherence` sees it. */
    ghost function View(): Home
      reads line, entry, Arrays(line.directory)
      reads Arrays(entry.directory), Arrays(entry.sent), Arrays(entry.acked)
    {
      Home(cpu, cpus, line.status, line.directory.On(), ActiveTxn())
    }

    constructor (cpu: nat, cpus: nat)
      requires cpu < cpus
      ensures Valid() && fresh(Repr()) && View() == Home(cpu, cpus, Invalid, {}, Idle) && !line.dirty
    {
      this.cpu, this.cpus := cpu, cpus;
      var l := new L2Line(cpus);
      var e := new MissEntry(cpus);
      line, entry := l, e;
    }

    /** The loop of `scache_probe` that copies the directory without the requesting processor and
        clears the answer flags; instruction flags are copied from a SHARED line only. */
    method CopyDirectory(withInst: bool)
      requires Valid()
      modifies Arrays(entry.directory), Arrays(entry.sent), Arrays(entry.acked)
      ensures forall c: Cache :: c in entry.directory.On() <==>
                c in line.directory.On() && c != entry.cpuid && c != entry.cpuid + cpus && (withInst || c < cpus)
      ensures entry.sent.On() == {} && entry.acked.On() == {}
    {
      for i := 0 to cpus
        invariant forall k | 0 <= k < i ::
                    && entry.directory.data[k] == (k != entry.cpuid && line.directory.data[k])
                    && entry.directory.inst[k] == (withInst && k != entry.cpuid && line.directory.inst[k])
        invariant forall k | 0 <= k < i :: !entry.sent.data[k] && !entry.acked.data[k]
        invariant forall k | 0 <= k < i :: !entry.sent.inst[k] && !entry.acked.inst[k]
      {
        entry.directory.data[i] := if i == entry.cpuid then false else line.directory.data[i];
        entry.directory.inst[i] := if !withInst || i == entry.cpuid then false else line.directory.inst[i];
        entry.sent.data[i] := false;
        entry.acked.data[i] := false;
        entry.sent.inst[i] := false;
        entry.acked.inst[i] := false;
      }
      line.directory.OnHas(cpus);
      entry.directory.OnHas(cpus);
      entry.sent.OnHas(cpus);
      entry.acked.OnHas(cpus);
    }

    /** The entry goes to MQ_MODIFY_L1. */
    method StartModify(itype: Intervention)
      requires Valid() && (line.status == Exclusive || line.status == Shared)
      modifies entry, Arrays(entry.directory), Arrays(entry.sent), Arrays(entry.acked)
      ensures Valid() && entry.cpuid == old(entry.cpuid) && entry.inst == old(entry.inst) && entry.req == old(entry.req)
      ensures var h := old(View());
              View() == h.(txn := Modify(Requester(), entry.req, itype, Others(h, Requester()), {}, {}))
    {
      CopyDirectory(line.status == Shared);
      entry.state := ModifyL1;
      entry.readLocalL2 := false;
      entry.interventionType := itype;
      entry.waitForResponse := 0;
      line.directory.OnHas(cpus);
      assert entry.directory.On() == Others(old(View()), Requester());
    }

    /** A read hits a SHARED line: the requester's flag is set and the data is ready. */
    method GrantShared()
      requires Valid() && line.status == Shared
      modifies entry, Arrays(line.directory)
      ensures Valid() && entry.cpuid == old(entry.cpuid) && entry.inst == old(entry.inst) && entry.req == old(entry.req)
      ensures View() == old(View()).(txn := Idle, dir := old(View()).dir + {Requester()})
      ensures entry.state == if entry.cpuid == cpu then ReplaceL1 else ExtRdy
    {
      line.directory.Set(entry.cpuid, entry.inst, true);
      entry.state := if entry.cpuid == cpu then ReplaceL1 else ExtRdy;
      entry.readLocalL2 := false;
      entry.waitForResponse := 0;
    }

    /** `scache_probe` for a request that hits a valid line. */
    method ScacheProbe() returns (granted: bool)
      requires Valid() && line.status != Invalid && line.status != Modified
      requires entry.state == ReadL2 && (entry.readLocalL2 || entry.waitForResponse == 2)
      requires entry.inst ==> entry.req == ReadShd
      modifies entry, Arrays(line.directory), Arrays(entry.directory), Arrays(entry.sent), Arrays(entry.acked)
      ensures Valid() && entry.cpuid == old(entry.cpuid) && entry.inst == old(entry.inst) && entry.req == old(entry.req)
      ensures (View(), granted) == ProbeHome(old(View()), Requester(), entry.req)
      ensures granted ==> entry.state == (if entry.cpuid == cpu then ReplaceL1 else ExtRdy)
    {
      granted := false;
      var req := entry.req;
      var held := line.directory.Get(entry.cpuid, entry.inst);
      if line.status == Exclusive {
        if held {
          entry.waitForResponse := 1;
          entry.readLocalL2 := false;
        } else {
          StartModify(if req == ReadShd then InterventionShd else InterventionExc);
        }
      } else if req == Upgrade {
        StartModify(Invalidate);
      } else if held {
        entry.waitForResponse := 1;
        entry.readLocalL2 := false;
      } else if req == ReadShd {
        GrantShared();
        granted := true;
      } else {
        StartModify(Invalidate);
      }
    }

    /** The loop that copies the directory of a victim whole. */
    method CopyVictim()
      requires Valid()
      modifies Arrays(entry.directory), Arrays(entry.sent), Arrays(entry.acked)
      ensures entry.directory.On() == line.directory.On()
      ensures entry.sent.On() == {} && entry.acked.On() == {}
    {
      for i := 0 to cpus
        invariant forall k | 0 <= k < i ::
                    && entry.directory.data[k] == line.directory.data[k]
                    && entry.directory.inst[k] == line.directory.inst[k]
        invariant forall k | 0 <= k < i :: !entry.sent.data[k] && !entry.acked.data[k]
        invariant forall k | 0 <= k < i :: !entry.sent.inst[k] && !entry.acked.inst[k]
      {
        entry.directory.data[i] := line.directory.data[i];
        entry.directory.inst[i] := line.directory.inst[i];
        entry.sent.data[i] := false;
        entry.sent.inst[i] := false;
        entry.acked.data[i] := false;
        entry.acked.inst[i] := false;
      }
      line.directory.OnHas(cpus);
      entry.directory.OnHas(cpus);
      entry.sent.OnHas(cpus);
      entry.acked.OnHas(cpus);
    }

    /** The victim is drained when a miss takes its way over. */
    method BeginDrain()
      requires Valid() && line.status != Invalid
      modifies entry`state, Arrays(entry.directory), Arrays(entry.sent), Arrays(entry.acked)
      ensures Valid()
      ensures View() == old(View()).(txn := Drain(line.directory.On(), {}, {}))
    {
      CopyVictim();
      entry.state := L2Miss;
    }

    function Processor(c: Cache): nat
    {
      if c < cpus then c else c - cpus
    }

    /** A remote cache that the entry names and that has not been asked; instruction caches are asked
        about SHARED lines only. */
    predicate Asked(c: Cache, t: Txn)
      requires t.Modify? || t.Drain?
      reads line
    {
      c in t.tdir && c !in t.sent && Processor(c) != cpu && (c >= cpus ==> line.status == Shared)
    }

    lemma NoneAsked(i: nat)
      requires Valid() && (entry.state == ModifyL1 || entry.state == L2Miss)
      requires forall k | 0 <= k < cpus && k < i && k != cpu ::
                 && (entry.directory.data[k] ==> entry.sent.data[k])
                 && (line.status == Shared && entry.directory.inst[k] ==> entry.sent.inst[k])
      ensures forall c: Cache :: Processor(c) < i ==> !Asked(c, ActiveTxn())
    {
      entry.directory.OnHas(cpus);
      entry.sent.OnHas(cpus);
    }

    /** The loop that looks for a remote cache to send an intervention to, the data cache of each
        processor before its instruction cache.  `room` says whether the router takes a packet, so
        at most one is sent per call. */
    method SendIntervention(room: bool) returns (target: int)
      requires Valid() && (entry.state == ModifyL1 || entry.state == L2Miss)
      modifies Arrays(entry.sent)
      ensures Valid() && -1 <= target
      ensures 0 <= target ==>
                && room && Asked(target, old(ActiveTxn()))
                && View() == old(View()).(txn := WithSent(old(ActiveTxn()), old(ActiveTxn()).sent + {target}))
      ensures 0 <= target ==>
                forall c: Cache :: Processor(c) < Processor(target) ==> !Asked(c, old(ActiveTxn()))
      ensures target == -1 ==> View() == old(View())
      ensures target == -1 && room ==> forall c: Cache :: Processor(c) < cpus ==> !Asked(c, old(ActiveTxn()))
    {
      target := -1;
      ghost var t := ActiveTxn();
      for i := 0 to cpus
        invariant target == -1 && View() == old(View()) && ActiveTxn() == t
        invariant room ==> forall k | 0 <= k < i && k != cpu ::
                    && (entry.directory.data[k] ==> entry.sent.data[k])
                    && (line.status == Shared && entry.directory.inst[k] ==> entry.sent.inst[k])
      {
        var data := i != cpu && entry.directory.data[i] && !entry.sent.data[i];
        var inst := i != cpu && line.status == Shared && entry.directory.inst[i] && !entry.sent.inst[i];
        if room && (data || inst) {
          NoneAsked(i);
          entry.directory.OnHas(cpus);
          entry.sent.OnHas(cpus);
          entry.sent.Set(i, !data, true);
          target := if data then i else i + cpus;
          return;
        }
      }
      if room {
        NoneAsked(cpus);
      }
    }

    /** What the loop below finds true of the flags. */
    ghost predicate Answered(i: nat)
      requires Valid() && i <= cpus
      reads entry, Arrays(entry.directory), Arrays(entry.sent), Arrays(entry.acked)
    {
      forall k | 0 <= k < i ::
        && (entry.directory.data[k] ==> entry.acked.data[k]) && entry.sent.data[k] == entry.acked.data[k]
        && (entry.directory.inst[k] ==> entry.acked.inst[k]) && entry.sent.inst[k] == entry.acked.inst[k]
    }

    lemma AnsweredAll()
      requires Valid() && (entry.state == ModifyL1 || entry.state == L2Miss)
      ensures Answered(cpus) <==> AllAcked(ActiveTxn())
    {
      entry.directory.OnHas(cpus);
      entry.sent.OnHas(cpus);
      entry.acked.OnHas(cpus);
      if Answered(cpus) {
        assert entry.sent.On() == entry.acked.On();
      } else {
        var k: nat :| k < cpus && !(
          && (entry.directory.data[k] ==> entry.acked.data[k]) && entry.sent.data[k] == entry.acked.data[k]
          && (entry.directory.inst[k] ==> entry.acked.inst[k]) && entry.sent.inst[k] == entry.acked.inst[k]);
        assert entry.directory.Has(k) == entry.directory.data[k];
        assert entry.directory.Has(k + cpus) == entry.directory.inst[k];
        assert entry.sent.Has(k) == entry.sent.data[k] && entry.sent.Has(k + cpus) == entry.sent.inst[k];
        assert entry.acked.Has(k) == entry.acked.data[k] && entry.acked.Has(k + cpus) == entry.acked.inst[k];
      }
    }

    /** The loop that checks whether every answer has come. */
    method AllAcksReceived() returns (all: bool)
      requires Valid() && (entry.state == ModifyL1 || entry.state == L2Miss)
      ensures all <==> AllAcked(ActiveTxn())
    {
      all := true;
      for i := 0 to cpus
        invariant all <==> Answered(i)
      {
        if (entry.directory.data[i] && !entry.acked.data[i]) || entry.sent.data[i] != entry.acked.data[i] {
          all := false;
        }
        if (entry.directory.inst[i] && !entry.acked.inst[i]) || entry.sent.inst[i] != entry.acked.inst[i] {
          all := false;
        }
      }
      AnsweredAll();
    }

    /** The directory goes from the entry into the line. */
    method RestoreDirectory()
      requires Valid()
      modifies Arrays(line.directory)
      ensures line.directory.On() == entry.directory.On()
    {
      for i := 0 to cpus
        invariant forall k | 0 <= k < i ::
                    && line.directory.data[k] == entry.directory.data[k]
                    && line.directory.inst[k] == entry.directory.inst[k]
      {
        line.directory.data[i] := entry.directory.data[i];
        line.directory.inst[i] := entry.directory.inst[i];
      }
      line.directory.OnHas(cpus);
      entry.directory.OnHas(cpus);
    }

    /** The directory of a new owner: its data bit alone. */
    method OwnDirectory()
      requires Valid()
      modifies Arrays(line.directory)
      ensures line.directory.On() == {entry.cpuid}
    {
      for i := 0 to cpus
        invariant forall k | 0 <= k < i :: line.directory.data[k] == (k == entry.cpuid) && !line.directory.inst[k]
      {
        line.directory.data[i] := i == entry.cpuid;
        line.directory.inst[i] := false;
      }
      line.directory.OnHas(cpus);
      assert line.directory.Has(entry.cpuid);
    }

    /** The line of a shared request: the directory of the entry and the requester. */
    method ShareLine()
      requires Valid()
      modifies line`status, Arrays(line.directory)
      ensures line.status == Shared && line.directory.On() == entry.directory.On() + {Requester()}
    {
      RestoreDirectory();
      line.status := Shared;
      line.directory.Set(entry.cpuid, entry.inst, true);
    }

    /** The line of an exclusive request. */
    method OwnLine()
      requires Valid()
      modifies line`status, Arrays(line.directory)
      ensures line.status == Exclusive && line.directory.On() == {entry.cpuid}
    {
      RestoreDirectory();
      line.status := Exclusive;
      OwnDirectory();
    }

    /** MQ_MODIFY_L1 is left: the directory goes back into the line. */
    method CompleteModify() returns (exclusive: bool)
      requires Valid() && entry.state == ModifyL1 && (entry.inst ==> entry.req == ReadShd)
      modifies line`status, Arrays(line.directory), entry`state
      ensures Valid()
      ensures View() == CompleteHome(old(View())) && exclusive == (entry.req != ReadShd)
      ensures entry.state == if entry.cpuid == cpu then ReplaceL1 else ExtRdy
    {
      exclusive := entry.req != ReadShd;
      if exclusive {
        OwnLine();
      } else {
        ShareLine();
      }
      entry.state := if entry.cpuid == cpu then ReplaceL1 else ExtRdy;
    }

    /** The cache that an answer is booked for: always the data cache when the entry waits for answers
        to an INTERVENTION_SHD. */
    function Answering(from: nat, inst: bool): Cache
      reads entry
    {
      if inst && !(entry.state == ModifyL1 && entry.interventionType == InterventionShd) then from + cpus else from
    }

    /** `home_enter` (and the refill bus, for the data cache of the home) hands an answer to the
        entry. */
    method ReceiveAck(from: nat, inst: bool, status: Status)
      requires Valid() && (entry.state == ModifyL1 || entry.state == L2Miss) && from < cpus
      requires AckAsserts(View(), status)
      modifies line`dirty, Arrays(entry.sent), Arrays(entry.acked)
      ensures Valid() && View() == AckHome(old(View()), Answering(from, inst), status)
      ensures line.dirty == AckDirty(old(View()), status, old(line.dirty))
    {
      hide Members;
      var instFlags := inst && !(entry.state == ModifyL1 && entry.interventionType == InterventionShd);
      var expected: bool;
      if entry.state == L2Miss {
        expected := line.status == status
                    || (line.status == Exclusive && (status == Exclusive || status == Modified));
        if status == Modified {
          line.dirty := true;
        }
      } else {
        match entry.interventionType {
          case InterventionShd => expected := status == Exclusive || status == Modified;
          case InterventionExc => expected := line.status == status || (line.status == Exclusive && status == Modified);
          case Invalidate => expected := line.status == status;
        }
        if expected && status == Modified && entry.interventionType != Invalidate {
          line.dirty := true;
        }
      }
      if expected {
        entry.acked.Set(from, instFlags, true);
      } else {
        entry.sent.Set(from, instFlags, false);
      }
    }

    /** A writeback that meets an entry in MQ_MODIFY_L1 or MQ_L2_MISS clears the entry's flag only. */
    method WritebackToEntry(from: nat, inst: bool)
      requires Valid() && from < cpus && (entry.state == ModifyL1 || entry.state == L2Miss)
      modifies Arrays(entry.directory)
      ensures Valid() && View() == WritebackHome(old(View()), if inst then from + cpus else from)
    {
      entry.directory.Set(from, inst, false);
    }

    /** `scache_writeback`, and the wake-up of a request that waits for it.  A line that is not valid stays
        as it is. */
    method WritebackToLine(from: nat, inst: bool, status: Status)
      requires Valid() && from < cpus
      requires entry.state != ModifyL1 && entry.state != L2Miss && !(entry.state == ReadL2 && entry.readLocalL2)
      modifies line`dirty, Arrays(line.directory), entry`waitForResponse
      ensures Valid() && View() == LineWritten(old(View()), if inst then from + cpus else from)
      ensures line.dirty ==
              if line.status == Invalid then old(line.dirty) else WritebackDirty(old(View()), status, old(line.dirty))
    {
      if entry.state == ReadL2 && entry.cpuid == from {
        entry.waitForResponse := 2;
      }
      if line.status != Invalid {
        line.directory.Set(from, inst, false);
        if status == Modified {
          line.dirty := true;
        }
      }
    }

    /** The answer of the home's own instruction cache comes through the writeback queue. */
    method AnswerFromQueue(from: nat, status: Status)
      requires Valid() && from < cpus && (status == Shared || status == Invalid)
      requires entry.state == L2Miss || entry.state == ModifyL1
      modifies Arrays(entry.sent), Arrays(entry.acked)
      ensures Valid() && View() == QueueAnswered(old(View()), from + cpus, status)
    {
      if status == Shared {
        entry.acked.Set(from, true, true);
      } else {
        entry.sent.Set(from, true, false);
      }
    }

    /** The head of the home's own writeback queue: a writeback goes into the entry while it modifies
        or drains L1 copies and into the L2 line otherwise, unless the line is just being read.  Only an
        instruction cache answers this way, as the source asserts. */
    method IssueWriteback(from: nat, inst: bool, status: Status, intervention: bool) returns (issued: bool)
      requires Valid() && from < cpus
      requires intervention && (entry.state == ModifyL1 || entry.state == L2Miss) ==>
                 inst && (status == Shared || status == Invalid)
      modifies line`dirty, Arrays(line.directory), entry`waitForResponse
      modifies Arrays(entry.directory), Arrays(entry.sent), Arrays(entry.acked)
      ensures Valid() && (issued <==> !old(ActiveTxn()).Probing?)
      ensures !issued ==> View() == old(View()) && line.dirty == old(line.dirty)
      ensures var h, c := old(View()), if inst then from + cpus else from;
              var answer := intervention && (h.txn.Modify? || h.txn.Drain?);
              && (issued ==> View() == if answer then QueueAnswered(h, c, status) else LineWritten(h, c))
              && (issued && !answer && h.l2 != Invalid ==> line.dirty == WritebackDirty(h, status, old(line.dirty)))
              && (answer || h.l2 == Invalid ==> line.dirty == old(line.dirty))
    {
      issued := true;
      if entry.state == ModifyL1 || entry.state == L2Miss {
        if intervention {
          AnswerFromQueue(from, status);
        } else {
          WritebackToEntry(from, inst);
        }
      } else if entry.state == ReadL2 && entry.readLocalL2 {
        issued := false;
      } else {
        WritebackToLine(from, inst, status);
      }
    }
  }

  /** A writeback of `c` at its home: a line that is not valid keeps its directory.  When there is nothing
      in the directory of such a line, this is the transition of `Coherence`. */
  function LineWritten(h: Home, c: Cache): (r: Home)
    ensures (h.l2 == Invalid ==> h.dir == {}) ==> r == WritebackHome(h, c)
  {
    if h.l2 == Invalid && !h.txn.Modify? && !h.txn.Drain? then WritebackHome(h, c).(dir := h.dir)
    else WritebackHome(h, c)
  }

  /** An answer from the writeback queue is booked by its status alone.  For a SHARED line, the only one that
      instruction caches are asked about, this is the transition of `Coherence`. */
  function QueueAnswered(h: Home, c: Cache, status: Status): (r: Home)
    requires h.txn.Modify? || h.txn.Drain?
    ensures (h.l2 == Shared && (status == Shared || status == Invalid)
             && (h.txn.Modify? ==> h.txn.itype != InterventionShd)) ==> r == AckHome(h, c, status)
  {
    if status == Shared then h.(txn := WithAcked(h.txn, h.txn.acked + {c}))
    else h.(txn := WithSent(h.txn, h.txn.sent - {c}))
  }
}
