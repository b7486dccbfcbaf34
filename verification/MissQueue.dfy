/** The miss queue and the writeback queue of one processor (`cache2mem`, `missq_change_state`,
    `wtbkq_enter`, `home_enter`, `update_credit`) with the credits that let other processors send
    into them.  The class invariant says that the counters and credits always add up, that at most
    one request is active per L2 set, and that room reserved for a replaced block is kept.  */
module MissQueue {
  import opened Rings

  // ---------------------------------------------------------------- addresses

  /** `missqSize` and `wtbkqSize` entries; `cpus` processors own `cpuBlocks` blocks each; an L2 has
      `sets` sets. */
  datatype Config = Config(missqSize: nat, wtbkqSize: nat, cpus: nat, cpuBlocks: nat, sets: nat)
  {
    predicate Valid()
    {
      3 <= missqSize && 0 < wtbkqSize && 0 < cpus && 0 < cpuBlocks && 0 < sets
    }

    /** `PADDR_OWNER`: the home of an address. */
    function Owner(paddr: nat): nat
      requires Valid()
    {
      paddr / 32 / cpuBlocks % cpus
    }

    /** `CACHE_SET` of the L2. */
    function Set(paddr: nat): nat
      requires Valid()
    {
      paddr / 32 % sets
    }
  }

  /** `BLOCK_MATCH`: the same 32-byte block. */
  predicate BlockMatch(a: nat, b: nat)
  {
    a / 32 == b / 32
  }

  // ---------------------------------------------------------------- entries

  /** The states of a miss-queue entry, in the order of the source. */
  datatype MqState =
    | Empty | L1Miss | ReadL2 | ModifyL1 | ReplaceL1 | ExtRdy | RefillL1 | L2Miss | MemRef | RefillL2
    | Delay1 | Delay2 | Delay3

  datatype MqReq = NoReq | ReadShd | ReadEx | Upgrade | IntervShd | IntervExc | Invalidate

  datatype Entry = Entry(state: MqState, req: MqReq, cpuid: nat, paddr: nat, inst: bool, replacePaddr: nat)

  const EMPTY_ENTRY := Entry(Empty, NoReq, 0, 0, false, 0)

  datatype Writeback = Writeback(valid: bool, cpuid: nat, paddr: nat, dirty: bool)

  predicate IsRequest(r: MqReq)
  {
    r == ReadShd || r == ReadEx || r == Upgrade
  }

  /** From READ_L2 to REFILL_L2: the request has been issued and is not finished. */
  predicate IsActive(s: MqState)
  {
    s != Empty && s != L1Miss && s != Delay1 && s != Delay2 && s != Delay3
  }

  predicate ActiveRequest(e: Entry)
  {
    IsRequest(e.req) && IsActive(e.state)
  }

  function Busy(es: seq<Entry>): (n: nat)
    ensures n <= |es|
    ensures n == |es| ==> forall i | 0 <= i < |es| :: es[i].state != Empty
  {
    if es == [] then 0 else (if es[|es| - 1].state != Empty then 1 else 0) + Busy(es[..|es| - 1])
  }

  lemma BusyUpdate(es: seq<Entry>, i: nat, e: Entry)
    requires i < |es|
    ensures Busy(es[i := e]) == Busy(es) + (if e.state != Empty then 1 else 0) - (if es[i].state != Empty then 1 else 0)
  {
    if i == |es| - 1 {
      assert es[i := e][..i] == es[..i];
    } else {
      BusyUpdate(es[..|es| - 1], i, e);
      assert es[i := e][..|es| - 1] == es[..|es| - 1][i := e];
    }
  }

  function Queued(ws: seq<Writeback>): (n: nat)
    ensures n <= |ws|
    ensures n == |ws| ==> forall i | 0 <= i < |ws| :: ws[i].valid
  {
    if ws == [] then 0 else (if ws[|ws| - 1].valid then 1 else 0) + Queued(ws[..|ws| - 1])
  }

  lemma QueuedUpdate(ws: seq<Writeback>, i: nat, w: Writeback)
    requires i < |ws|
    ensures Queued(ws[i := w]) == Queued(ws) + (if w.valid then 1 else 0) - (if ws[i].valid then 1 else 0)
  {
    if i == |ws| - 1 {
      assert ws[i := w][..i] == ws[..i];
    } else {
      QueuedUpdate(ws[..|ws| - 1], i, w);
      assert ws[i := w][..|ws| - 1] == ws[..|ws| - 1][i := w];
    }
  }

  /** No two active requests share an L2 set of the same home. */
  ghost predicate Serialized(c: Config, es: seq<Entry>)
    requires c.Valid()
  {
    forall i, j | 0 <= i < |es| && 0 <= j < |es| && ActiveRequest(es[i]) && ActiveRequest(es[j])
      && c.Set(es[i].paddr) == c.Set(es[j].paddr) && c.Owner(es[i].paddr) == c.Owner(es[j].paddr) :: i == j
  }

  /** A request that missed in the L2 drains a block of its own set; interventions are about the
      blocks of other processors. */
  ghost predicate EntriesOk(c: Config, cpu: nat, es: seq<Entry>)
    requires c.Valid()
  {
    forall i | 0 <= i < |es| && es[i].state != Empty ::
      && (es[i].state == L2Miss ==>
            c.Set(es[i].replacePaddr) == c.Set(es[i].paddr) && c.Owner(es[i].replacePaddr) == c.Owner(es[i].paddr))
      && (!IsRequest(es[i].req) ==> c.Owner(es[i].paddr) != cpu && (es[i].state == ModifyL1 || es[i].state == ExtRdy))
  }

  /** The requests that a processor has for its own data cache about one block: at most two, and
      then an issued READ_SHD and an UPGRADE that waits behind it. */
  predicate OwnMiss(cpu: nat, e: Entry)
  {
    e.state != Empty && IsRequest(e.req) && e.cpuid == cpu && !e.inst
  }

  ghost predicate OwnMissesOk(cpu: nat, es: seq<Entry>)
  {
    forall i, j | 0 <= i < |es| && 0 <= j < |es| && i != j && OwnMiss(cpu, es[i]) && OwnMiss(cpu, es[j])
      && BlockMatch(es[i].paddr, es[j].paddr) ::
      || (es[i].req == ReadShd && es[i].state != L1Miss && es[j].req == Upgrade)
      || (es[j].req == ReadShd && es[j].state != L1Miss && es[i].req == Upgrade)
  }

  ghost predicate QueueOk(c: Config, cpu: nat, es: seq<Entry>)
    requires c.Valid()
  {
    Serialized(c, es) && EntriesOk(c, cpu, es) && OwnMissesOk(cpu, es)
  }

  /** `e` may follow `old` in an entry: an active request was active before, or is now the only one
      of its set; a miss of the processor is still the same miss. */
  predicate Follows(c: Config, cpu: nat, was: Entry, e: Entry)
    requires c.Valid()
  {
    && (ActiveRequest(e) ==> ActiveRequest(was) && e.paddr == was.paddr)
    && (OwnMiss(cpu, e) ==> OwnMiss(cpu, was) && e.paddr == was.paddr && e.req == was.req
                            && (e.state == L1Miss ==> was.state == L1Miss))
  }

  lemma UpdateOk(c: Config, cpu: nat, es: seq<Entry>, q: nat, e: Entry)
    requires c.Valid() && QueueOk(c, cpu, es) && q < |es|
    requires Follows(c, cpu, es[q], e) && EntriesOk(c, cpu, [e])
    ensures QueueOk(c, cpu, es[q := e])
  {
    assert [e][0] == e;
    assert Serialized(c, es[q := e]);
    assert OwnMissesOk(cpu, es[q := e]);
  }

  /** The entries that a writeback of block `paddr` is compared with at its home. */
  predicate Matches(e: Entry, paddr: nat)
  {
    || ((e.state == ModifyL1 || e.state == ReadL2) && BlockMatch(e.paddr, paddr))
    || (e.state == L2Miss && BlockMatch(e.replacePaddr, paddr))
  }

  /** A writeback finds at most one transaction at its home. */
  lemma WritebackMatchesOne(c: Config, cpu: nat, es: seq<Entry>, paddr: nat, i: nat, j: nat)
    requires c.Valid() && Serialized(c, es) && EntriesOk(c, cpu, es) && c.Owner(paddr) == cpu
    requires i < |es| && j < |es| && Matches(es[i], paddr) && Matches(es[j], paddr)
    ensures i == j
  {
  }

  // ---------------------------------------------------------------- the unit

  /** A pending replacement in the refill bus and the data-cache stage holds a reserved slot. */
  datatype Packet = NoPacket | Replace(paddr: nat) | OtherPacket

  function Reserved(p: Packet): nat
  {
    if p.Replace? then 1 else 0
  }

  /** Where the processor's turn of `cache2mem` is: misses are accepted, an intervention may be answered by
      a queued writeback, then the room in the writeback queue is looked at (`wtbkq_has_two_empty`), and
      only after that anything else leaves the queues. */
  datatype Phase = Idle | Started | Answered | Checked(room: bool)

  class MissUnit {
    const c: Config
    const cpu: nat
    const missq: array<Entry>
    const wtbkq: array<Writeback>
    var lasti: map<MqState, nat>
    var missqNum: nat
    var reqCredit: nat       // egress_credit[REQ][HOME]
    var invnCredit: nat      // egress_credit[INVN][HOME]
    var missqPending: nat    // update_credit events for the two
    var wtbkqNum: nat
    var wtbkqReplacei: nat
    var wtbkCredit: nat      // egress_credit[WTBK][HOME]
    var wtbkPending: nat     // update_credit events for it
    var refillBus: Packet    // lsq_refill
    var dcacheRefill: Packet // lsq_dcache_refill
    var phase: Phase

    ghost predicate Valid()
      reads this, missq, wtbkq
    {
      && c.Valid() && cpu < c.cpus
      && missq.Length == c.missqSize && wtbkq.Length == c.wtbkqSize && wtbkqReplacei < c.wtbkqSize
      && Empty in lasti && lasti[Empty] < c.missqSize
      // miss queue
      && missqNum == Busy(missq[..])
      && reqCredit == invnCredit
      && reqCredit + missqNum + missqPending == c.missqSize
      && QueueOk(c, cpu, missq[..])
      // writeback queue
      && wtbkqNum == Queued(wtbkq[..]) + Reserved(refillBus) + Reserved(dcacheRefill)
      && wtbkCredit + wtbkqNum + wtbkPending == c.wtbkqSize
      // credits that are owed before anything has left the queues in this turn
      && (phase.Started? ==> missqPending == 0 && wtbkPending == 0)
      && (phase.Answered? ==> missqPending == 0 && wtbkPending <= 1)
      && (phase.Checked? && phase.room ==> wtbkqNum < c.wtbkqSize - 1 && wtbkCredit > 0)
    }

    constructor (c: Config, cpu: nat)
      requires c.Valid() && cpu < c.cpus
      ensures Valid() && fresh(missq) && fresh(wtbkq) && this.c == c && this.cpu == cpu
      ensures missqNum == 0 && wtbkqNum == 0 && reqCredit == c.missqSize && wtbkCredit == c.wtbkqSize
      ensures missqPending == 0 && wtbkPending == 0 && phase == Idle
    {
      this.c, this.cpu := c, cpu;
      missq := new Entry[c.missqSize](_ => EMPTY_ENTRY);
      wtbkq := new Writeback[c.wtbkqSize](_ => Writeback(false, 0, 0, false));
      lasti := map[Empty := 0];
      missqNum, reqCredit, invnCredit, missqPending := 0, c.missqSize, c.missqSize, 0;
      wtbkqNum, wtbkqReplacei, wtbkCredit, wtbkPending := 0, 0, c.wtbkqSize, 0;
      refillBus, dcacheRefill, phase := NoPacket, NoPacket, Idle;
      new;
      AllEmpty(missq[..]);
      NoneQueued(wtbkq[..]);
    }

    /** `find_missq_empty_entry`: the circular search from the entry after the last one used. */
    method FindEmptyEntry() returns (e: int)
      requires Valid()
      ensures -1 <= e < missq.Length
      ensures 0 <= e ==> missq[e].state == Empty
      ensures e == -1 <==> missqNum == c.missqSize
    {
      var n := c.missqSize;
      var first := Next(lasti[Empty], n);
      var i := first;
      var seen := 0;
      e := -1;
      while seen < n
        invariant seen <= n && i < n && i == (if first + seen < n then first + seen else first + seen - n)
        invariant forall k | 0 <= k < n && (first <= k < first + seen || k + n < first + seen) ::
                    missq[k].state != Empty
      {
        if missq[i].state == Empty {
          NotAllBusy(missq[..], i);
          return i;
        }
        i := Next(i, n);
        seen := seen + 1;
      }
      AllBusy(missq[..]);
    }

    /** Everything but the scan pointers. */
    ghost function Contents(): Snapshot
      reads this, missq, wtbkq
    {
      Snapshot(missq[..], wtbkq[..], missqNum, reqCredit, invnCredit, missqPending,
               wtbkqNum, wtbkCredit, wtbkPending, refillBus, dcacheRefill, phase)
    }

    /** The turn begins when all `update_credit` events of earlier turns have been performed. */
    method BeginTurn()
      requires Valid() && phase == Idle && missqPending == 0 && wtbkPending == 0
      modifies this`phase
      ensures Valid() && Contents() == old(Contents()).(phase := Started)
    {
      phase := Started;
    }

    /** `wtbkq_has_two_empty`.  If there is room, there is credit too. */
    method CheckRoom()
      requires Valid() && (phase == Started || phase == Answered)
      modifies this`phase
      ensures Valid() && Contents() == old(Contents()).(phase := Checked(wtbkqNum < c.wtbkqSize - 1))
      ensures phase.room ==> wtbkCredit > 0
    {
      phase := Checked(wtbkqNum < c.wtbkqSize - 1);
    }

    method EndTurn()
      requires Valid() && phase.Checked?
      modifies this`phase
      ensures Valid() && Contents() == old(Contents()).(phase := Idle)
    {
      phase := Idle;
    }

    /** `missq_change_state`: leaving MQ_EMPTY takes a credit of both request channels, entering it
        clears the entry. */
    method ChangeState(q: nat, s: MqState)
      requires q < missq.Length
      requires missq[q].state == Empty ==> reqCredit > 0 && invnCredit > 0
      modifies this`lasti, this`reqCredit, this`invnCredit, missq
      ensures lasti == old(lasti)[(if s == Empty then Empty else old(missq[q].state)) := q]
      ensures var taken := if old(missq[q].state) == Empty then 1 else 0;
              reqCredit == old(reqCredit) - taken && invnCredit == old(invnCredit) - taken
      ensures missq[..] == old(missq[..])[q := (if s == Empty then EMPTY_ENTRY else old(missq[q])).(state := s)]
    {
      if missq[q].state == Empty {
        reqCredit := reqCredit - 1;
        invnCredit := invnCredit - 1;
      }
      if s == Empty {
        missq[q] := EMPTY_ENTRY;
      }
      lasti := lasti[missq[q].state := q];
      missq[q] := missq[q].(state := s);
    }

    /** A new entry takes the place of an empty one. */
    method Occupy(q: nat, e: Entry)
      requires Valid() && q < missq.Length && missq[q].state == Empty && reqCredit > 0 && e.state != Empty
      requires QueueOk(c, cpu, missq[..][q := e])
      modifies this`lasti, this`reqCredit, this`invnCredit, this`missqNum, missq
      ensures Valid()
      ensures Contents() == old(Contents()).(missq := old(missq[..])[q := e], missqNum := old(missqNum) + 1,
                                             reqCredit := old(reqCredit) - 1, invnCredit := old(invnCredit) - 1)
    {
      hide QueueOk, Busy, Queued;
      BusyUpdate(missq[..], q, e);
      ChangeState(q, e.state);
      missq[q] := e;
      missqNum := missqNum + 1;
      assert missq[..] == old(missq[..])[q := e];
    }

    /** An entry in use changes without becoming empty. */
    method Rewrite(q: nat, e: Entry)
      requires Valid() && q < missq.Length && missq[q].state != Empty && e.state != Empty
      requires QueueOk(c, cpu, missq[..][q := e])
      modifies this`lasti, this`reqCredit, this`invnCredit, missq
      ensures Valid()
      ensures Contents() == old(Contents()).(missq := old(missq[..])[q := e])
    {
      BusyUpdate(missq[..], q, e);
      ChangeState(q, e.state);
      missq[q] := e;
      assert missq[..] == old(missq[..])[q := e];
    }

    /** `home_enter` for a request: the arbiter lets a REQ packet in only while more than one credit
        is left, so the search for one of two empty entries cannot fail. */
    method EnterRequest(req: MqReq, from: nat, paddr: nat, inst: bool) returns (q: nat)
      requires Valid() && phase == Idle && IsRequest(req) && reqCredit > 1 && (from != cpu || inst)
      modifies this`lasti, this`reqCredit, this`invnCredit, this`missqNum, missq
      ensures Valid() && q < missq.Length && old(missq[q].state) == Empty
      ensures Contents() == old(Contents()).(
                missq := old(missq[..])[q := Entry(L1Miss, req, from, paddr, inst, 0)],
                missqNum := old(missqNum) + 1, reqCredit := old(reqCredit) - 1, invnCredit := old(invnCredit) - 1)
    {
      assert missqNum < c.missqSize - 1;
      var e := FindEmptyEntry();
      q := e;
      UpdateOk(c, cpu, missq[..], q, Entry(L1Miss, req, from, paddr, inst, 0));
      Occupy(q, Entry(L1Miss, req, from, paddr, inst, 0));
    }

    /** `home_enter` for an intervention: one credit guarantees an empty entry. */
    method EnterIntervention(req: MqReq, from: nat, paddr: nat, inst: bool) returns (q: nat)
      requires Valid() && phase == Idle && !IsRequest(req) && invnCredit > 0 && c.Owner(paddr) != cpu
      modifies this`lasti, this`reqCredit, this`invnCredit, this`missqNum, missq
      ensures Valid() && q < missq.Length && old(missq[q].state) == Empty
      ensures Contents() == old(Contents()).(
                missq := old(missq[..])[q := Entry(ModifyL1, req, from, paddr, inst, 0)],
                missqNum := old(missqNum) + 1, reqCredit := old(reqCredit) - 1, invnCredit := old(invnCredit) - 1)
    {
      var e := FindEmptyEntry();
      q := e;
      UpdateOk(c, cpu, missq[..], q, Entry(ModifyL1, req, from, paddr, inst, 0));
      Occupy(q, Entry(ModifyL1, req, from, paddr, inst, 0));
    }

    /** A miss of the instruction cache.  No credit is owed yet, so the assertions on the credits of the
        request channels hold. */
    method AcceptInstMiss(paddr: nat) returns (q: nat)
      requires Valid() && phase == Started && missqNum < c.missqSize - 2
      modifies this`lasti, this`reqCredit, this`invnCredit, this`missqNum, missq
      ensures Valid() && q < missq.Length && old(missq[q].state) == Empty
      ensures Contents() == old(Contents()).(
                missq := old(missq[..])[q := Entry(L1Miss, ReadShd, cpu, paddr, true, 0)],
                missqNum := old(missqNum) + 1, reqCredit := old(reqCredit) - 1, invnCredit := old(invnCredit) - 1)
    {
      var e := FindEmptyEntry();
      q := e;
      UpdateOk(c, cpu, missq[..], q, Entry(L1Miss, ReadShd, cpu, paddr, true, 0));
      Occupy(q, Entry(L1Miss, ReadShd, cpu, paddr, true, 0));
    }

    /** May a data miss of the processor enter?  Only behind an issued READ_SHD of the block, and
        only to become its owner. */
    ghost predicate Unblocked(es: seq<Entry>, paddr: nat, req: MqReq)
    {
      forall i | 0 <= i < |es| && OwnMiss(cpu, es[i]) && BlockMatch(es[i].paddr, paddr) ::
        es[i].state != L1Miss && es[i].req == ReadShd && req != ReadShd
    }

    /** The loop that compares a miss of the data cache with the entries for its block.  `convert`
        is the waiting READ_SHD that the miss turns into a READ_EX. */
    method ScreenDataMiss(paddr: nat, req: MqReq) returns (enter: bool, req': MqReq, convert: int)
      requires Valid() && IsRequest(req)
      ensures enter <==> Unblocked(missq[..], paddr, req)
      ensures enter ==>
                req' == if exists k | 0 <= k < missq.Length ::
                                OwnMiss(cpu, missq[k]) && BlockMatch(missq[k].paddr, paddr)
                        then Upgrade else req
      ensures -1 <= convert < missq.Length && (enter ==> convert == -1)
      ensures convert != -1 ==>
                && req == ReadEx && OwnMiss(cpu, missq[convert]) && BlockMatch(missq[convert].paddr, paddr)
                && missq[convert].state == L1Miss && missq[convert].req == ReadShd
    {
      req', convert := req, -1;
      var upgrade := false;
      for i := 0 to c.missqSize
        invariant forall k | 0 <= k < i && OwnMiss(cpu, missq[k]) && BlockMatch(missq[k].paddr, paddr) ::
                    missq[k].state != L1Miss && missq[k].req == ReadShd && req != ReadShd
        invariant req' == if upgrade then Upgrade else req
        invariant upgrade <==> exists k | 0 <= k < i :: OwnMiss(cpu, missq[k]) && BlockMatch(missq[k].paddr, paddr)
      {
        var e := missq[i];
        if e.state != Empty && IsRequest(e.req) && e.cpuid == cpu && !e.inst && BlockMatch(e.paddr, paddr) {
          assert OwnMiss(cpu, missq[i]);
          if e.state != L1Miss && e.req == ReadShd && (req' == ReadEx || req' == Upgrade) {
            req' := Upgrade;
            upgrade := true;
          } else {
            if e.state == L1Miss && e.req == ReadShd && req' == ReadEx {
              convert := i;
            } else if e.req == ReadEx || e.req == Upgrade {
              upgrade := false;
            }
            enter := upgrade;
            NoSecondRead(missq[..], paddr, i, upgrade);
            return;
          }
        }
      }
      enter := true;
    }

    /** A READ_SHD cannot stand behind another READ_SHD of the block, so when the scan stops at one no
        upgrade is left. */
    lemma NoSecondRead(es: seq<Entry>, paddr: nat, i: nat, upgrade: bool)
      requires i < |es| && OwnMissesOk(cpu, es) && OwnMiss(cpu, es[i]) && BlockMatch(es[i].paddr, paddr)
      requires upgrade ==> es[i].req == ReadShd && exists k | 0 <= k < i ::
                 OwnMiss(cpu, es[k]) && BlockMatch(es[k].paddr, paddr) && es[k].req == ReadShd
      ensures !upgrade
    {
    }

    /** A miss of the data cache enters, turns a waiting READ_SHD into a READ_EX, or is dropped
        because an entry already serves it. */
    method AcceptDataMiss(paddr: nat, req: MqReq) returns (entered: bool, q: int, req': MqReq)
      requires Valid() && phase == Started && IsRequest(req) && missqNum < c.missqSize - 2
      modifies this`lasti, this`reqCredit, this`invnCredit, this`missqNum, missq
      ensures Valid() && -1 <= q < missq.Length
      ensures entered <==> Unblocked(old(missq[..]), paddr, req)
      ensures entered ==>
                && (req' == req || req' == Upgrade) && q != -1 && old(missq[..])[q].state == Empty
                && Contents() == old(Contents()).(
                     missq := old(missq[..])[q := Entry(L1Miss, req', cpu, paddr, false, 0)],
                     missqNum := old(missqNum) + 1, reqCredit := old(reqCredit) - 1, invnCredit := old(invnCredit) - 1)
      ensures !entered && q == -1 ==> Contents() == old(Contents())
      ensures !entered && q != -1 ==>
                && req == ReadEx && old(missq[..])[q].state == L1Miss && old(missq[..])[q].req == ReadShd
                && Contents() == old(Contents()).(missq := old(missq[..])[q := old(missq[..])[q].(req := ReadEx)])
    {
      hide QueueOk, Busy, Queued;
      entered, req', q := ScreenDataMiss(paddr, req);
      if entered {
        EnteredMissesOk(cpu, missq[..], paddr, req, req');
        q := FindEmptyEntry();
        EnteredOk(c, cpu, missq[..], q, paddr, req');
        Occupy(q, Entry(L1Miss, req', cpu, paddr, false, 0));
      } else if q != -1 {
        ReplaceRequest(q);
      }
    }

    /** A waiting READ_SHD becomes a READ_EX in place. */
    method ReplaceRequest(q: nat)
      requires Valid() && q < missq.Length && OwnMiss(cpu, missq[q])
      requires missq[q].state == L1Miss && missq[q].req == ReadShd
      modifies missq
      ensures Valid()
      ensures Contents() == old(Contents()).(missq := old(missq[..])[q := old(missq[q]).(req := ReadEx)])
    {
      ghost var e := missq[q].(req := ReadEx);
      BusyUpdate(missq[..], q, e);
      assert QueueOk(c, cpu, missq[..][q := e]);
      missq[q] := missq[q].(req := ReadEx);
      assert missq[..] == old(missq[..])[q := e];
    }

    /** Does another entry keep a waiting miss from being issued? */
    ghost predicate Blocked(es: seq<Entry>, q: nat)
      requires c.Valid() && q < |es|
    {
      exists i | 0 <= i < |es| :: i != q && BlocksIssue(es[i], es[q])
    }

    predicate BlocksIssue(e: Entry, waiting: Entry)
      requires c.Valid()
    {
      || (e.state != Empty && e.state != L1Miss
          && c.Set(e.paddr) == c.Set(waiting.paddr) && c.Owner(e.paddr) == c.Owner(waiting.paddr))
      || (e.cpuid == cpu && waiting.cpuid == cpu && e.state != Empty && BlockMatch(e.paddr, waiting.paddr)
          && e.req == ReadShd && waiting.req == Upgrade)
    }

    /** MQ_L1_MISS is left for MQ_READ_L2 only when no other entry is at work on the same L2 set, and
        no READ_SHD of the processor is ahead of an UPGRADE.  `held` is `wait_for_reissue`; `room` says
        whether the router takes a request for another home. */
    method IssueMiss(q: nat, held: bool, room: bool) returns (issued: bool)
      requires Valid() && q < missq.Length && missq[q].state == L1Miss && IsRequest(missq[q].req)
      requires missq[q].cpuid != cpu ==> c.Owner(missq[q].paddr) == cpu
      modifies this`lasti, this`reqCredit, this`invnCredit, missq
      ensures Valid()
      ensures issued <==> !held && !Blocked(old(missq[..]), q) && (c.Owner(old(missq[q].paddr)) == cpu || room)
      ensures Contents() == old(Contents()).(
                missq := if issued then old(missq[..])[q := old(missq[q]).(state := ReadL2)] else old(missq[..]))
    {
      var sameSet := false;
      for i := 0 to c.missqSize
        invariant sameSet <==> exists k | 0 <= k < i :: k != q && BlocksIssue(missq[k], missq[q])
      {
        if i != q && BlocksIssue(missq[i], missq[q]) {
          sameSet := true;
        }
      }
      assert sameSet <==> Blocked(missq[..], q);
      issued := !held && !sameSet && (c.Owner(missq[q].paddr) == cpu || room);
      if issued {
        IssueKeepsQueueOk(missq[..], q);
        Rewrite(q, missq[q].(state := ReadL2));
      }
    }

    lemma IssueKeepsQueueOk(es: seq<Entry>, q: nat)
      requires c.Valid() && q < |es| && QueueOk(c, cpu, es) && !Blocked(es, q)
      requires es[q].state == L1Miss && IsRequest(es[q].req)
      ensures QueueOk(c, cpu, es[q := es[q].(state := ReadL2)])
    {
    }

    /** The moves of an entry on its way from one state to the next. */
    predicate Moves(e: Entry, s: MqState)
    {
      match s
      case ModifyL1 => e.state == ReadL2
      case ReplaceL1 => e.state == ReadL2 || e.state == ModifyL1 || e.state == RefillL2
      case ExtRdy => e.state == ReadL2 || e.state == ModifyL1 || e.state == RefillL2
      case RefillL1 => e.state == ReplaceL1
      case MemRef => e.state == L2Miss
      case RefillL2 => e.state == MemRef
      case Delay1 => e.state == RefillL1 || e.state == L1Miss   // refilled, or killed by an intervention
      case _ => false
    }

    method Advance(q: nat, s: MqState)
      requires Valid() && q < missq.Length && Moves(missq[q], s)
      requires !IsRequest(missq[q].req) ==> s == ExtRdy
      modifies this`lasti, this`reqCredit, this`invnCredit, missq
      ensures Valid()
      ensures Contents() == old(Contents()).(missq := old(missq[..])[q := old(missq[q]).(state := s)])
    {
      UpdateOk(c, cpu, missq[..], q, missq[q].(state := s));
      Rewrite(q, missq[q].(state := s));
    }

    /** The L2 probe misses and a way of the same set is to be replaced. */
    method MissL2(q: nat, victim: nat)
      requires Valid() && q < missq.Length && missq[q].state == ReadL2 && IsRequest(missq[q].req)
      requires c.Set(victim) == c.Set(missq[q].paddr) && c.Owner(victim) == c.Owner(missq[q].paddr)
      modifies this`lasti, this`reqCredit, this`invnCredit, missq
      ensures Valid()
      ensures Contents() == old(Contents()).(
                missq := old(missq[..])[q := old(missq[q]).(state := L2Miss, replacePaddr := victim)])
    {
      UpdateOk(c, cpu, missq[..], q, missq[q].(state := L2Miss, replacePaddr := victim));
      Rewrite(q, missq[q].(state := L2Miss, replacePaddr := victim));
    }

    /** The response of an entry has left for the network (MQ_EXTRDY).  The credit of the two request
        channels comes back through an `update_credit` event. */
    method Respond(q: nat)
      requires Valid() && phase.Checked? && q < missq.Length && missq[q].state == ExtRdy
      modifies this`lasti, this`reqCredit, this`invnCredit, this`missqNum, this`missqPending, missq
      ensures Valid()
      ensures Contents() == old(Contents()).(missq := old(missq[..])[q := EMPTY_ENTRY],
                                             missqNum := old(missqNum) - 1, missqPending := old(missqPending) + 1)
    {
      hide QueueOk, Busy, Queued;
      BusyUpdate(missq[..], q, EMPTY_ENTRY);
      EmptyOk(c, cpu, missq[..], q);
      ChangeState(q, Empty);
      missqNum := missqNum - 1;
      missqPending := missqPending + 1;
    }

    /** The delay of one entry. */
    method TickEntry(i: nat)
      requires Valid() && phase.Checked? && i < missq.Length
      modifies this`missqNum, this`missqPending, missq
      ensures Valid()
      ensures missq[..] == old(missq[..])[i := Tick(old(missq[i]))]
      ensures var freed := if old(missq[i].state) == Delay3 then 1 else 0;
              missqNum == old(missqNum) - freed && missqPending == old(missqPending) + freed
    {
      hide QueueOk, Busy, Queued;
      ghost var es := missq[..];
      BusyUpdate(es, i, Tick(es[i]));
      TickOk(c, cpu, es, i);
      if missq[i].state == Delay3 {
        missq[i] := missq[i].(state := Empty);
        missqNum := missqNum - 1;
        missqPending := missqPending + 1;
      } else if missq[i].state == Delay2 {
        missq[i] := missq[i].(state := Delay3);
      } else if missq[i].state == Delay1 {
        missq[i] := missq[i].(state := Delay2);
      }
      assert missq[..] == es[i := Tick(es[i])];
    }

    /** The three-cycle delay after a refill, in one pass over the queue. */
    method TickDelays()
      requires Valid() && phase.Checked?
      modifies this`missqNum, this`missqPending, missq
      ensures Valid()
      ensures forall i | 0 <= i < missq.Length :: missq[i] == Tick(old(missq[i]))
      ensures missqNum + missqPending == old(missqNum) + old(missqPending)
    {
      for i := 0 to missq.Length
        invariant Valid()
        invariant missqNum + missqPending == old(missqNum) + old(missqPending)
        invariant forall k | 0 <= k < i :: missq[k] == Tick(old(missq[k]))
        invariant forall k | i <= k < missq.Length :: missq[k] == old(missq[k])
      {
        TickEntry(i);
      }
    }

    /** The `update_credit` event of the request channels or of the writeback channel. */
    method UpdateCredit(writeback: bool)
      requires Valid() && phase == Idle && (if writeback then wtbkPending else missqPending) > 0
      modifies this`reqCredit, this`invnCredit, this`missqPending, this`wtbkCredit, this`wtbkPending
      ensures Valid() && reqCredit <= c.missqSize && wtbkCredit <= c.wtbkqSize
      ensures Contents() == if writeback
              then old(Contents()).(wtbkCredit := old(wtbkCredit) + 1, wtbkPending := old(wtbkPending) - 1)
              else old(Contents()).(reqCredit := old(reqCredit) + 1, invnCredit := old(invnCredit) + 1,
                                    missqPending := old(missqPending) - 1)
    {
      hide QueueOk, Busy, Queued;
      if writeback {
        wtbkCredit, wtbkPending := wtbkCredit + 1, wtbkPending - 1;
      } else {
        reqCredit, invnCredit, missqPending := reqCredit + 1, invnCredit + 1, missqPending - 1;
      }
    }

    // -------------------------------------------------------------- writeback queue

    /** `wtbkq_enter`: the circular search for a free slot.  The counter has been raised in advance,
        so one is free. */
    method WtbkqEnter(from: nat, paddr: nat, dirty: bool) returns (slot: nat)
      requires wtbkq.Length == c.wtbkqSize && wtbkqReplacei < c.wtbkqSize && Queued(wtbkq[..]) < c.wtbkqSize
      modifies this`wtbkqReplacei, wtbkq
      ensures slot < wtbkq.Length && !old(wtbkq[slot].valid) && wtbkqReplacei < c.wtbkqSize
      ensures wtbkq[..] == old(wtbkq[..])[slot := Writeback(true, from, paddr, dirty)]
    {
      var n := c.wtbkqSize;
      var first := wtbkqReplacei;
      var i, j := first, 0;
      while j < n && wtbkq[i].valid
        invariant j <= n && i < n && i == (if first + j < n then first + j else first + j - n)
        invariant forall k | 0 <= k < n && (first <= k < first + j || k + n < first + j) :: wtbkq[k].valid
      {
        i := Next(i, n);
        j := j + 1;
      }
      if j == n {
        AllQueued(wtbkq[..]);
      }
      slot := i;
      wtbkq[i] := Writeback(true, from, paddr, dirty);
      wtbkqReplacei := Next(i, n);
    }

    /** `home_enter` for a writeback of another processor. */
    method EnterWriteback(from: nat, paddr: nat, dirty: bool) returns (slot: nat)
      requires Valid() && phase == Idle && wtbkCredit > 0
      modifies this`wtbkqReplacei, this`wtbkqNum, this`wtbkCredit, wtbkq
      ensures Valid() && slot < wtbkq.Length && !old(wtbkq[slot].valid)
      ensures Contents() == old(Contents()).(
                wtbkq := old(wtbkq[..])[slot := Writeback(true, from, paddr, dirty)],
                wtbkqNum := old(wtbkqNum) + 1, wtbkCredit := old(wtbkCredit) - 1)
    {
      hide QueueOk, Busy, Queued;
      wtbkqNum := wtbkqNum + 1;
      wtbkCredit := wtbkCredit - 1;
      slot := WtbkqEnter(from, paddr, dirty);
      QueuedUpdate(old(wtbkq[..]), slot, Writeback(true, from, paddr, dirty));
    }

    /** A replacement is handed to the L1 only when two slots were free, and reserves one.  There is credit
        for it, as the source asserts. */
    method ReserveReplace(paddr: nat) returns (reserved: bool)
      requires Valid() && phase.Checked? && refillBus == NoPacket
      modifies this`refillBus, this`wtbkqNum, this`wtbkCredit, this`phase
      ensures Valid() && reserved == old(phase).room
      ensures reserved ==> wtbkqNum <= c.wtbkqSize && old(wtbkCredit) > 0
      ensures Contents() == if reserved
              then old(Contents()).(refillBus := Replace(paddr), wtbkqNum := old(wtbkqNum) + 1,
                                    wtbkCredit := old(wtbkCredit) - 1, phase := Checked(false))
              else old(Contents())
    {
      reserved := phase.room;
      if reserved {
        wtbkqNum := wtbkqNum + 1;
        wtbkCredit := wtbkCredit - 1;
        refillBus := Replace(paddr);
        phase := Checked(false);
      }
    }

    /** The instruction cache replaces a block, or answers an intervention, in one step: the slot that
        is reserved is used at once, or given back when the way was empty.  An intervention enters the
        queue whatever it found. */
    method ReplaceInst(victim: int, intervention: bool, paddr: nat) returns (slot: int)
      requires Valid() && -1 <= victim && phase == Checked(true)
      modifies this`wtbkqReplacei, this`wtbkqNum, this`wtbkCredit, this`wtbkPending, this`phase, wtbkq
      ensures Valid() && -1 <= slot < wtbkq.Length && (slot != -1 <==> intervention || victim != -1)
      ensures old(wtbkCredit) > 0 && wtbkCredit == old(wtbkCredit) - 1 && phase == Checked(false)
      ensures slot != -1 ==>
                && !old(wtbkq[slot].valid)
                && wtbkq[..] == old(wtbkq[..])[slot :=
                     Writeback(true, cpu, if intervention then paddr else victim, false)]
                && wtbkqNum == old(wtbkqNum) + 1 && wtbkPending == old(wtbkPending)
      ensures slot == -1 ==>
                && wtbkq[..] == old(wtbkq[..])
                && wtbkqNum == old(wtbkqNum) && wtbkPending == old(wtbkPending) + 1
    {
      hide QueueOk, Busy, Queued;
      slot := -1;
      wtbkCredit := wtbkCredit - 1;
      phase := Checked(false);
      if intervention || victim != -1 {
        var at := if intervention then paddr else victim;
        wtbkqNum := wtbkqNum + 1;
        slot := WtbkqEnter(cpu, at, false);
        QueuedUpdate(old(wtbkq[..]), slot, Writeback(true, cpu, at, false));
      } else {
        wtbkPending := wtbkPending + 1;
      }
    }

    /** Interventions and refills use the same bus and reserve nothing. */
    method SendOther()
      requires Valid() && refillBus == NoPacket
      modifies this`refillBus
      ensures Valid() && Contents() == old(Contents()).(refillBus := OtherPacket)
    {
      refillBus := OtherPacket;
    }

    /** One cycle of the load/store pipeline: the packet in the data-cache stage is handled, and the
        one on the bus moves up.  `victim` is the address of the valid block that `replace_block`
        throws out, if the way it takes holds one; otherwise the reserved slot is given back. */
    method DcacheStage(victim: int, dirty: bool) returns (slot: int)
      requires Valid() && phase == Idle && -1 <= victim
      modifies this`refillBus, this`dcacheRefill, this`wtbkqReplacei, this`wtbkqNum, this`wtbkPending, wtbkq
      ensures Valid() && refillBus == NoPacket && dcacheRefill == old(refillBus)
      ensures -1 <= slot < wtbkq.Length
      ensures slot != -1 <==> old(dcacheRefill).Replace? && victim != -1
      ensures slot != -1 ==>
                && !old(wtbkq[slot].valid)
                && wtbkq[..] == old(wtbkq[..])[slot := Writeback(true, cpu, victim, dirty)]
                && wtbkqNum == old(wtbkqNum) && wtbkPending == old(wtbkPending)
      ensures slot == -1 ==>
                && wtbkq[..] == old(wtbkq[..])
                && wtbkqNum == old(wtbkqNum) - Reserved(old(dcacheRefill))
                && wtbkPending == old(wtbkPending) + Reserved(old(dcacheRefill))
    {
      hide QueueOk, Busy, Queued;
      slot := -1;
      if dcacheRefill.Replace? {
        if victim != -1 {
          slot := WtbkqEnter(cpu, victim, dirty);
          QueuedUpdate(old(wtbkq[..]), slot, Writeback(true, cpu, victim, dirty));
        } else {
          wtbkqNum := wtbkqNum - 1;
          wtbkPending := wtbkPending + 1;
        }
      }
      dcacheRefill := refillBus;
      refillBus := NoPacket;
    }

    /** A queued writeback leaves: to the local L2, into the network, or as the answer to an
        intervention.  Before the room in the queue is looked at, one may go as an answer. */
    method TakeWriteback(slot: nat)
      requires Valid() && slot < wtbkq.Length && wtbkq[slot].valid && (phase == Started || phase.Checked?)
      modifies this`wtbkqNum, this`wtbkPending, this`phase, wtbkq
      ensures Valid()
      ensures Contents() == old(Contents()).(wtbkq := old(wtbkq[..])[slot := old(wtbkq[slot]).(valid := false)],
                                             wtbkqNum := old(wtbkqNum) - 1, wtbkPending := old(wtbkPending) + 1,
                                             phase := if old(phase) == Started then Answered else old(phase))
    {
      hide QueueOk, Busy, Queued;
      QueuedUpdate(wtbkq[..], slot, wtbkq[slot].(valid := false));
      ghost var ws := wtbkq[..];
      wtbkq[slot] := wtbkq[slot].(valid := false);
      assert wtbkq[..] == ws[slot := ws[slot].(valid := false)];
      wtbkqNum := wtbkqNum - 1;
      wtbkPending := wtbkPending + 1;
      if phase == Started {
        phase := Answered;
      }
    }
  }

  /** One cycle of the delay that ends a transaction. */
  function Tick(e: Entry): Entry
  {
    match e.state
    case Delay3 => e.(state := Empty)
    case Delay2 => e.(state := Delay3)
    case Delay1 => e.(state := Delay2)
    case _ => e
  }

  lemma TickOk(c: Config, cpu: nat, es: seq<Entry>, i: nat)
    requires c.Valid() && QueueOk(c, cpu, es) && i < |es|
    ensures QueueOk(c, cpu, es[i := Tick(es[i])])
  {
    UpdateOk(c, cpu, es, i, Tick(es[i]));
  }

  lemma EmptyOk(c: Config, cpu: nat, es: seq<Entry>, i: nat)
    requires c.Valid() && QueueOk(c, cpu, es) && i < |es|
    ensures QueueOk(c, cpu, es[i := EMPTY_ENTRY])
  {
    UpdateOk(c, cpu, es, i, EMPTY_ENTRY);
  }

  lemma {:induction false} AllQueued(ws: seq<Writeback>)
    requires forall i | 0 <= i < |ws| :: ws[i].valid
    ensures Queued(ws) == |ws|
  {
    if ws != [] { AllQueued(ws[..|ws| - 1]); }
  }

  lemma EnteredMissesOk(cpu: nat, es: seq<Entry>, paddr: nat, req: MqReq, req': MqReq)
    requires forall i | 0 <= i < |es| && OwnMiss(cpu, es[i]) && BlockMatch(es[i].paddr, paddr) ::
               es[i].state != L1Miss && es[i].req == ReadShd && req != ReadShd
    requires req' == if exists k | 0 <= k < |es| :: OwnMiss(cpu, es[k]) && BlockMatch(es[k].paddr, paddr)
                     then Upgrade else req
    ensures forall i | 0 <= i < |es| && OwnMiss(cpu, es[i]) && BlockMatch(es[i].paddr, paddr) ::
               es[i].state != L1Miss && es[i].req == ReadShd && req' == Upgrade
  {
  }

  lemma EnteredOk(c: Config, cpu: nat, es: seq<Entry>, q: nat, paddr: nat, req: MqReq)
    requires c.Valid() && QueueOk(c, cpu, es) && q < |es| && es[q].state == Empty && IsRequest(req)
    requires forall i | 0 <= i < |es| && OwnMiss(cpu, es[i]) && BlockMatch(es[i].paddr, paddr) ::
               es[i].state != L1Miss && es[i].req == ReadShd && req == Upgrade
    ensures QueueOk(c, cpu, es[q := Entry(L1Miss, req, cpu, paddr, false, 0)])
  {
  }

  datatype Snapshot = Snapshot(
    missq: seq<Entry>, wtbkq: seq<Writeback>,
    missqNum: int, reqCredit: int, invnCredit: int, missqPending: int,
    wtbkqNum: int, wtbkCredit: int, wtbkPending: int,
    refillBus: Packet, dcacheRefill: Packet, phase: Phase)

  lemma {:induction false} AllEmpty(es: seq<Entry>)
    requires forall i | 0 <= i < |es| :: es[i].state == Empty
    ensures Busy(es) == 0
  {
    if es != [] { AllEmpty(es[..|es| - 1]); }
  }

  lemma {:induction false} AllBusy(es: seq<Entry>)
    requires forall i | 0 <= i < |es| :: es[i].state != Empty
    ensures Busy(es) == |es|
  {
    if es != [] { AllBusy(es[..|es| - 1]); }
  }

  lemma NotAllBusy(es: seq<Entry>, i: nat)
    requires i < |es| && es[i].state == Empty
    ensures Busy(es) < |es|
  {
  }

  lemma {:induction false} NoneQueued(ws: seq<Writeback>)
    requires forall i | 0 <= i < |ws| :: !ws[i].valid
    ensures Queued(ws) == 0
  {
    if ws != [] { NoneQueued(ws[..|ws| - 1]); }
  }
}
