/** The directory protocol that keeps the L1 caches of all processors coherent
    (`cache2mem.c`, `noc.c`, `lsq.c`, `cache.c`), seen from one memory block.

    Every processor has a data cache and an instruction cache, with a directory bit each.  The
    block has one home processor, whose L2 line and miss queue hold the directory.  Every
    message of the protocol is in flight for an arbitrary time and channels are not ordered with
    respect to each other, so requests, interventions, acknowledgements, data grants and
    writebacks race.  The home serves one transaction per L2 set at a time (module `MissQueue`
    proves that), so the home side of one block is a single `Txn`.  */
module Coherence {

  // ---------------------------------------------------------------- state

  /** Of `n` processors, the data caches are numbered from 0 and the instruction caches from `n`. */
  type Cache = nat

  /** States of an L1 block; an L2 line uses the first three. */
  datatype Status = Invalid | Shared | Exclusive | Modified

  datatype Request = ReadShd | ReadEx | Upgrade

  datatype Intervention = InterventionShd | InterventionExc | Invalidate

  datatype Option<T> = None | Some(value: T)

  /** A replaced block on its way to the home: in the writeback queue of its processor until
      `sent`, then on the network or in the writeback queue of the home. */
  datatype Writeback = Writeback(status: Status, sent: bool)

  /** The request of one cache for the block. */
  datatype Miss =
    | NoMiss
    | Issued(kind: Request)        // on the way to the home, or being served there
    | Granted(exclusive: bool)     // the response is on its way, or refilling the L1

  /** What one cache and the channels between it and the home hold. */
  datatype Node = Node(
    l1: Status,
    miss: Miss,
    wbs: seq<Writeback>,
    inv: Option<Intervention>,     // intervention not yet handled by the L1
    ack: Option<Status>)           // answer not yet seen by the home: the old L1 status

  /** The miss-queue entry that is active for the block at its home. */
  datatype Txn =
    | Idle
    | Probing(r: Cache, kind: Request)                  // MQ_READ_L2, the L2 port access is pending
    | Waiting(r: Cache, kind: Request, arrived: bool)   // MQ_READ_L2, wait_for_response is 1 or 2
    | Modify(r: Cache, kind: Request, itype: Intervention,
             tdir: set<Cache>, sent: set<Cache>, acked: set<Cache>)   // MQ_MODIFY_L1
    | Drain(tdir: set<Cache>, sent: set<Cache>, acked: set<Cache>)    // MQ_L2_MISS, the block is the victim
    | Fetch(r: Cache, kind: Request)                    // MQ_L2_MISS .. MQ_REFILL_L2 of this block

  /** The home side: its own processor, the number of processors, L2 line status, directory (data
      and instruction bits), active transaction. */
  datatype Home = Home(cpu: nat, cpus: nat, l2: Status, dir: set<Cache>, txn: Txn)

  datatype State = State(home: Home, nodes: seq<Node>)

  /** The atomic steps; each names the cache it happens at. */
  datatype Step =
    | Issue(c: Cache, kind: Request)
    | BeginProbe(c: Cache)
    | Probe
    | SendIntervention(c: Cache)
    | HandleIntervention(c: Cache)
    | CatchWriteback(c: Cache, i: nat)
    | ReceiveAck(c: Cache)
    | Complete
    | BeginDrain
    | FinishDrain
    | RefillL2
    | RefillL1(c: Cache, dirtied: bool)
    | StoreHit(c: Cache)
    | Evict(c: Cache)
    | SendWriteback(c: Cache, i: nat)
    | WritebackArrives(c: Cache, i: nat)

  // ---------------------------------------------------------------- transitions

  function RemoveAt<T>(s: seq<T>, i: nat): seq<T>
    requires i < |s|
  {
    s[..i] + s[i + 1..]
  }

  predicate IsInst(h: Home, c: Cache)
  {
    c >= h.cpus
  }

  /** The other cache of the same processor. */
  function Twin(h: Home, c: Cache): Cache
  {
    if IsInst(h, c) then c - h.cpus else c + h.cpus
  }

  /** The two caches of the home processor; they are reached without the network. */
  predicate Local(h: Home, c: Cache)
  {
    c == h.cpu || c == h.cpu + h.cpus
  }

  /** A cache of another processor than the requesting one. */
  predicate Foreign(h: Home, c: Cache)
    requires h.txn.Modify?
  {
    c != h.txn.r && c != Twin(h, h.txn.r)
  }

  /** The directory copy of a transaction for `r`: without both bits of its processor, and without
      instruction bits when the line is EXCLUSIVE. */
  function Others(h: Home, r: Cache): set<Cache>
  {
    set c | c in h.dir && c != r && c != Twin(h, r) && (h.l2 == Shared || !IsInst(h, c))
  }

  /** `scache_probe` on a hit or a miss: what the L2 port access does to the home state, and
      whether it grants the block at once.  */
  function ProbeHome(h: Home, r: Cache, kind: Request): (out: (Home, bool))
  {
    match h.l2
    case Exclusive | Modified =>
      if r in h.dir then (h.(txn := Waiting(r, kind, false)), false)
      else (h.(txn := Modify(r, kind, if kind == ReadShd then InterventionShd else InterventionExc,
                             Others(h, r), {}, {})), false)
    case Shared =>
      if kind == Upgrade then (h.(txn := Modify(r, kind, Invalidate, Others(h, r), {}, {})), false)
      else if r in h.dir then (h.(txn := Waiting(r, kind, false)), false)
      else if kind == ReadShd then (h.(txn := Idle, dir := h.dir + {r}), true)
      else (h.(txn := Modify(r, kind, Invalidate, Others(h, r), {}, {})), false)
    case Invalid => (h.(txn := Fetch(r, kind)), false)
  }

  /** Does the home take `st` as the awaited answer? (`home_enter`, and `lsq_stage` for the L1 of
      the home itself.) */
  predicate Accepts(h: Home, st: Status)
  {
    match h.txn
    case Modify(_, _, InterventionShd, _, _, _) => st == Exclusive || st == Modified
    case Modify(_, _, InterventionExc, _, _, _) => h.l2 == st || (h.l2 == Exclusive && st == Modified)
    case Modify(_, _, Invalidate, _, _, _) => h.l2 == st
    case Drain(_, _, _) => h.l2 == st || (h.l2 == Exclusive && (st == Exclusive || st == Modified))
    case _ => false
  }

  /** The assertions of `home_enter` and `lsq_stage` on the status in an answer. */
  predicate AckAsserts(h: Home, st: Status)
  {
    var stale := h.l2 == Shared && (st == Exclusive || st == Modified);
    match h.txn
    case Modify(_, _, InterventionShd, _, _, _) => Accepts(h, st) || (h.l2 != Invalid && h.l2 != Shared)
    case Modify(_, _, InterventionExc, _, _, _) => Accepts(h, st) || (h.l2 != Invalid && !stale)
    case Modify(_, _, Invalidate, _, _, _) =>
      Accepts(h, st) || (h.l2 != Invalid && h.l2 != Exclusive && !stale)
    case Drain(_, _, _) => h.l2 != Invalid && !stale
    case _ => true
  }

  function WithDir(t: Txn, tdir: set<Cache>): Txn
    requires t.Modify? || t.Drain?
  {
    if t.Drain? then Drain(tdir, t.sent, t.acked) else Modify(t.r, t.kind, t.itype, tdir, t.sent, t.acked)
  }

  function WithSent(t: Txn, sent: set<Cache>): Txn
    requires t.Modify? || t.Drain?
  {
    if t.Drain? then Drain(t.tdir, sent, t.acked) else Modify(t.r, t.kind, t.itype, t.tdir, sent, t.acked)
  }

  function WithAcked(t: Txn, acked: set<Cache>): Txn
    requires t.Modify? || t.Drain?
  {
    if t.Drain? then Drain(t.tdir, t.sent, acked) else Modify(t.r, t.kind, t.itype, t.tdir, t.sent, acked)
  }

  /** An unexpected status clears the `sent` flag, so that the home retries. */
  function AckHome(h: Home, c: Cache, st: Status): Home
    requires h.txn.Modify? || h.txn.Drain?
  {
    if Accepts(h, st) then h.(txn := WithAcked(h.txn, h.txn.acked + {c}))
    else h.(txn := WithSent(h.txn, h.txn.sent - {c}))
  }

  predicate AllAcked(t: Txn)
    requires t.Modify? || t.Drain?
  {
    t.tdir <= t.acked && t.sent == t.acked
  }

  function CompleteHome(h: Home): Home
    requires h.txn.Modify?
  {
    if h.txn.kind == ReadShd
    then h.(l2 := Shared, dir := h.txn.tdir + {h.txn.r}, txn := Idle)
    else h.(l2 := Exclusive, dir := {h.txn.r}, txn := Idle)
  }

  /** A writeback of `c` reaches the head of the home's writeback queue.  A waiting request is woken
      by either cache of its processor. */
  function WritebackHome(h: Home, c: Cache): Home
  {
    match h.txn
    case Modify(_, _, _, tdir, _, _) => h.(txn := WithDir(h.txn, tdir - {c}))
    case Drain(tdir, _, _) => h.(txn := WithDir(h.txn, tdir - {c}))
    case Waiting(r, kind, arrived) =>
      h.(dir := h.dir - {c}, txn := Waiting(r, kind, arrived || r == c || r == Twin(h, c)))
    case _ => h.(dir := h.dir - {c})
  }

  /** The L1 status an intervention leaves behind (`intervention_shared`, `intervention_exclusive`,
      `invalidate`). */
  function Downgrade(t: Intervention, st: Status): Status
  {
    if t == InterventionShd && st != Invalid then Shared else Invalid
  }

  /** A queued writeback answers an intervention; only an INTERVENTION_SHD that meets an
      EXCLUSIVE or MODIFIED entry leaves the entry queued. */
  predicate KeepsWriteback(t: Intervention, st: Status)
  {
    t == InterventionShd && (st == Exclusive || st == Modified)
  }

  predicate Enabled(s: State, step: Step)
  {
    var h := s.home;
    match step
    case Issue(c, kind) => c < |s.nodes| && s.nodes[c].miss == NoMiss && (IsInst(h, c) ==> kind == ReadShd)
    case BeginProbe(c) => c < |s.nodes| && h.txn == Idle && s.nodes[c].miss.Issued?
    case Probe =>
      && (h.txn.Probing? || (h.txn.Waiting? && h.txn.arrived))
      && h.txn.r < |s.nodes|
    case SendIntervention(c) =>
      && c < |s.nodes| && (h.txn.Modify? || h.txn.Drain?) && c in h.txn.tdir && c !in h.txn.sent
      && (IsInst(h, c) && !Local(h, c) ==> h.l2 == Shared)
    case HandleIntervention(c) =>
      && c < |s.nodes| && s.nodes[c].inv.Some?
      && !(s.nodes[c].inv.value == Invalidate
           && (s.nodes[c].l1 == Exclusive || s.nodes[c].l1 == Modified))   // assert in invalidate()
    case CatchWriteback(c, i) =>
      && c < |s.nodes| && !Local(h, c) && s.nodes[c].inv.Some?
      && i < |s.nodes[c].wbs| && !s.nodes[c].wbs[i].sent
    case ReceiveAck(c) =>
      && c < |s.nodes| && s.nodes[c].ack.Some? && (h.txn.Modify? || h.txn.Drain?)
      && AckAsserts(h, s.nodes[c].ack.value)
    case Complete => h.txn.Modify? && h.txn.r < |s.nodes| && AllAcked(h.txn)
    case BeginDrain => h.txn == Idle && h.l2 != Invalid
    case FinishDrain => h.txn.Drain? && AllAcked(h.txn)
    case RefillL2 => h.txn.Fetch? && h.txn.r < |s.nodes|
    case RefillL1(c, dirtied) =>
      && c < |s.nodes| && s.nodes[c].miss.Granted?
      && (dirtied ==> s.nodes[c].miss.exclusive)
    case StoreHit(c) => c < |s.nodes| && s.nodes[c].l1 == Exclusive
    case Evict(c) => c < |s.nodes| && s.nodes[c].l1 != Invalid
    case SendWriteback(c, i) =>
      c < |s.nodes| && !Local(h, c) && i < |s.nodes[c].wbs| && !s.nodes[c].wbs[i].sent
    case WritebackArrives(c, i) =>
      && c < |s.nodes| && i < |s.nodes[c].wbs| && (s.nodes[c].wbs[i].sent || Local(h, c))
      && !h.txn.Probing?
  }

  function Grant(nodes: seq<Node>, r: Cache, exclusive: bool): seq<Node>
    requires r < |nodes|
  {
    nodes[r := nodes[r].(miss := Granted(exclusive))]
  }

  /** `replace_block` for a refill of the block itself: a SHARED copy that is still in the L1 is
      the block chosen for replacement, so it is written back to the home. */
  function RefillNode(p: Node, dirtied: bool): Node
    requires p.miss.Granted?
  {
    Node(if !p.miss.exclusive then Shared else if dirtied then Modified else Exclusive,
         NoMiss,
         if p.l1 == Shared then p.wbs + [Writeback(Shared, false)] else p.wbs,
         p.inv, p.ack)
  }

  function Apply(s: State, step: Step): State
    requires Enabled(s, step)
  {
    var h := s.home;
    match step
    case Issue(c, kind) => s.(nodes := s.nodes[c := s.nodes[c].(miss := Issued(kind))])
    case BeginProbe(c) => s.(home := h.(txn := Probing(c, s.nodes[c].miss.kind)))
    case Probe =>
      var (h', granted) := ProbeHome(h, h.txn.r, h.txn.kind);
      State(h', if granted then Grant(s.nodes, h.txn.r, false) else s.nodes)
    case SendIntervention(c) =>
      State(h.(txn := WithSent(h.txn, h.txn.sent + {c})),
            s.nodes[c := s.nodes[c].(inv := Some(if h.txn.Drain? then InterventionExc else h.txn.itype))])
    case HandleIntervention(c) =>
      var p := s.nodes[c];
      s.(nodes := s.nodes[c := p.(l1 := Downgrade(p.inv.value, p.l1), inv := None, ack := Some(p.l1))])
    case CatchWriteback(c, i) =>
      var p := s.nodes[c];
      var st := p.wbs[i].status;
      s.(nodes := s.nodes[c := p.(wbs := if KeepsWriteback(p.inv.value, st) then p.wbs else RemoveAt(p.wbs, i),
                                  inv := None, ack := Some(st))])
    case ReceiveAck(c) =>
      State(AckHome(h, c, s.nodes[c].ack.value), s.nodes[c := s.nodes[c].(ack := None)])
    case Complete => State(CompleteHome(h), Grant(s.nodes, h.txn.r, h.txn.kind != ReadShd))
    case BeginDrain => s.(home := h.(txn := Drain(h.dir, {}, {})))
    case FinishDrain => s.(home := h.(l2 := Invalid, dir := {}, txn := Idle))
    case RefillL2 =>
      State(h.(l2 := if h.txn.kind == ReadShd then Shared else Exclusive, dir := {h.txn.r}, txn := Idle),
            Grant(s.nodes, h.txn.r, h.txn.kind != ReadShd))
    case RefillL1(c, dirtied) => s.(nodes := s.nodes[c := RefillNode(s.nodes[c], dirtied)])
    case StoreHit(c) => s.(nodes := s.nodes[c := s.nodes[c].(l1 := Modified)])
    case Evict(c) =>
      var p := s.nodes[c];
      s.(nodes := s.nodes[c := p.(l1 := Invalid, wbs := p.wbs + [Writeback(p.l1, false)])])
    case SendWriteback(c, i) =>
      var p := s.nodes[c];
      s.(nodes := s.nodes[c := p.(wbs := p.wbs[i := p.wbs[i].(sent := true)])])
    case WritebackArrives(c, i) =>
      State(WritebackHome(h, c), s.nodes[c := s.nodes[c].(wbs := RemoveAt(s.nodes[c].wbs, i))])
  }

  predicate Init(s: State)
  {
    && s.home.l2 == Invalid && s.home.dir == {} && s.home.txn == Idle
    && s.home.cpu < s.home.cpus && |s.nodes| == 2 * s.home.cpus
    && forall c | 0 <= c < |s.nodes| :: s.nodes[c] == Node(Invalid, NoMiss, [], None, None)
  }

  // ---------------------------------------------------------------- the two promises

  /** Single writer, many readers. */
  ghost predicate SingleWriter(s: State)
  {
    forall a, b | 0 <= a < |s.nodes| && 0 <= b < |s.nodes| && a != b
      && (s.nodes[a].l1 == Exclusive || s.nodes[a].l1 == Modified) :: s.nodes[b].l1 == Invalid
  }

  predicate Present(p: Node)
  {
    p.l1 != Invalid || p.miss.Granted? || p.wbs != []
  }

  /** Where the home keeps the directory bit of `c`: in the active miss entry while it modifies or
      drains L1 copies, in the L2 line otherwise.  The bits of the requesting processor stay in the
      line. */
  predicate Tracked(h: Home, c: Cache)
  {
    match h.txn
    case Modify(r, _, _, tdir, _, _) => c in tdir || ((c == r || c == Twin(h, r)) && c in h.dir)
    case Drain(tdir, _, _) => c in tdir
    case _ => c in h.dir
  }

  /** Every L1 copy, data grant in flight and writeback in flight has its directory bit set, and
      nothing is left of a block that its L2 has dropped. */
  ghost predicate Coverage(s: State)
  {
    forall c | 0 <= c < |s.nodes| && Present(s.nodes[c]) ::
      Tracked(s.home, c) && s.home.l2 != Invalid
  }

  ghost predicate Safe(s: State)
  {
    SingleWriter(s) && Coverage(s)
  }

  // ---------------------------------------------------------------- which steps are clean

  /** An instruction fetch of the processor of `c` holds the directory bit of `c` still while it takes
      an EXCLUSIVE line over. */
  predicate Sheltered(h: Home, c: Cache)
  {
    h.l2 == Exclusive && (h.txn.Modify? || h.txn.Probing?) && h.txn.r == Twin(h, c)
  }

  /** A step is stray when it leaves a cache with a copy or a grant besides a writeback in flight, or
      when it drops the directory bit of the other cache of the requesting processor:
      a refill over the live SHARED copy of the block (`replace_block`), a replacement of that copy
      when the refill is already on its way, the grant of an upgrade whose processor has the block
      in a writeback (`scache_probe` does not wait for it), and a completion while the
      requester's other cache holds the block. */
  predicate Stray(s: State, step: Step)
    requires Enabled(s, step)
  {
    match step
    case RefillL1(c, _) => s.nodes[c].l1 == Shared && !Sheltered(s.home, c)
    case Evict(c) => s.nodes[c].miss.Granted? && !Sheltered(s.home, c)
    case Complete =>
      var r := s.home.txn.r;
      || s.nodes[r].wbs != []
      || (Twin(s.home, r) < |s.nodes| && Present(s.nodes[Twin(s.home, r)]))
    case _ => false
  }

  // ---------------------------------------------------------------- invariant

  /** An EXCLUSIVE line has at most one data bit and no instruction bit. */
  ghost predicate LineOk(h: Home)
  {
    h.l2 == Exclusive ==>
      && (forall a, b | a in h.dir && b in h.dir :: a == b)
      && (forall a | a in h.dir :: !IsInst(h, a))
  }

  /** What the home alone keeps: a transaction copies the directory without its requester, and the
      intervention type fits the line. */
  ghost predicate HomeOk(h: Home)
  {
    && h.l2 != Modified
    && LineOk(h)
    && (match h.txn
        case Modify(r, kind, itype, tdir, sent, acked) =>
          && h.l2 != Invalid
          && tdir <= h.dir && r !in tdir && r !in sent && acked <= sent
          && Twin(h, r) !in tdir && Twin(h, r) !in sent
          && (itype == Invalidate <==> h.l2 == Shared)
          && (itype == InterventionShd <==> kind == ReadShd)
          && (r in h.dir ==> h.l2 == Shared && kind == Upgrade)
          && (forall c | c in sent && IsInst(h, c) :: h.l2 == Shared)
        case Drain(tdir, sent, acked) =>
          && h.l2 != Invalid && tdir <= h.dir && acked <= sent
          && (forall c | c in sent && IsInst(h, c) :: h.l2 == Shared)
        case Fetch(_, _) => h.l2 == Invalid
        case _ => true)
  }

  /** The type of the interventions of the active transaction. */
  function ActiveType(h: Home): Option<Intervention>
  {
    match h.txn
    case Modify(_, _, itype, _, _, _) => Some(itype)
    case Drain(_, _, _) => Some(InterventionExc)
    case _ => None
  }

  /** What an accepted answer says about the processor that gave it. */
  predicate Tamed(h: Home, p: Node)
  {
    if ActiveType(h) == Some(InterventionShd)
    then (p.l1 == Invalid || p.l1 == Shared) && !p.miss.Granted?
    else !Present(p)
  }

  /** At most one of L1 copy, grant and writeback; only an owner-to-be may hold a SHARED copy
      besides its grant. */
  predicate PresenceOk(p: Node)
  {
    && |p.wbs| <= 1
    && (p.wbs != [] ==> p.l1 == Invalid && !p.miss.Granted?)
    && (p.miss.Granted? && p.l1 != Invalid ==> p.miss.exclusive && p.l1 == Shared)
  }

  /** A sheltered cache may have one SHARED writeback more. */
  predicate ShelteredOk(p: Node)
  {
    p.wbs != [] && p.wbs[0].status == Shared && p.l1 != Shared && PresenceOk(p.(wbs := p.wbs[1..]))
  }

  /** Instruction caches read. */
  predicate InstOk(p: Node)
  {
    && (p.l1 == Invalid || p.l1 == Shared)
    && (p.miss == NoMiss || p.miss == Issued(ReadShd) || p.miss == Granted(false))
  }

  /** The L2 line bounds what a processor may hold. */
  predicate LineBounds(h: Home, p: Node)
  {
    && (h.l2 == Invalid ==> !Present(p))
    && (h.l2 == Shared ==> p.l1 != Exclusive && p.l1 != Modified && p.miss != Granted(true))
    && (h.l2 == Exclusive ==> p.miss != Granted(false))
  }

  /** Interventions and answers in flight belong to the active transaction, one per sent flag. */
  predicate ChannelOk(h: Home, c: Cache, p: Node)
  {
    if h.txn.Modify? || h.txn.Drain? then
      && ((c !in h.txn.sent || c in h.txn.acked) ==> p.inv.None? && p.ack.None?)
      && (c in h.txn.sent && c !in h.txn.acked ==> (p.inv.None? <==> p.ack.Some?))
      && (p.inv.Some? ==> p.inv == ActiveType(h))
      && (c in h.txn.acked ==> Tamed(h, p))
      && (p.ack.Some? && Accepts(h, p.ack.value) ==> Tamed(h, p))
    else
      p.inv.None? && p.ack.None?
  }

  predicate RequesterOk(h: Home, c: Cache, p: Node)
  {
    !h.txn.Idle? && !h.txn.Drain? && h.txn.r == c ==> p.miss == Issued(h.txn.kind)
  }

  predicate NodeOk(h: Home, c: Cache, p: Node)
  {
    && (Present(p) ==> Tracked(h, c))
    && (PresenceOk(p) || (Sheltered(h, c) && ShelteredOk(p)))
    && (IsInst(h, c) ==> InstOk(p))
    && LineBounds(h, p)
    && ChannelOk(h, c, p)
    && RequesterOk(h, c, p)
  }

  ghost predicate Inv(s: State)
  {
    && HomeOk(s.home)
    && s.home.cpu < s.home.cpus && |s.nodes| == 2 * s.home.cpus
    && (!s.home.txn.Idle? && !s.home.txn.Drain? ==> s.home.txn.r < |s.nodes|)
    && forall c | 0 <= c < |s.nodes| :: NodeOk(s.home, c, s.nodes[c])
  }

  lemma InitInv(s: State)
    requires Init(s)
    ensures Inv(s)
  {
  }

  lemma InvSafe(s: State)
    requires Inv(s)
    ensures SingleWriter(s) && Coverage(s)
  {
  }

  predicate LocalStep(step: Step)
  {
    step.Issue? || step.HandleIntervention? || step.CatchWriteback? || step.RefillL1? || step.StoreHit?
    || step.Evict? || step.SendWriteback?
  }

  lemma LocalNodeOk(s: State, step: Step)
    requires Inv(s) && Enabled(s, step) && !Stray(s, step)
    requires LocalStep(step) && !step.Evict? && !step.RefillL1?
    ensures NodeOk(s.home, step.c, Apply(s, step).nodes[step.c])
  {
    assert NodeOk(s.home, step.c, s.nodes[step.c]);
  }

  lemma RefillNodeOk(s: State, c: Cache, dirtied: bool)
    requires Inv(s) && Enabled(s, RefillL1(c, dirtied)) && !Stray(s, RefillL1(c, dirtied))
    ensures NodeOk(s.home, c, RefillNode(s.nodes[c], dirtied))
  {
    assert NodeOk(s.home, c, s.nodes[c]);
  }

  lemma EvictNodeOk(s: State, c: Cache)
    requires Inv(s) && Enabled(s, Evict(c)) && !Stray(s, Evict(c))
    ensures NodeOk(s.home, c, Apply(s, Evict(c)).nodes[c])
  {
    var wbs := s.nodes[c].wbs;
    assert NodeOk(s.home, c, s.nodes[c]);
    assert wbs != [] ==> (wbs + [Writeback(s.nodes[c].l1, false)])[1..] == wbs[1..] + [Writeback(s.nodes[c].l1, false)];
  }

  /** Steps of one cache that the home does not see. */
  lemma LocalStepInv(s: State, step: Step)
    requires Inv(s) && Enabled(s, step) && !Stray(s, step) && LocalStep(step)
    ensures Inv(Apply(s, step))
  {
    var s' := Apply(s, step);
    assert NodeOk(s.home, step.c, s'.nodes[step.c]) by {
      match step
      case RefillL1(c, dirtied) => RefillNodeOk(s, c, dirtied);
      case Evict(c) => EvictNodeOk(s, c);
      case _ => LocalNodeOk(s, step);
    }
    forall c | 0 <= c < |s.nodes| && c != step.c
      ensures NodeOk(s'.home, c, s'.nodes[c])
    {
      assert NodeOk(s.home, c, s.nodes[c]);
    }
  }

  lemma ProbeHomeOk(s: State)
    requires Inv(s) && Enabled(s, Probe)
    ensures HomeOk(Apply(s, Probe).home)
  {
    assert NodeOk(s.home, s.home.txn.r, s.nodes[s.home.txn.r]);
  }

  lemma ProbeInv(s: State)
    requires Inv(s) && Enabled(s, Probe)
    ensures Inv(Apply(s, Probe))
  {
    var s' := Apply(s, Probe);
    ProbeHomeOk(s);
    forall c | 0 <= c < |s.nodes|
      ensures NodeOk(s'.home, c, s'.nodes[c])
    {
      assert NodeOk(s.home, c, s.nodes[c]);
    }
  }

  lemma CompleteInv(s: State)
    requires Inv(s) && Enabled(s, Complete) && !Stray(s, Complete)
    ensures Inv(Apply(s, Complete))
  {
    var s' := Apply(s, Complete);
    assert HomeOk(s'.home);
    forall c | 0 <= c < |s.nodes|
      ensures NodeOk(s'.home, c, s'.nodes[c])
    {
      assert NodeOk(s.home, c, s.nodes[c]);
    }
  }

  /** Steps that start or end a transaction. */
  lemma TransactionStepInv(s: State, step: Step)
    requires Inv(s) && Enabled(s, step) && !Stray(s, step)
    requires step.BeginProbe? || step.Probe? || step.Complete? || step.BeginDrain? || step.FinishDrain?
             || step.RefillL2?
    ensures Inv(Apply(s, step))
  {
    if step.Probe? {
      ProbeInv(s);
    } else if step.Complete? {
      CompleteInv(s);
    } else {
      var s' := Apply(s, step);
      forall c | 0 <= c < |s.nodes|
        ensures NodeOk(s'.home, c, s'.nodes[c])
      {
        assert NodeOk(s.home, c, s.nodes[c]);
      }
    }
  }

  predicate MessageStep(step: Step)
  {
    step.SendIntervention? || step.ReceiveAck? || step.WritebackArrives?
  }

  lemma MessageHomeOk(s: State, step: Step)
    requires Inv(s) && Enabled(s, step) && MessageStep(step)
    ensures HomeOk(Apply(s, step).home)
  {
    assert NodeOk(s.home, step.c, s.nodes[step.c]);
  }

  lemma SendNodeOk(s: State, d: Cache, c: Cache)
    requires Inv(s) && Enabled(s, SendIntervention(d)) && c < |s.nodes|
    ensures NodeOk(Apply(s, SendIntervention(d)).home, c, Apply(s, SendIntervention(d)).nodes[c])
  {
    assert NodeOk(s.home, c, s.nodes[c]);
  }

  lemma AckNodeOk(s: State, d: Cache, c: Cache)
    requires Inv(s) && Enabled(s, ReceiveAck(d)) && c < |s.nodes|
    ensures NodeOk(Apply(s, ReceiveAck(d)).home, c, Apply(s, ReceiveAck(d)).nodes[c])
  {
    assert NodeOk(s.home, c, s.nodes[c]);
  }

  lemma ArrivalNodeOk(s: State, c: Cache, i: nat)
    requires Inv(s) && Enabled(s, WritebackArrives(c, i))
    ensures NodeOk(WritebackHome(s.home, c), c, s.nodes[c].(wbs := RemoveAt(s.nodes[c].wbs, i)))
  {
    assert NodeOk(s.home, c, s.nodes[c]);
  }

  lemma ArrivalOtherOk(s: State, c: Cache, i: nat, d: Cache)
    requires Inv(s) && Enabled(s, WritebackArrives(c, i)) && d < |s.nodes| && d != c
    ensures NodeOk(WritebackHome(s.home, c), d, s.nodes[d])
  {
    assert NodeOk(s.home, d, s.nodes[d]);
  }

  /** Messages between the home and one cache. */
  lemma MessageStepInv(s: State, step: Step)
    requires Inv(s) && Enabled(s, step) && MessageStep(step)
    ensures Inv(Apply(s, step))
  {
    MessageHomeOk(s, step);
    forall c | 0 <= c < |s.nodes|
      ensures NodeOk(Apply(s, step).home, c, Apply(s, step).nodes[c])
    {
      match step
      case WritebackArrives(d, i) => if c == d { ArrivalNodeOk(s, c, i); } else { ArrivalOtherOk(s, d, i, c); }
      case SendIntervention(d) => SendNodeOk(s, d, c);
      case ReceiveAck(d) => AckNodeOk(s, d, c);
    }
  }

  lemma StepInv(s: State, step: Step)
    requires Inv(s) && Enabled(s, step) && !Stray(s, step)
    ensures Inv(Apply(s, step))
  {
    match step
    case BeginProbe(_) | Probe | Complete | BeginDrain | FinishDrain | RefillL2 => TransactionStepInv(s, step);
    case SendIntervention(_) | ReceiveAck(_) | WritebackArrives(_, _) => MessageStepInv(s, step);
    case _ => LocalStepInv(s, step);
  }

  // ---------------------------------------------------------------- stray steps break the promises

  /** A continuation of enabled steps none of which is stray. */
  predicate CleanFrom(s: State, steps: seq<Step>)
    decreases |steps|
  {
    steps == []
    || (Enabled(s, steps[0]) && !Stray(s, steps[0]) && CleanFrom(Apply(s, steps[0]), steps[1..]))
  }

  function EndOf(s: State, steps: seq<Step>): State
    requires CleanFrom(s, steps)
    decreases |steps|
  {
    if steps == [] then s else EndOf(Apply(s, steps[0]), steps[1..])
  }

  ghost predicate Breakable(s: State)
  {
    exists steps :: CleanFrom(s, steps) && !Safe(EndOf(s, steps))
  }

  lemma {:induction false} CleanEndInv(s: State, steps: seq<Step>)
    requires Inv(s) && CleanFrom(s, steps)
    ensures Inv(EndOf(s, steps))
    decreases |steps|
  {
    if steps != [] {
      StepInv(s, steps[0]);
      CleanEndInv(Apply(s, steps[0]), steps[1..]);
    }
  }

  lemma UnsafeBreaks(s: State)
    requires !Safe(s)
    ensures Breakable(s)
  {
    var steps: seq<Step> := [];
    assert CleanFrom(s, steps) && EndOf(s, steps) == s;
  }

  lemma StepBreaks(s: State, step: Step)
    requires Enabled(s, step) && !Stray(s, step) && Breakable(Apply(s, step))
    ensures Breakable(s)
  {
    var rest :| CleanFrom(Apply(s, step), rest) && !Safe(EndOf(Apply(s, step), rest));
    var steps := [step] + rest;
    assert steps[1..] == rest;
    assert CleanFrom(s, steps) && EndOf(s, steps) == EndOf(Apply(s, step), rest);
  }

  /** `c` has a writeback in flight besides a copy or a grant, and the home is not protecting it. */
  predicate Mixed(s: State, c: Cache)
  {
    && c < |s.nodes| && |s.nodes[c].wbs| == 1
    && (s.nodes[c].l1 != Invalid || s.nodes[c].miss.Granted?)
    && s.home.l2 == Exclusive && !s.home.txn.Fetch?
    && (s.home.txn.Modify? || s.home.txn.Probing? ==> c != s.home.txn.r && c != Twin(s.home, s.home.txn.r))
  }

  /** A writeback takes the directory bit of its sender away, whatever the home is doing, unless the
      sender is a cache of the processor whose request is modifying the block. */
  lemma ArrivalClearsBit(s: State, c: Cache, i: nat)
    requires Enabled(s, WritebackArrives(c, i))
    requires s.home.txn.Modify? ==> Foreign(s.home, c)
    ensures !Tracked(Apply(s, WritebackArrives(c, i)).home, c)
  {
  }

  lemma ArrivalBreaks(s: State, c: Cache)
    requires Mixed(s, c) && !s.home.txn.Probing? && (s.nodes[c].wbs[0].sent || Local(s.home, c))
    ensures Breakable(s)
  {
    var s' := Apply(s, WritebackArrives(c, 0));
    ArrivalClearsBit(s, c, 0);
    assert Present(s'.nodes[c]);
    UnsafeBreaks(s');
    StepBreaks(s, WritebackArrives(c, 0));
  }

  lemma DeliveryBreaks(s: State, c: Cache)
    requires Mixed(s, c) && !s.home.txn.Probing?
    ensures Breakable(s)
  {
    if s.nodes[c].wbs[0].sent || Local(s.home, c) {
      ArrivalBreaks(s, c);
    } else {
      ArrivalBreaks(Apply(s, SendWriteback(c, 0)), c);
      StepBreaks(s, SendWriteback(c, 0));
    }
  }

  lemma MixedBreaks(s: State, c: Cache)
    requires Mixed(s, c) && (s.home.txn.Probing? ==> s.home.txn.r < |s.nodes|)
    ensures Breakable(s)
  {
    if s.home.txn.Probing? {
      DeliveryBreaks(Apply(s, Probe), c);
      StepBreaks(s, Probe);
    } else {
      DeliveryBreaks(s, c);
    }
  }

  /** A stray step breaks a promise at once, or mixes a writeback with a copy or a grant. */
  lemma StrayMixes(s: State, step: Step) returns (c: Cache)
    requires Inv(s) && Enabled(s, step) && Stray(s, step)
    ensures !Safe(Apply(s, step)) || Mixed(Apply(s, step), c)
    ensures Apply(s, step).home.txn.Probing? ==> Apply(s, step).home.txn.r < |s.nodes|
  {
    var s' := Apply(s, step);
    if step.Complete? {
      c := s.home.txn.r;
      var t := Twin(s.home, c);
      assert NodeOk(s.home, c, s.nodes[c]);
      assert t < |s.nodes| && Present(s.nodes[t]) ==> Present(s'.nodes[t]) && !Tracked(s'.home, t);
    } else {
      c := step.c;
      assert NodeOk(s.home, c, s.nodes[c]);
    }
  }

  lemma StrayBreaks(s: State, step: Step)
    requires Inv(s) && Enabled(s, step) && Stray(s, step)
    ensures Breakable(Apply(s, step))
  {
    var s' := Apply(s, step);
    var c := StrayMixes(s, step);
    if Safe(s') {
      MixedBreaks(s', c);
    } else {
      UnsafeBreaks(s');
    }
  }

  /** The line is drawn exactly.  A step from an invariant state is stray if and only if some
      continuation without any stray step leads to a state that breaks a promise; and exactly the
      steps that are not stray keep the invariant. */
  lemma StrayIff(s: State, step: Step)
    requires Inv(s) && Enabled(s, step)
    ensures Stray(s, step) <==> Breakable(Apply(s, step))
    ensures Stray(s, step) <==> !Inv(Apply(s, step))
  {
    if Stray(s, step) {
      StrayBreaks(s, step);
    } else {
      StepInv(s, step);
    }
    if Inv(Apply(s, step)) {
      InvUnbreakable(Apply(s, step));
    }
  }

  lemma InvUnbreakable(s: State)
    requires Inv(s)
    ensures !Breakable(s)
  {
    forall steps | CleanFrom(s, steps)
      ensures Safe(EndOf(s, steps))
    {
      CleanEndInv(s, steps);
      InvSafe(EndOf(s, steps));
    }
  }

  // ---------------------------------------------------------------- runs

  /** `states` is a run of the protocol that takes `steps`. */
  ghost predicate Run(states: seq<State>, steps: seq<Step>)
  {
    && |states| == |steps| + 1
    && Init(states[0])
    && forall i | 0 <= i < |steps| :: Enabled(states[i], steps[i]) && states[i + 1] == Apply(states[i], steps[i])
  }

  ghost predicate Clean(states: seq<State>, steps: seq<Step>)
    requires Run(states, steps)
  {
    forall i | 0 <= i < |steps| :: !Stray(states[i], steps[i])
  }

  lemma {:induction false} RunInv(states: seq<State>, steps: seq<Step>, i: nat)
    requires Run(states, steps) && Clean(states, steps) && i < |states|
    ensures Inv(states[i])
  {
    if i == 0 {
      InitInv(states[0]);
    } else {
      RunInv(states, steps, i - 1);
      assert Enabled(states[i - 1], steps[i - 1]) && !Stray(states[i - 1], steps[i - 1]);
      StepInv(states[i - 1], steps[i - 1]);
    }
  }

  /** The central promise of the protocol, over every clean run with any number of processors. */
  lemma CoherenceTheorem(states: seq<State>, steps: seq<Step>)
    requires Run(states, steps) && Clean(states, steps)
    ensures forall i | 0 <= i < |states| :: SingleWriter(states[i]) && Coverage(states[i])
  {
    forall i | 0 <= i < |states|
      ensures SingleWriter(states[i]) && Coverage(states[i])
    {
      RunInv(states, steps, i);
      InvSafe(states[i]);
    }
  }

  /** And over no other run: a run is clean if and only if none of its states can be continued by
      clean steps to a state that breaks a promise. */
  lemma CoherenceIff(states: seq<State>, steps: seq<Step>)
    requires Run(states, steps)
    ensures Clean(states, steps) <==> forall i | 0 <= i < |states| :: !Breakable(states[i])
  {
    if Clean(states, steps) {
      forall i | 0 <= i < |states|
        ensures !Breakable(states[i])
      {
        RunInv(states, steps, i);
        InvUnbreakable(states[i]);
      }
    } else {
      var i := FirstStray(states, steps, |steps|);
      RunInv(states[..i + 1], steps[..i], i);
      StrayBreaks(states[i], steps[i]);
      assert Breakable(states[i + 1]);
    }
  }

  lemma {:induction false} FirstStray(states: seq<State>, steps: seq<Step>, n: nat) returns (i: nat)
    requires Run(states, steps) && n <= |steps|
    requires exists k :: 0 <= k < n && Stray(states[k], steps[k])
    ensures i < n && Stray(states[i], steps[i])
    ensures forall k | 0 <= k < i :: !Stray(states[k], steps[k])
  {
    if k :| 0 <= k < n - 1 && Stray(states[k], steps[k]) {
      i := FirstStray(states, steps, n - 1);
    } else {
      i := n - 1;
    }
  }

  /** What holds of the line in every run, stray steps or not. */
  ghost predicate HomeLineInv(s: State)
  {
    && LineOk(s.home)
    && forall c | 0 <= c < |s.nodes| :: RequesterOk(s.home, c, s.nodes[c]) && (IsInst(s.home, c) ==> InstOk(s.nodes[c]))
  }

  lemma HomeLineKept(s: State, step: Step)
    requires HomeLineInv(s) && Enabled(s, step)
    ensures LineOk(Apply(s, step).home)
  {
    if step.Complete? || step.RefillL2? {
      assert RequesterOk(s.home, s.home.txn.r, s.nodes[s.home.txn.r]);
    }
  }

  lemma HomeLineStep(s: State, step: Step, c: Cache)
    requires HomeLineInv(s) && Enabled(s, step) && c < |s.nodes|
    ensures RequesterOk(Apply(s, step).home, c, Apply(s, step).nodes[c])
    ensures IsInst(s.home, c) ==> InstOk(Apply(s, step).nodes[c])
  {
    assert RequesterOk(s.home, c, s.nodes[c]);
  }

  lemma {:induction false} HomeLineRun(states: seq<State>, steps: seq<Step>, i: nat)
    requires Run(states, steps) && i < |states|
    ensures HomeLineInv(states[i])
  {
    if i > 0 {
      HomeLineRun(states, steps, i - 1);
      var s, s' := states[i - 1], Apply(states[i - 1], steps[i - 1]);
      assert Enabled(s, steps[i - 1]) && states[i] == s';
      HomeLineKept(s, steps[i - 1]);
      forall c | 0 <= c < |s'.nodes|
        ensures RequesterOk(s'.home, c, s'.nodes[c]) && (IsInst(s'.home, c) ==> InstOk(s'.nodes[c]))
      {
        HomeLineStep(s, steps[i - 1], c);
      }
    }
  }

  /** In every run an EXCLUSIVE line has at most one data bit, and no instruction bit. */
  lemma ExclusiveLineTheorem(states: seq<State>, steps: seq<Step>)
    requires Run(states, steps)
    ensures forall i, a | 0 <= i < |states| && states[i].home.l2 == Exclusive && a in states[i].home.dir ::
              !IsInst(states[i].home, a) && states[i].home.dir == {a}
  {
    forall i, a | 0 <= i < |states| && states[i].home.l2 == Exclusive && a in states[i].home.dir
      ensures !IsInst(states[i].home, a) && states[i].home.dir == {a}
    {
      HomeLineRun(states, steps, i);
    }
  }

  // ---------------------------------------------------------------- transactions

  /** When an entry leaves MQ_MODIFY_L1, no intervention is unanswered, and every cache that the
      directory named has either given an accepted answer or written its copy back.  So an
      exclusive request ends with no cache outside the requesting processor holding anything of the
      block, and a shared one with no owner outside it. */
  lemma CompletionTheorem(s: State)
    requires Inv(s) && Enabled(s, Complete)
    ensures forall c | 0 <= c < |s.nodes| :: s.nodes[c].inv.None? && s.nodes[c].ack.None?
    ensures forall c | 0 <= c < |s.nodes| && c in s.home.dir && Foreign(s.home, c) ::
              c in s.home.txn.acked || !Present(s.nodes[c])
    ensures s.home.txn.kind != ReadShd ==>
              && Apply(s, Complete).home.dir == {s.home.txn.r} && Apply(s, Complete).home.l2 == Exclusive
              && forall c | 0 <= c < |s.nodes| && Foreign(s.home, c) :: !Present(s.nodes[c])
    ensures s.home.txn.kind == ReadShd ==>
              forall c | 0 <= c < |s.nodes| && Foreign(s.home, c) ::
                s.nodes[c].l1 != Exclusive && s.nodes[c].l1 != Modified && s.nodes[c].miss != Granted(true)
  {
  }

  /** A drained victim is gone from every L1 and from every channel. */
  lemma DrainTheorem(s: State)
    requires Inv(s) && Enabled(s, FinishDrain)
    ensures forall c | 0 <= c < |s.nodes| ::
              !Present(s.nodes[c]) && s.nodes[c].inv.None? && s.nodes[c].ack.None?
  {
  }

  /** The assertion of `invalidate` (no INVALIDATE meets an owner) cannot fail in a clean run. */
  lemma InvalidateNeverMeetsOwner(s: State, c: Cache)
    requires Inv(s) && c < |s.nodes| && s.nodes[c].inv == Some(Invalidate)
    ensures s.nodes[c].l1 != Exclusive && s.nodes[c].l1 != Modified
  {
  }

  /** Instruction caches are asked only about SHARED lines, so an INTERVENTION_SHD never meets one. */
  lemma InstAnswersShared(s: State, c: Cache)
    requires Inv(s) && c < |s.nodes| && IsInst(s.home, c) && (s.nodes[c].inv.Some? || s.nodes[c].ack.Some?)
    ensures s.home.l2 == Shared && ActiveType(s.home).Some? && ActiveType(s.home) != Some(InterventionShd)
  {
    assert NodeOk(s.home, c, s.nodes[c]);
  }

  /** The assertions on an answer can fail, and they fail exactly when an owner's status answers
      for a line that is already SHARED. */
  lemma AckAssertsIff(s: State, c: Cache)
    requires Inv(s) && c < |s.nodes| && s.nodes[c].ack.Some?
    ensures s.home.txn.Modify? || s.home.txn.Drain?
    ensures AckAsserts(s.home, s.nodes[c].ack.value)
            <==> !(s.home.l2 == Shared
                   && (s.nodes[c].ack.value == Exclusive || s.nodes[c].ack.value == Modified))
  {
  }
}
