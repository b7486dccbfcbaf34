/** One set of a home L2 with all the blocks that compete for its ways (`scache_probe`,
    `scache_refill`, `scache_writeback`).  A miss takes a way over, so the transaction of one block
    drains the L1 copies of another one.  Every step is shown to be, for each block, a step of
    module `Coherence` or no step at all, which carries the promises over to all blocks.  */
module L2Set {
  import opened Coherence

  type Block = nat

  datatype Line = Line(tag: Block, status: Status, dir: set<Cache>)

  /** The miss-queue entry that is active for the set. */
  datatype SetTxn =
    | Free
    | Active(b: Block, t: Txn)               // MQ_READ_L2 or MQ_MODIFY_L1
    | Missed(b: Block, r: Cache, kind: Request, way: nat,
             tdir: set<Cache>, sent: set<Cache>, acked: set<Cache>)   // MQ_L2_MISS, draining `way`
    | Memory(b: Block, r: Cache, kind: Request, way: nat)         // MQ_MEMREF, MQ_REFILL_L2

  datatype SetState = SetState(home: nat, cpus: nat, lines: seq<Line>, txn: SetTxn, nodes: map<Block, seq<Node>>)

  datatype SetStep =
    | OnBlock(b: Block, step: Step)      // a step that concerns one block only
    | ProbeMiss(way: nat)                // the probe misses and `way` is chosen for replacement
    | Drained                            // MQ_L2_MISS -> MQ_MEMREF
    | Refill                             // scache_refill

  predicate Holds(l: Line, b: Block)
  {
    l.tag == b && l.status != Invalid
  }

  /** The way whose tag matches, by the linear search of the way list. */
  function WayOf(lines: seq<Line>, b: Block): (w: Option<nat>)
    ensures w.Some? ==> w.value < |lines| && Holds(lines[w.value], b)
    ensures w.None? ==> forall i | 0 <= i < |lines| :: !Holds(lines[i], b)
  {
    if lines == [] then None
    else if Holds(lines[|lines| - 1], b) then Some(|lines| - 1)
    else WayOf(lines[..|lines| - 1], b)
  }

  /** The line that serves `b`; a way that waits for memory data no longer counts. */
  function LiveWay(s: SetState, b: Block): (w: Option<nat>)
    ensures w.Some? ==> w.value < |s.lines| && Holds(s.lines[w.value], b)
  {
    var w := WayOf(s.lines, b);
    if w.Some? && s.txn.Memory? && s.txn.way == w.value then None else w
  }

  function TxnOf(s: SetState, b: Block): Txn
  {
    match s.txn
    case Free => Idle
    case Active(b', t) => if b' == b then t else Idle
    case Missed(b', r, kind, way, tdir, sent, acked) =>
      if b' == b then Fetch(r, kind)
      else if way < |s.lines| && Holds(s.lines[way], b) then Drain(tdir, sent, acked)
      else Idle
    case Memory(b', r, kind, _) => if b' == b then Fetch(r, kind) else Idle
  }

  /** The state of the protocol as one block sees it. */
  function View(s: SetState, b: Block): State
    requires b in s.nodes
  {
    var w := LiveWay(s, b);
    State(Home(s.home,
               s.cpus,
               if w.Some? then s.lines[w.value].status else Invalid,
               if w.Some? then s.lines[w.value].dir else {},
               TxnOf(s, b)),
          s.nodes[b])
  }

  /** Store the outcome `v` of a step of block `b`: its line, the active entry, its L1 side. */
  function Store(s: SetState, b: Block, v: State): SetState
    requires b in s.nodes
  {
    var w := LiveWay(s, b);
    SetState(s.home, s.cpus,
             if w.Some? then s.lines[w.value := Line(b, v.home.l2, v.home.dir)] else s.lines,
             match s.txn {
               case Free => if v.home.txn.Idle? then Free else Active(b, v.home.txn)
               case Active(b', _) =>
                 if b' != b then s.txn else if v.home.txn.Idle? then Free else Active(b, v.home.txn)
               case Missed(b', r, kind, way, _, _, _) =>
                 if b' != b && v.home.txn.Drain?
                 then Missed(b', r, kind, way, v.home.txn.tdir, v.home.txn.sent, v.home.txn.acked)
                 else s.txn
               case Memory(_, _, _, _) => s.txn
             },
             s.nodes[b := v.nodes])
  }

  predicate SetEnabled(s: SetState, step: SetStep)
  {
    match step
    case OnBlock(b, st) =>
      && b in s.nodes && Enabled(View(s, b), st)
      && !st.BeginDrain? && !st.FinishDrain? && !st.RefillL2?
      && (st.BeginProbe? ==> s.txn.Free?)                       // one active entry per set
      && (st.Probe? ==> LiveWay(s, b).Some?)
      && (st.WritebackArrives? ==> !(s.txn.Active? && s.txn.t.Probing?))   // the L2 port order
    case ProbeMiss(way) =>
      && s.txn.Active? && s.txn.b in s.nodes && Enabled(View(s, s.txn.b), Probe)
      && way < |s.lines| && LiveWay(s, s.txn.b).None?
      && (s.lines[way].status != Invalid ==> s.lines[way].tag in s.nodes)
    case Drained => s.txn.Missed? && s.txn.tdir <= s.txn.acked && s.txn.sent == s.txn.acked
    case Refill =>
      && s.txn.Memory? && s.txn.b in s.nodes && s.txn.r < |s.nodes[s.txn.b]| && s.txn.way < |s.lines|
  }

  function SetApply(s: SetState, step: SetStep): SetState
    requires SetEnabled(s, step)
  {
    match step
    case OnBlock(b, st) => Store(s, b, Apply(View(s, b), st))
    case ProbeMiss(way) =>
      s.(txn := Missed(s.txn.b, s.txn.t.r, s.txn.t.kind, way, s.lines[way].dir, {}, {}))
    case Drained => s.(txn := Memory(s.txn.b, s.txn.r, s.txn.kind, s.txn.way))
    case Refill =>
      SetState(s.home, s.cpus,
               s.lines[s.txn.way := Line(s.txn.b, if s.txn.kind == ReadShd then Shared else Exclusive, {s.txn.r})],
               Free,
               s.nodes[s.txn.b := Grant(s.nodes[s.txn.b], s.txn.r, s.txn.kind != ReadShd)])
  }

  predicate SetInit(s: SetState)
  {
    && s.home < s.cpus && s.txn == Free
    && (forall i | 0 <= i < |s.lines| :: s.lines[i].status == Invalid && s.lines[i].dir == {})
    && forall b | b in s.nodes ::
         && |s.nodes[b]| == 2 * s.cpus
         && forall c | 0 <= c < |s.nodes[b]| :: s.nodes[b][c] == Node(Invalid, NoMiss, [], None, None)
  }

  predicate SetStray(s: SetState, step: SetStep)
    requires SetEnabled(s, step)
  {
    step.OnBlock? && Stray(View(s, step.b), step.step)
  }

  // ---------------------------------------------------------------- invariant

  /** A block is in at most one way, a block being fetched in none, invalid lines have no bits. */
  ghost predicate LinesOk(s: SetState)
  {
    && (forall i, j | 0 <= i < j < |s.lines| && s.lines[i].status != Invalid :: !Holds(s.lines[j], s.lines[i].tag))
    && (forall i | 0 <= i < |s.lines| && s.lines[i].status != Invalid :: s.lines[i].tag in s.nodes)
    && (forall i | 0 <= i < |s.lines| && s.lines[i].status == Invalid :: s.lines[i].dir == {})
    && (s.txn.Active? ==> s.txn.b in s.nodes && !s.txn.t.Idle? && !s.txn.t.Drain? && !s.txn.t.Fetch?)
    && (s.txn.Missed? || s.txn.Memory? ==>
          s.txn.b in s.nodes && s.txn.way < |s.lines| && WayOf(s.lines, s.txn.b).None?)
  }

  ghost predicate SetInv(s: SetState)
  {
    && LinesOk(s)
    && forall b | b in s.nodes :: Inv(View(s, b))
  }

  lemma WayUnique(s: SetState, i: nat, b: Block)
    requires LinesOk(s) && i < |s.lines| && Holds(s.lines[i], b)
    ensures WayOf(s.lines, b) == Some(i)
  {
    var w := WayOf(s.lines, b).value;
    assert w == i;
  }

  /** What a step of the set is for one block. */
  function BlockStep(s: SetState, step: SetStep, b: Block): Option<Step>
    requires SetEnabled(s, step)
  {
    match step
    case OnBlock(b', st) => if b' == b then Some(st) else None
    case ProbeMiss(way) =>
      if b == s.txn.b then Some(Probe) else if Holds(s.lines[way], b) then Some(BeginDrain) else None
    case Drained =>
      if b != s.txn.b && s.txn.way < |s.lines| && Holds(s.lines[s.txn.way], b) then Some(FinishDrain) else None
    case Refill => if b == s.txn.b then Some(RefillL2) else None
  }

  /** Replacing the line of `b` by another line of `b` moves no block. */
  lemma WayOfUpdate(lines: seq<Line>, w: nat, l: Line, b: Block)
    requires w < |lines| && (Holds(l, b) <==> Holds(lines[w], b))
    ensures WayOf(lines[w := l], b) == WayOf(lines, b)
  {
    if w == |lines| - 1 {
      assert lines[w := l][..|lines| - 1] == lines[..|lines| - 1];
    } else {
      assert lines[w := l][..|lines| - 1] == lines[..|lines| - 1][w := l];
      WayOfUpdate(lines[..|lines| - 1], w, l, b);
    }
  }

  /** How the active entry may move when only one block is concerned. */
  predicate TxnMoves(s: SetState, t: Txn, t': Txn)
  {
    match t
    case Idle => t'.Idle? || (t'.Probing? && s.txn.Free?)
    case Drain(_, _, _) => t'.Drain?
    case Fetch(_, _) => t' == t
    case _ => !t'.Drain? && !t'.Fetch?
  }

  ghost predicate Storable(s: SetState, b: Block, v: State)
  {
    && b in s.nodes
    && v.home.cpu == s.home && v.home.cpus == s.cpus
    && (v.home.l2 != Invalid <==> LiveWay(s, b).Some?)
    && (LiveWay(s, b).None? ==> v.home.dir == {})
    && TxnMoves(s, TxnOf(s, b), v.home.txn)
  }

  lemma BlockStepStorable(s: SetState, b: Block, st: Step)
    requires SetInv(s) && SetEnabled(s, OnBlock(b, st))
    ensures Storable(s, b, Apply(View(s, b), st))
  {
    assert Inv(View(s, b));
  }

  lemma StoreLines(s: SetState, b: Block, v: State)
    requires LinesOk(s) && Storable(s, b, v)
    ensures var s' := Store(s, b, v);
            && |s'.lines| == |s.lines|
            && forall b2: Block :: WayOf(s'.lines, b2) == WayOf(s.lines, b2)
  {
    var w := LiveWay(s, b);
    if w.Some? {
      forall b2: Block
        ensures WayOf(Store(s, b, v).lines, b2) == WayOf(s.lines, b2)
      {
        WayOfUpdate(s.lines, w.value, Line(b, v.home.l2, v.home.dir), b2);
      }
    }
  }

  lemma StoreKeepsLinesOk(s: SetState, b: Block, v: State)
    requires LinesOk(s) && Storable(s, b, v)
    ensures LinesOk(Store(s, b, v))
  {
    StoreLines(s, b, v);
  }

  lemma StoreView(s: SetState, b: Block, v: State)
    requires LinesOk(s) && Storable(s, b, v)
    ensures View(Store(s, b, v), b) == v
  {
    StoreLines(s, b, v);
  }

  lemma StoreOtherView(s: SetState, b: Block, v: State, b2: Block)
    requires LinesOk(s) && Storable(s, b, v) && b2 in s.nodes && b2 != b
    ensures View(Store(s, b, v), b2) == View(s, b2)
  {
    StoreLines(s, b, v);
    assert Store(s, b, v).nodes[b2] == s.nodes[b2];
  }

  /** Every step of the set is a step of the protocol, or nothing, for each of the blocks. */
  lemma StepRefines(s: SetState, step: SetStep, b: Block)
    requires SetInv(s) && SetEnabled(s, step) && b in s.nodes
    ensures SetApply(s, step).nodes.Keys == s.nodes.Keys
    ensures LinesOk(SetApply(s, step))
    ensures match BlockStep(s, step, b)
            case None => View(SetApply(s, step), b) == View(s, b)
            case Some(st) =>
              && Enabled(View(s, b), st)
              && View(SetApply(s, step), b) == Apply(View(s, b), st)
              && (Stray(View(s, b), st) ==> SetStray(s, step))
  {
    match step
    case OnBlock(b', st) =>
      BlockStepStorable(s, b', st);
      var v := Apply(View(s, b'), st);
      StoreKeepsLinesOk(s, b', v);
      if b == b' { StoreView(s, b, v); } else { StoreOtherView(s, b', v, b); }
    case ProbeMiss(way) => ProbeMissRefines(s, way, b);
    case Drained => DrainedRefines(s, b);
    case Refill => RefillRefines(s, b);
  }

  lemma ProbeMissRefines(s: SetState, way: nat, b: Block)
    requires SetInv(s) && SetEnabled(s, ProbeMiss(way)) && b in s.nodes
    ensures LinesOk(SetApply(s, ProbeMiss(way)))
    ensures match BlockStep(s, ProbeMiss(way), b)
            case None => View(SetApply(s, ProbeMiss(way)), b) == View(s, b)
            case Some(st) =>
              Enabled(View(s, b), st) && View(SetApply(s, ProbeMiss(way)), b) == Apply(View(s, b), st)
  {
    assert Inv(View(s, b));
    if Holds(s.lines[way], b) {
      WayUnique(s, way, b);
    }
  }

  lemma DrainedRefines(s: SetState, b: Block)
    requires SetInv(s) && SetEnabled(s, Drained) && b in s.nodes
    ensures LinesOk(SetApply(s, Drained))
    ensures match BlockStep(s, Drained, b)
            case None => View(SetApply(s, Drained), b) == View(s, b)
            case Some(st) => Enabled(View(s, b), st) && View(SetApply(s, Drained), b) == Apply(View(s, b), st)
  {
  }

  lemma RefillRefines(s: SetState, b: Block)
    requires SetInv(s) && SetEnabled(s, Refill) && b in s.nodes
    ensures LinesOk(SetApply(s, Refill))
    ensures match BlockStep(s, Refill, b)
            case None => View(SetApply(s, Refill), b) == View(s, b)
            case Some(st) => Enabled(View(s, b), st) && View(SetApply(s, Refill), b) == Apply(View(s, b), st)
  {
    var way, s' := s.txn.way, SetApply(s, Refill);
    forall i, j | 0 <= i < j < |s'.lines| && s'.lines[i].status != Invalid
      ensures !Holds(s'.lines[j], s'.lines[i].tag)
    {
      assert !Holds(s.lines[i], s.txn.b) && !Holds(s.lines[j], s.txn.b);
    }
    assert LinesOk(s');
    if b == s.txn.b {
      WayUnique(s', way, b);
    } else if WayOf(s.lines, b).Some? && WayOf(s.lines, b).value != way {
      WayUnique(s', WayOf(s.lines, b).value, b);
    } else {
      forall k | 0 <= k < |s'.lines|
        ensures !Holds(s'.lines[k], b)
      {
        if k != way { OnlyWay(s, way, k, b); }
      }
    }
  }

  lemma OnlyWay(s: SetState, way: nat, k: nat, b: Block)
    requires LinesOk(s) && k < |s.lines| && k != way && (WayOf(s.lines, b).None? || WayOf(s.lines, b) == Some(way))
    ensures !Holds(s.lines[k], b)
  {
  }

  lemma SetStepInv(s: SetState, step: SetStep)
    requires SetInv(s) && SetEnabled(s, step) && !SetStray(s, step)
    ensures SetInv(SetApply(s, step))
  {
    var s' := SetApply(s, step);
    var b0: Block :| b0 in s.nodes;
    StepRefines(s, step, b0);
    forall b | b in s'.nodes
      ensures Inv(View(s', b))
    {
      StepRefines(s, step, b);
      if BlockStep(s, step, b).Some? {
        StepInv(View(s, b), BlockStep(s, step, b).value);
      }
    }
  }

  lemma SetInitInv(s: SetState)
    requires SetInit(s)
    ensures SetInv(s)
  {
    forall b | b in s.nodes
      ensures Inv(View(s, b))
    {
      assert Init(View(s, b));
      InitInv(View(s, b));
    }
  }

  // ---------------------------------------------------------------- stray steps break the promises

  predicate SetCleanFrom(s: SetState, steps: seq<SetStep>)
    decreases |steps|
  {
    steps == []
    || (SetEnabled(s, steps[0]) && !SetStray(s, steps[0]) && SetCleanFrom(SetApply(s, steps[0]), steps[1..]))
  }

  function SetEndOf(s: SetState, steps: seq<SetStep>): SetState
    requires SetCleanFrom(s, steps)
    decreases |steps|
  {
    if steps == [] then s else SetEndOf(SetApply(s, steps[0]), steps[1..])
  }

  ghost predicate SetSafe(s: SetState)
  {
    forall b | b in s.nodes :: Safe(View(s, b))
  }

  ghost predicate SetBreakable(s: SetState)
  {
    exists steps :: SetCleanFrom(s, steps) && !SetSafe(SetEndOf(s, steps))
  }

  lemma SetUnsafeBreaks(s: SetState, b: Block)
    requires b in s.nodes && !Safe(View(s, b))
    ensures SetBreakable(s)
  {
    var steps: seq<SetStep> := [];
    assert SetCleanFrom(s, steps) && SetEndOf(s, steps) == s;
  }

  lemma SetStepBreaks(s: SetState, step: SetStep)
    requires SetEnabled(s, step) && !SetStray(s, step) && SetBreakable(SetApply(s, step))
    ensures SetBreakable(s)
  {
    var rest :| SetCleanFrom(SetApply(s, step), rest) && !SetSafe(SetEndOf(SetApply(s, step), rest));
    var steps := [step] + rest;
    assert steps[1..] == rest;
    assert SetCleanFrom(s, steps) && SetEndOf(s, steps) == SetEndOf(SetApply(s, step), rest);
  }

  ghost predicate SetMixed(s: SetState, b: Block, c: Cache)
  {
    LinesOk(s) && b in s.nodes && Mixed(View(s, b), c)
  }

  predicate PortBusy(s: SetState)
  {
    s.txn.Active? && s.txn.t.Probing?
  }

  lemma SetArrivalBreaks(s: SetState, b: Block, c: Cache)
    requires SetMixed(s, b, c) && !PortBusy(s)
    requires s.nodes[b][c].wbs[0].sent || Local(View(s, b).home, c)
    ensures SetBreakable(s)
  {
    var v := View(s, b);
    var v' := Apply(v, WritebackArrives(c, 0));
    StoreView(s, b, v');
    ArrivalClearsBit(v, c, 0);
    assert Present(v'.nodes[c]);
    SetUnsafeBreaks(SetApply(s, OnBlock(b, WritebackArrives(c, 0))), b);
    SetStepBreaks(s, OnBlock(b, WritebackArrives(c, 0)));
  }

  lemma SetDeliveryBreaks(s: SetState, b: Block, c: Cache)
    requires SetMixed(s, b, c) && !PortBusy(s)
    ensures SetBreakable(s)
  {
    if s.nodes[b][c].wbs[0].sent || Local(View(s, b).home, c) {
      SetArrivalBreaks(s, b, c);
    } else {
      var v := Apply(View(s, b), SendWriteback(c, 0));
      StoreView(s, b, v);
      StoreKeepsLinesOk(s, b, v);
      SetArrivalBreaks(SetApply(s, OnBlock(b, SendWriteback(c, 0))), b, c);
      SetStepBreaks(s, OnBlock(b, SendWriteback(c, 0)));
    }
  }

  /** The L2 port is freed first: the pending probe of the block itself or of another one hits, or it
      misses and takes the way of `b`. */
  lemma OwnProbeBreaks(s: SetState, b: Block, c: Cache)
    requires SetMixed(s, b, c) && PortBusy(s) && s.txn.b == b && Enabled(View(s, b), Probe)
    ensures SetBreakable(s)
  {
    var v := Apply(View(s, b), Probe);
    StoreView(s, b, v);
    StoreKeepsLinesOk(s, b, v);
    SetDeliveryBreaks(SetApply(s, OnBlock(b, Probe)), b, c);
    SetStepBreaks(s, OnBlock(b, Probe));
  }

  lemma OtherProbeBreaks(s: SetState, b: Block, c: Cache)
    requires SetMixed(s, b, c) && PortBusy(s) && s.txn.b != b && LiveWay(s, s.txn.b).Some?
    requires Enabled(View(s, s.txn.b), Probe) && Inv(View(s, s.txn.b))
    ensures SetBreakable(s)
  {
    var v := Apply(View(s, s.txn.b), Probe);
    StoreOtherView(s, s.txn.b, v, b);
    StoreKeepsLinesOk(s, s.txn.b, v);
    SetDeliveryBreaks(SetApply(s, OnBlock(s.txn.b, Probe)), b, c);
    SetStepBreaks(s, OnBlock(s.txn.b, Probe));
  }

  lemma ProbeMissBreaks(s: SetState, b: Block, c: Cache)
    requires SetMixed(s, b, c) && PortBusy(s) && s.txn.b != b && LiveWay(s, s.txn.b).None?
    requires Enabled(View(s, s.txn.b), Probe)
    ensures SetBreakable(s)
  {
    var step := ProbeMiss(LiveWay(s, b).value);
    assert Mixed(View(SetApply(s, step), b), c);
    SetDeliveryBreaks(SetApply(s, step), b, c);
    SetStepBreaks(s, step);
  }

  lemma SetMixedBreaks(s: SetState, b: Block, c: Cache)
    requires SetMixed(s, b, c)
    requires PortBusy(s) ==> Enabled(View(s, s.txn.b), Probe) && (s.txn.b == b || Inv(View(s, s.txn.b)))
    ensures SetBreakable(s)
  {
    if !PortBusy(s) {
      SetDeliveryBreaks(s, b, c);
    } else if s.txn.b == b {
      OwnProbeBreaks(s, b, c);
    } else if LiveWay(s, s.txn.b).Some? {
      OtherProbeBreaks(s, b, c);
    } else {
      ProbeMissBreaks(s, b, c);
    }
  }

  lemma SetStrayBreaks(s: SetState, step: SetStep)
    requires SetInv(s) && SetEnabled(s, step) && SetStray(s, step)
    ensures SetBreakable(SetApply(s, step))
  {
    var b, st, s' := step.b, step.step, SetApply(s, step);
    StepRefines(s, step, b);
    if !Safe(View(s', b)) {
      SetUnsafeBreaks(s', b);
    } else {
      var c := StrayMixes(View(s, b), st);
      if PortBusy(s') && s'.txn.b != b {
        StepRefines(s, step, s'.txn.b);
      }
      SetMixedBreaks(s', b, c);
    }
  }

  /** The line is drawn exactly for the set too: a step is stray if and only if a clean continuation
      leads to a state in which a promise is broken for some block. */
  lemma SetStrayIff(s: SetState, step: SetStep)
    requires SetInv(s) && SetEnabled(s, step)
    ensures SetStray(s, step) <==> SetBreakable(SetApply(s, step))
  {
    if SetStray(s, step) {
      SetStrayBreaks(s, step);
    } else {
      SetStepInv(s, step);
      forall steps | SetCleanFrom(SetApply(s, step), steps)
        ensures SetSafe(SetEndOf(SetApply(s, step), steps))
      {
        SetCleanSafe(SetApply(s, step), steps);
      }
    }
  }

  lemma {:induction false} SetCleanSafe(s: SetState, steps: seq<SetStep>)
    requires SetInv(s) && SetCleanFrom(s, steps)
    ensures SetSafe(SetEndOf(s, steps))
    decreases |steps|
  {
    if steps == [] {
      forall b | b in s.nodes
        ensures Safe(View(s, b))
      {
        InvSafe(View(s, b));
      }
    } else {
      SetStepInv(s, steps[0]);
      SetCleanSafe(SetApply(s, steps[0]), steps[1..]);
    }
  }

  // ---------------------------------------------------------------- all blocks of the set

  ghost predicate SetRun(states: seq<SetState>, steps: seq<SetStep>)
  {
    && |states| == |steps| + 1
    && SetInit(states[0])
    && forall i | 0 <= i < |steps| ::
         SetEnabled(states[i], steps[i]) && states[i + 1] == SetApply(states[i], steps[i])
  }

  lemma {:induction false} SetRunInv(states: seq<SetState>, steps: seq<SetStep>, i: nat)
    requires SetRun(states, steps) && i < |states|
    requires forall k | 0 <= k < |steps| :: SetEnabled(states[k], steps[k]) && !SetStray(states[k], steps[k])
    ensures SetInv(states[i])
  {
    if i == 0 {
      SetInitInv(states[0]);
    } else {
      SetRunInv(states, steps, i - 1);
      assert SetEnabled(states[i - 1], steps[i - 1]) && !SetStray(states[i - 1], steps[i - 1]);
      SetStepInv(states[i - 1], steps[i - 1]);
    }
  }

  /** Single writer for every block of the set; and whatever any L1, grant or writeback holds of a
      block, its L2 line is still there (or is the victim being drained) with the directory bit
      set, so no L1 keeps a block that its L2 has dropped. */
  lemma SetCoherenceTheorem(states: seq<SetState>, steps: seq<SetStep>)
    requires SetRun(states, steps)
    requires forall k | 0 <= k < |steps| :: SetEnabled(states[k], steps[k]) && !SetStray(states[k], steps[k])
    ensures forall i, b | 0 <= i < |states| && b in states[i].nodes ::
              && SingleWriter(View(states[i], b))
              && Coverage(View(states[i], b))
    ensures forall i, b, c | 0 <= i < |states| && b in states[i].nodes && 0 <= c < |states[i].nodes[b]|
                && Present(states[i].nodes[b][c]) ::
              exists w :: 0 <= w < |states[i].lines| && Holds(states[i].lines[w], b)
  {
    forall i, b | 0 <= i < |states| && b in states[i].nodes
      ensures SingleWriter(View(states[i], b)) && Coverage(View(states[i], b))
    {
      SetRunInv(states, steps, i);
      InvSafe(View(states[i], b));
    }
    forall i, b, c | 0 <= i < |states| && b in states[i].nodes && 0 <= c < |states[i].nodes[b]|
      && Present(states[i].nodes[b][c])
      ensures exists w :: 0 <= w < |states[i].lines| && Holds(states[i].lines[w], b)
    {
      assert Coverage(View(states[i], b));
      assert Present(View(states[i], b).nodes[c]);
      var w := LiveWay(states[i], b).value;
      assert Holds(states[i].lines[w], b);
    }
  }
}
