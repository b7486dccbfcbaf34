/** What the protocol does with written data (the `dirty` flag of the L2 line, WRITEBACK against
    ELIMINATE).  A store leaves the only current data in an L1; the answer to an intervention or a
    writeback must carry it to the L2 line before the line goes.  */
module DirtyData {
  import opened Coherence

  /** The protocol with the dirty flag of the line; `written` says whether any store has been
      done since memory had the data. */
  datatype Data = Data(s: State, dirty: bool, written: bool)

  /** An answer with status MODIFIED carries data; INVALIDATE expects none. */
  predicate AckDirty(h: Home, st: Status, dirty: bool)
    requires h.txn.Modify? || h.txn.Drain?
  {
    dirty || (st == Modified && (h.txn.Drain? || (h.txn.itype != Invalidate && Accepts(h, st))))
  }

  /** A writeback of a MODIFIED block is stored by `scache_writeback`, which is not called while the
      miss entry modifies or drains the L1 copies. */
  predicate WritebackDirty(h: Home, st: Status, dirty: bool)
  {
    dirty || (st == Modified && h.l2 != Invalid && !h.txn.Modify? && !h.txn.Drain?)
  }

  function DataApply(d: Data, step: Step): Data
    requires Enabled(d.s, step)
  {
    var h := d.s.home;
    var s' := Apply(d.s, step);
    match step
    case StoreHit(_) => Data(s', d.dirty, true)
    case RefillL1(_, dirtied) => Data(s', d.dirty, d.written || dirtied)
    case ReceiveAck(c) => Data(s', AckDirty(h, d.s.nodes[c].ack.value, d.dirty), d.written)
    case WritebackArrives(c, i) => Data(s', WritebackDirty(h, d.s.nodes[c].wbs[i].status, d.dirty), d.written)
    case FinishDrain => Data(s', false, d.written && !d.dirty)     // a dirty victim is written to memory
    case RefillL2 => Data(s', false, d.written)
    case _ => Data(s', d.dirty, d.written)
  }

  predicate HoldsModified(p: Node)
  {
    p.l1 == Modified || p.ack == Some(Modified) || exists k :: 0 <= k < |p.wbs| && p.wbs[k].status == Modified
  }

  /** The promise: written data is in the L2 line, in an L1, or on its way to the home. */
  ghost predicate Kept(d: Data)
  {
    d.written && !d.dirty ==> exists c :: 0 <= c < |d.s.nodes| && HoldsModified(d.s.nodes[c])
  }

  /** A MODIFIED writeback, the only copy of the data, arrives while the home modifies or drains the
      L1 copies: the directory bit is cleared, the dirty flag is not set. */
  predicate Lossy(d: Data, step: Step)
    requires Enabled(d.s, step)
  {
    && step.WritebackArrives? && (d.s.home.txn.Modify? || d.s.home.txn.Drain?)
    && d.s.nodes[step.c].wbs[step.i].status == Modified
    && !d.dirty && d.s.nodes[step.c].ack != Some(Modified)
  }

  /** While the line is not dirty, written data is with the only processor of an EXCLUSIVE line, and
      no answer that was already taken has left it behind. */
  predicate DataNodeOk(d: Data, c: Cache, p: Node)
  {
    var h := d.s.home;
    && (HoldsModified(p) ==> d.written)
    && (HoldsModified(p) && !d.dirty ==>
          && h.l2 == Exclusive && c in h.dir
          && (h.txn.Modify? || h.txn.Drain? ==> c !in h.txn.acked)
          && !(p.ack == Some(Exclusive) && ActiveType(h) == Some(InterventionShd)))
  }

  ghost predicate DataInv(d: Data)
  {
    && Inv(d.s) && Kept(d)
    && (d.s.home.l2 == Invalid ==> !d.written)
    && forall c | 0 <= c < |d.s.nodes| :: DataNodeOk(d, c, d.s.nodes[c])
  }

  /** What a step that is neither stray nor lossy does for one cache: the data it holds stays there
      or is on the line afterwards. */
  ghost predicate NodeStepOk(d: Data, step: Step, c: Cache)
    requires Enabled(d.s, step) && c < |d.s.nodes|
  {
    var d' := DataApply(d, step);
    && DataNodeOk(d', c, d'.s.nodes[c])
    && (HoldsModified(d.s.nodes[c]) && !Lossy(d, step) && !step.FinishDrain? ==>
          d'.dirty || HoldsModified(d'.s.nodes[c]))
  }

  lemma LocalKeeps(d: Data, step: Step, c: Cache)
    requires DataInv(d) && Enabled(d.s, step) && !Stray(d.s, step) && c < |d.s.nodes|
    requires step.Issue? || step.RefillL1? || step.StoreHit?
    ensures NodeStepOk(d, step, c)
  {
    assert NodeOk(d.s.home, c, d.s.nodes[c]);
    assert DataNodeOk(d, c, d.s.nodes[c]);
  }

  lemma QueueKeeps(d: Data, step: Step, c: Cache)
    requires DataInv(d) && Enabled(d.s, step) && !Stray(d.s, step) && c < |d.s.nodes|
    requires step.Evict? || step.CatchWriteback? || step.SendWriteback? || step.HandleIntervention?
    ensures NodeStepOk(d, step, c)
  {
    assert NodeOk(d.s.home, c, d.s.nodes[c]);
    assert DataNodeOk(d, c, d.s.nodes[c]);
    var wbs, wbs' := d.s.nodes[c].wbs, Apply(d.s, step).nodes[c].wbs;
    if k :| 0 <= k < |wbs| && wbs[k].status == Modified {
      assert k < |wbs'| ==> wbs'[k].status == Modified;
    }
    if step.Evict? && step.c == c {
      assert wbs'[|wbs|].status == d.s.nodes[c].l1;
    }
  }

  lemma TransactionKeeps(d: Data, step: Step, c: Cache)
    requires DataInv(d) && Enabled(d.s, step) && !Stray(d.s, step) && c < |d.s.nodes|
    requires step.BeginProbe? || step.Probe? || step.Complete? || step.BeginDrain? || step.FinishDrain?
             || step.RefillL2?
    ensures NodeStepOk(d, step, c)
  {
    assert NodeOk(d.s.home, c, d.s.nodes[c]);
    assert DataNodeOk(d, c, d.s.nodes[c]);
  }

  lemma MessageKeeps(d: Data, step: Step, c: Cache)
    requires DataInv(d) && Enabled(d.s, step) && c < |d.s.nodes| && (step.SendIntervention? || step.ReceiveAck?)
    ensures NodeStepOk(d, step, c)
  {
    assert NodeOk(d.s.home, c, d.s.nodes[c]);
    assert DataNodeOk(d, c, d.s.nodes[c]);
  }

  lemma ArrivalKeeps(d: Data, step: Step, c: Cache)
    requires DataInv(d) && Enabled(d.s, step) && c < |d.s.nodes| && step.WritebackArrives?
    ensures NodeStepOk(d, step, c)
  {
    assert NodeOk(d.s.home, c, d.s.nodes[c]);
    assert DataNodeOk(d, c, d.s.nodes[c]);
    var wbs, wbs' := d.s.nodes[c].wbs, Apply(d.s, step).nodes[c].wbs;
    if k :| 0 <= k < |wbs| && wbs[k].status == Modified {
      if step.c == c && k > step.i {
        assert wbs'[k - 1].status == Modified;
      } else if step.c != c || k < step.i {
        assert wbs'[k].status == Modified;
      }
    }
  }

  lemma DataStep(d: Data, step: Step, c: Cache)
    requires DataInv(d) && Enabled(d.s, step) && !Stray(d.s, step) && c < |d.s.nodes|
    ensures NodeStepOk(d, step, c)
  {
    match step
    case BeginProbe(_) | Probe | Complete | BeginDrain | FinishDrain | RefillL2 => TransactionKeeps(d, step, c);
    case SendIntervention(_) | ReceiveAck(_) => MessageKeeps(d, step, c);
    case WritebackArrives(_, _) => ArrivalKeeps(d, step, c);
    case Evict(_) | CatchWriteback(_, _) | SendWriteback(_, _) | HandleIntervention(_) => QueueKeeps(d, step, c);
    case _ => LocalKeeps(d, step, c);
  }

  /** When the drain of a victim ends, a written block is marked dirty, so memory gets the data. */
  lemma DrainedWrites(d: Data)
    requires DataInv(d) && Enabled(d.s, FinishDrain)
    ensures d.written ==> d.dirty
  {
    forall c | 0 <= c < |d.s.nodes|
      ensures !HoldsModified(d.s.nodes[c])
    {
      assert NodeOk(d.s.home, c, d.s.nodes[c]);
    }
  }

  lemma DataStepKept(d: Data, step: Step)
    requires DataInv(d) && Enabled(d.s, step) && !Stray(d.s, step) && !Lossy(d, step)
    ensures Kept(DataApply(d, step))
  {
    var d' := DataApply(d, step);
    if step.FinishDrain? {
      DrainedWrites(d);
    } else if d'.written && !d'.dirty {
      if d.written && !d.dirty {
        var c :| 0 <= c < |d.s.nodes| && HoldsModified(d.s.nodes[c]);
        DataStep(d, step, c);
        assert HoldsModified(d'.s.nodes[c]);
      } else {
        assert step.StoreHit? || step.RefillL1?;
        assert HoldsModified(d'.s.nodes[step.c]);
      }
    }
  }

  lemma DataStepInv(d: Data, step: Step)
    requires DataInv(d) && Enabled(d.s, step) && !Stray(d.s, step) && !Lossy(d, step)
    ensures DataInv(DataApply(d, step))
  {
    var d' := DataApply(d, step);
    StepInv(d.s, step);
    DataStepKept(d, step);
    forall c | 0 <= c < |d'.s.nodes|
      ensures DataNodeOk(d', c, d'.s.nodes[c])
    {
      DataStep(d, step, c);
    }
    if d'.s.home.l2 == Invalid && !step.FinishDrain? {
      if step.StoreHit? || step.RefillL1? {
        assert NodeOk(d.s.home, step.c, d.s.nodes[step.c]);
      }
    } else if step.FinishDrain? {
      DrainedWrites(d);
    }
  }

  /** Exactly the lossy arrivals break the promise: the data of a store is then nowhere. */
  lemma LossyIff(d: Data, step: Step)
    requires DataInv(d) && Enabled(d.s, step) && !Stray(d.s, step)
    ensures Lossy(d, step) <==> !Kept(DataApply(d, step))
  {
    if Lossy(d, step) {
      var d', c, i := DataApply(d, step), step.c, step.i;
      assert NodeOk(d.s.home, c, d.s.nodes[c]);
      assert DataNodeOk(d, c, d.s.nodes[c]);
      assert HoldsModified(d.s.nodes[c]);
      forall a | 0 <= a < |d'.s.nodes|
        ensures !HoldsModified(d'.s.nodes[a])
      {
        assert DataNodeOk(d, a, d.s.nodes[a]);
      }
    } else {
      DataStepKept(d, step);
    }
  }

  // ---------------------------------------------------------------- runs

  ghost predicate DataRun(ds: seq<Data>, steps: seq<Step>)
  {
    && |ds| == |steps| + 1
    && Init(ds[0].s) && !ds[0].dirty && !ds[0].written
    && forall i | 0 <= i < |steps| :: Enabled(ds[i].s, steps[i]) && ds[i + 1] == DataApply(ds[i], steps[i])
  }

  lemma {:induction false} DataRunInv(ds: seq<Data>, steps: seq<Step>, i: nat)
    requires DataRun(ds, steps) && i < |ds|
    requires forall k | 0 <= k < |steps| ::
               Enabled(ds[k].s, steps[k]) && !Stray(ds[k].s, steps[k]) && !Lossy(ds[k], steps[k])
    ensures DataInv(ds[i])
  {
    if i == 0 {
      InitInv(ds[0].s);
    } else {
      DataRunInv(ds, steps, i - 1);
      assert Enabled(ds[i - 1].s, steps[i - 1]) && !Stray(ds[i - 1].s, steps[i - 1]);
      DataStepInv(ds[i - 1], steps[i - 1]);
    }
  }

  /** No store is lost in a run without stray and lossy steps: the data is always somewhere, and it
      is on the dirty line whenever the L2 lets the block go. */
  lemma NoLostWrites(ds: seq<Data>, steps: seq<Step>)
    requires DataRun(ds, steps)
    requires forall k | 0 <= k < |steps| ::
               Enabled(ds[k].s, steps[k]) && !Stray(ds[k].s, steps[k]) && !Lossy(ds[k], steps[k])
    ensures forall i | 0 <= i < |ds| :: Kept(ds[i])
    ensures forall i | 0 <= i < |steps| && steps[i] == FinishDrain && ds[i].written :: ds[i].dirty
  {
    forall i | 0 <= i < |ds|
      ensures Kept(ds[i])
    {
      DataRunInv(ds, steps, i);
    }
    forall i | 0 <= i < |steps| && steps[i] == FinishDrain && ds[i].written
      ensures ds[i].dirty
    {
      DataRunInv(ds, steps, i);
      DrainedWrites(ds[i]);
    }
  }
}
