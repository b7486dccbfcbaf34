/** Where the coherence promise ends: runs of the protocol that take each kind of stray step, end
    with two writers, or stop at an assertion.  */
module CoherenceLimits {
  import opened Coherence
  import opened DirtyData

  ghost predicate Reachable(s: State)
  {
    exists states, steps :: Run(states, steps) && states[|steps|] == s
  }

  ghost predicate CleanReachable(s: State)
  {
    exists states, steps :: Run(states, steps) && Clean(states, steps) && states[|steps|] == s
  }

  lemma CleanReachableInit(s: State)
    requires Init(s)
    ensures CleanReachable(s)
  {
    var steps: seq<Step> := [];
    assert Run([s], steps) && Clean([s], steps) && [s][|steps|] == s;
  }

  lemma CleanReachableIsReachable(s: State)
    requires CleanReachable(s)
    ensures Reachable(s)
  {
    var states, steps :| Run(states, steps) && Clean(states, steps) && states[|steps|] == s;
    assert Run(states, steps) && states[|steps|] == s;
  }

  /** One clean step between two given states. */
  lemma Go(s: State, step: Step, s': State)
    requires CleanReachable(s) && Enabled(s, step) && !Stray(s, step) && s' == Apply(s, step)
    ensures CleanReachable(s')
  {
    var states, steps :| Run(states, steps) && Clean(states, steps) && states[|steps|] == s;
    var states', steps' := states + [s'], steps + [step];
    assert Run(states', steps');
    assert Clean(states', steps');
    assert states'[|steps'|] == s';
  }

  lemma GoAny(s: State, step: Step, s': State)
    requires Reachable(s) && Enabled(s, step) && s' == Apply(s, step)
    ensures Reachable(s')
  {
    var states, steps :| Run(states, steps) && states[|steps|] == s;
    assert Run(states + [s'], steps + [step]);
    assert (states + [s'])[|steps + [step]|] == s';
  }

  /** Set identities the runs below need. */
  lemma SmallSets()
    ensures {1 as Cache} - {1} == {}
    ensures {} + {0 as Cache} == {0} && {} + {1 as Cache} == {1} && {} + {3 as Cache} == {3}
    ensures {1 as Cache} + {0} == {0, 1}
  {
  }

  lemma SmallOthers(l2: Status, dir: set<Cache>, txn: Txn)
    requires dir <= {0, 1} && (l2 == Exclusive || l2 == Shared)
    ensures Others(Home(0, 2, l2, dir, txn), 0) == dir - {0} && Others(Home(0, 2, l2, dir, txn), 1) == dir - {1}
    ensures Others(Home(0, 2, l2, dir, txn), 3) == dir - {1}
    ensures dir == {0, 1} ==> dir - {0} == {1}
    ensures dir == {1} ==> dir - {0} == {1} && dir - {1} == {}
    ensures dir == {} ==> dir - {0} == {}
  {
  }

  lemma SingleWriteback(w: Writeback)
    ensures RemoveAt([w], 0) == [] && [] + [w] == [w]
  {
  }

  const IDLE := Node(Invalid, NoMiss, [], None, None)

  /** Two processors, the first one the home.  The second one reads the block, upgrades its SHARED
      copy in the ordinary way, and the first one then becomes a second owner. */
  lemma UpgradeReachesTwoWriters()
    ensures exists s :: Reachable(s) && !SingleWriter(s)
  {
    ReadShared();
    UpgradeGranted();
    StrayRefill();
    SecondOwner();
  }

  function Two(l2: Status, dir: set<Cache>, txn: Txn, a: Node, b: Node): State
  {
    State(Home(0, 2, l2, dir, txn), [a, b, IDLE, IDLE])
  }

  const READER := Node(Shared, NoMiss, [], None, None)

  const SERVED := Two(Shared, {1}, Idle, IDLE, READER)

  const READING := Two(Invalid, {}, Probing(1, ReadShd), IDLE, IDLE.(miss := Issued(ReadShd)))

  lemma ReadIssued()
    ensures CleanReachable(READING)
  {
    var s0 := Two(Invalid, {}, Idle, IDLE, IDLE);
    var s1 := Two(Invalid, {}, Idle, IDLE, IDLE.(miss := Issued(ReadShd)));
    CleanReachableInit(s0);
    assert CleanReachable(s1) by { Go(s0, Issue(1, ReadShd), s1); }
    assert CleanReachable(READING) by { Go(s1, BeginProbe(1), READING); }
  }

  /** A read miss that is served from memory, up to the refill of the L1. */
  lemma ReadShared()
    ensures CleanReachable(SERVED)
  {
    var s3 := Two(Invalid, {}, Fetch(1, ReadShd), IDLE, IDLE.(miss := Issued(ReadShd)));
    var s4 := Two(Shared, {1}, Idle, IDLE, IDLE.(miss := Granted(false)));
    ReadIssued();
    assert CleanReachable(s3) by { SmallSets(); Go(READING, Probe, s3); }
    assert CleanReachable(s4) by { SmallSets(); Go(s3, RefillL2, s4); }
    assert CleanReachable(SERVED) by { Go(s4, RefillL1(1, false), SERVED); }
  }

  const UPGRADING := Two(Exclusive, {1}, Idle, IDLE, READER.(miss := Granted(true)))

  lemma UpgradeGranted()
    requires CleanReachable(SERVED)
    ensures CleanReachable(UPGRADING)
  {
    var s1 := Two(Shared, {1}, Idle, IDLE, READER.(miss := Issued(Upgrade)));
    var s2 := Two(Shared, {1}, Probing(1, Upgrade), IDLE, READER.(miss := Issued(Upgrade)));
    var s3 := Two(Shared, {1}, Modify(1, Upgrade, Invalidate, {}, {}, {}), IDLE,
                  READER.(miss := Issued(Upgrade)));
    assert CleanReachable(s1) by { Go(SERVED, Issue(1, Upgrade), s1); }
    assert CleanReachable(s2) by { Go(s1, BeginProbe(1), s2); }
    assert CleanReachable(s3) by { SmallSets(); SmallOthers(s2.home.l2, s2.home.dir, s2.home.txn); Go(s2, Probe, s3); }
    assert CleanReachable(UPGRADING) by { SmallSets(); Go(s3, Complete, UPGRADING); }
  }

  const OWNER := Node(Modified, NoMiss, [], None, None)

  const LOST := Two(Exclusive, {}, Idle, IDLE, OWNER)

  lemma StrayRefill()
    requires CleanReachable(UPGRADING)
    ensures Reachable(LOST)
  {
    var s1 := Two(Exclusive, {1}, Idle, IDLE, OWNER.(wbs := [Writeback(Shared, false)]));
    CleanReachableIsReachable(UPGRADING);
    assert STRAY.nodes[1].wbs == s1.nodes[1].wbs[0 := Writeback(Shared, true)];
    assert Stray(UPGRADING, RefillL1(1, true));
    assert Reachable(s1) by { SingleWriteback(Writeback(Shared, false)); GoAny(UPGRADING, RefillL1(1, true), s1); }
    assert Reachable(STRAY) by { GoAny(s1, SendWriteback(1, 0), STRAY); }
    StrayArrives();
  }

  const STRAY := Two(Exclusive, {1}, Idle, IDLE, OWNER.(wbs := [Writeback(Shared, true)]))

  lemma StrayArrives()
    requires Reachable(STRAY)
    ensures Reachable(LOST)
  {
    assert Reachable(LOST) by {
      SmallSets();
      SingleWriteback(Writeback(Shared, true));
      GoAny(STRAY, WritebackArrives(1, 0), LOST);
    }
  }

  const SECOND := Two(Exclusive, {}, Modify(0, ReadEx, InterventionExc, {}, {}, {}),
                      IDLE.(miss := Issued(ReadEx)), OWNER)

  lemma SecondAsks()
    requires Reachable(LOST)
    ensures Reachable(SECOND)
  {
    var s1 := Two(Exclusive, {}, Idle, IDLE.(miss := Issued(ReadEx)), OWNER);
    var s2 := Two(Exclusive, {}, Probing(0, ReadEx), IDLE.(miss := Issued(ReadEx)), OWNER);
    assert Reachable(s1) by { GoAny(LOST, Issue(0, ReadEx), s1); }
    assert Reachable(s2) by { GoAny(s1, BeginProbe(0), s2); }
    SmallOthers(s2.home.l2, s2.home.dir, s2.home.txn);
    GoAny(s2, Probe, SECOND);
  }

  lemma SecondOwner()
    requires Reachable(LOST)
    ensures exists s :: Reachable(s) && !SingleWriter(s)
  {
    var s4 := Two(Exclusive, {0}, Idle, IDLE.(miss := Granted(true)), OWNER);
    var s5 := Two(Exclusive, {0}, Idle, OWNER, OWNER);
    SecondAsks();
    assert Reachable(s4) by { SmallSets(); GoAny(SECOND, Complete, s4); }
    assert Reachable(s5) by { GoAny(s4, RefillL1(0, true), s5); }
    assert s5.nodes[0].l1 == Modified && s5.nodes[1].l1 == Modified;
  }

  /** Every kind of stray step is enabled at the end of some clean run, so by `StrayBreaks` each of
      them breaks a promise in some run: the refill and the replacement of an upgraded copy; */
  lemma StrayRefillOccurs()
    ensures exists s :: CleanReachable(s) && Enabled(s, RefillL1(1, true)) && Stray(s, RefillL1(1, true))
                        && Enabled(s, Evict(1)) && Stray(s, Evict(1))
  {
    ReadShared();
    UpgradeGranted();
    assert Stray(UPGRADING, RefillL1(1, true)) && Stray(UPGRADING, Evict(1));
  }

  const SHARING := Node(Invalid, Issued(Upgrade), [Writeback(Shared, false)], None, None)

  /** the grant of an upgrade whose processor has replaced its copy since; */
  lemma StrayGrantOccurs()
    ensures exists s :: CleanReachable(s) && Enabled(s, Complete) && Stray(s, Complete)
                        && s.nodes[s.home.txn.r].wbs != []
  {
    ReadShared();
    var s1 := Two(Shared, {1}, Idle, IDLE, READER.(miss := Issued(Upgrade)));
    var s2 := Two(Shared, {1}, Idle, IDLE, SHARING);
    var s3 := Two(Shared, {1}, Probing(1, Upgrade), IDLE, SHARING);
    var s4 := Two(Shared, {1}, Modify(1, Upgrade, Invalidate, {}, {}, {}), IDLE, SHARING);
    assert CleanReachable(s1) by { Go(SERVED, Issue(1, Upgrade), s1); }
    assert CleanReachable(s2) by { SingleWriteback(Writeback(Shared, false)); Go(s1, Evict(1), s2); }
    assert CleanReachable(s3) by { Go(s2, BeginProbe(1), s3); }
    assert CleanReachable(s4) by { SmallSets(); SmallOthers(Shared, {1}, s3.home.txn); Go(s3, Probe, s4); }
    assert Stray(s4, Complete);
  }

  function Fetching(txn: Txn): State
  {
    State(Home(0, 2, Exclusive, {1}, txn), [IDLE, OWNER, IDLE, IDLE.(miss := Issued(ReadShd))])
  }

  /** the instruction fetch of a block that the data cache of the same processor owns. */
  lemma StrayFetchOccurs()
    ensures exists s :: CleanReachable(s) && Enabled(s, Complete) && Stray(s, Complete) && |s.nodes| == 4
                        && s.nodes[1].l1 == Modified && s.home.txn.r == 3 && Twin(s.home, 3) == 1
  {
    OwnerGranted();
    var s1 := Two(Exclusive, {1}, Idle, IDLE, OWNER);
    var s2, s3 := Fetching(Idle), Fetching(Probing(3, ReadShd));
    var s4 := Fetching(Modify(3, ReadShd, InterventionShd, {}, {}, {}));
    assert CleanReachable(s1) by { Go(GRANTED, RefillL1(1, true), s1); }
    assert CleanReachable(s2) by { Go(s1, Issue(3, ReadShd), s2); }
    assert CleanReachable(s3) by { Go(s2, BeginProbe(3), s3); }
    assert CleanReachable(s4) by { SmallSets(); SmallOthers(Exclusive, {1}, s3.home.txn); Go(s3, Probe, s4); }
    assert Stray(s4, Complete);
  }

  /** The assertion on an answer fails even in a clean run.  An INTERVENTION_SHD is answered from
      the writeback queue and leaves the entry there; an INVALIDATE then meets the same entry, and
      its EXCLUSIVE status answers for a SHARED line.  */
  lemma AckAssertionReachable()
    ensures exists s :: CleanReachable(s) && |s.nodes| == 4 && s.nodes[1].ack.Some?
                        && (s.home.txn.Modify? || s.home.txn.Drain?)
                        && !AckAsserts(s.home, s.nodes[1].ack.value)
  {
    OwnerEvicts();
    HomeReads();
    CatchInQueue();
    AnswerFromQueue();
    HomeInvalidates();
    InvalidateMeetsKept();
  }

  const EVICTED := Node(Invalid, NoMiss, [Writeback(Exclusive, false)], None, None)

  const QUEUED := Two(Exclusive, {1}, Idle, IDLE, EVICTED)

  const GRANTED := Two(Exclusive, {1}, Idle, IDLE, IDLE.(miss := Granted(true)))

  lemma OwnerGranted()
    ensures CleanReachable(GRANTED)
  {
    var s0 := Two(Invalid, {}, Idle, IDLE, IDLE);
    var s1 := Two(Invalid, {}, Idle, IDLE, IDLE.(miss := Issued(ReadEx)));
    var s2 := Two(Invalid, {}, Probing(1, ReadEx), IDLE, IDLE.(miss := Issued(ReadEx)));
    var s3 := Two(Invalid, {}, Fetch(1, ReadEx), IDLE, IDLE.(miss := Issued(ReadEx)));
    CleanReachableInit(s0);
    assert CleanReachable(s1) by { Go(s0, Issue(1, ReadEx), s1); }
    assert CleanReachable(s2) by { Go(s1, BeginProbe(1), s2); }
    assert CleanReachable(s3) by { SmallSets(); Go(s2, Probe, s3); }
    assert CleanReachable(GRANTED) by { Go(s3, RefillL2, GRANTED); }
  }

  /** Processor 1 becomes owner and replaces the block. */
  lemma OwnerEvicts()
    ensures CleanReachable(QUEUED)
  {
    OwnerGranted();
    var s5 := Two(Exclusive, {1}, Idle, IDLE, IDLE.(l1 := Exclusive));
    assert CleanReachable(s5) by { Go(GRANTED, RefillL1(1, false), s5); }
    assert CleanReachable(QUEUED) by { SingleWriteback(Writeback(Exclusive, false)); Go(s5, Evict(1), QUEUED); }
  }

  const ASKING := Two(Exclusive, {1}, Modify(0, ReadShd, InterventionShd, {1}, {}, {}),
                      IDLE.(miss := Issued(ReadShd)), EVICTED)

  lemma HomeReads()
    requires CleanReachable(QUEUED)
    ensures CleanReachable(ASKING)
  {
    var s1 := Two(Exclusive, {1}, Idle, IDLE.(miss := Issued(ReadShd)), EVICTED);
    var s2 := Two(Exclusive, {1}, Probing(0, ReadShd), IDLE.(miss := Issued(ReadShd)), EVICTED);
    assert CleanReachable(s1) by { Go(QUEUED, Issue(0, ReadShd), s1); }
    assert CleanReachable(s2) by { Go(s1, BeginProbe(0), s2); }
    assert CleanReachable(ASKING) by {
      SmallSets();
      SmallOthers(s2.home.l2, s2.home.dir, s2.home.txn);
      Go(s2, Probe, ASKING);
    }
  }

  /** The intervention finds the block in the writeback queue, and keeps it there. */
  const CAUGHT := Two(Exclusive, {1}, Modify(0, ReadShd, InterventionShd, {1}, {1}, {}),
                      IDLE.(miss := Issued(ReadShd)), EVICTED.(ack := Some(Exclusive)))

  const KEPT := Two(Shared, {0, 1}, Idle, READER, EVICTED)

  lemma CatchInQueue()
    requires CleanReachable(ASKING)
    ensures CleanReachable(CAUGHT)
  {
    var s1 := Two(Exclusive, {1}, Modify(0, ReadShd, InterventionShd, {1}, {1}, {}),
                  IDLE.(miss := Issued(ReadShd)), EVICTED.(inv := Some(InterventionShd)));
    assert CleanReachable(s1) by { SmallSets(); Go(ASKING, SendIntervention(1), s1); }
    assert CleanReachable(CAUGHT) by {
      SmallSets();
      SingleWriteback(Writeback(Exclusive, false));
      Go(s1, CatchWriteback(1, 0), CAUGHT);
    }
  }

  const SHARED_OUT := Two(Shared, {0, 1}, Idle, IDLE.(miss := Granted(false)), EVICTED)

  lemma AnswerAccepted()
    requires CleanReachable(CAUGHT)
    ensures CleanReachable(SHARED_OUT)
  {
    var s3 := Two(Exclusive, {1}, Modify(0, ReadShd, InterventionShd, {1}, {1}, {1}),
                  IDLE.(miss := Issued(ReadShd)), EVICTED);
    assert CleanReachable(s3) by { SmallSets(); Go(CAUGHT, ReceiveAck(1), s3); }
    assert CleanReachable(SHARED_OUT) by { SmallSets(); Go(s3, Complete, SHARED_OUT); }
  }

  lemma AnswerFromQueue()
    requires CleanReachable(CAUGHT)
    ensures CleanReachable(KEPT)
  {
    AnswerAccepted();
    Go(SHARED_OUT, RefillL1(0, false), KEPT);
  }

  /** The home invalidates the other copies for an upgrade. */
  const INVALIDATING := Two(Shared, {0, 1}, Modify(0, Upgrade, Invalidate, {1}, {}, {}),
                            READER.(miss := Issued(Upgrade)), EVICTED)

  lemma HomeInvalidates()
    requires CleanReachable(KEPT)
    ensures CleanReachable(INVALIDATING)
  {
    var a := READER.(miss := Issued(Upgrade));
    var s1 := Two(Shared, {0, 1}, Idle, a, EVICTED);
    var s2 := Two(Shared, {0, 1}, Probing(0, Upgrade), a, EVICTED);
    assert CleanReachable(s1) by { Go(KEPT, Issue(0, Upgrade), s1); }
    assert CleanReachable(s2) by { Go(s1, BeginProbe(0), s2); }
    assert CleanReachable(INVALIDATING) by {
      SmallSets();
      SmallOthers(s2.home.l2, s2.home.dir, s2.home.txn);
      Go(s2, Probe, INVALIDATING);
    }
  }

  lemma InvalidateMeetsKept()
    requires CleanReachable(INVALIDATING)
    ensures exists s :: CleanReachable(s) && |s.nodes| == 4 && s.nodes[1].ack.Some?
                        && (s.home.txn.Modify? || s.home.txn.Drain?)
                        && !AckAsserts(s.home, s.nodes[1].ack.value)
  {
    var a := READER.(miss := Issued(Upgrade));
    var s4 := Two(Shared, {0, 1}, Modify(0, Upgrade, Invalidate, {1}, {1}, {}), a,
                  EVICTED.(inv := Some(Invalidate)));
    var s5 := Two(Shared, {0, 1}, Modify(0, Upgrade, Invalidate, {1}, {1}, {}), a,
                  IDLE.(ack := Some(Exclusive)));
    assert CleanReachable(s4) by { SmallSets(); Go(INVALIDATING, SendIntervention(1), s4); }
    assert CleanReachable(s5) by {
      SmallSets();
      SingleWriteback(Writeback(Exclusive, false));
      Go(s4, CatchWriteback(1, 0), s5);
    }
    assert !AckAsserts(s5.home, s5.nodes[1].ack.value);
  }

  ghost predicate DataReachable(d: Data)
  {
    exists ds, steps :: DataRun(ds, steps) && ds[|steps|] == d
  }

  lemma GoData(d: Data, step: Step, d': Data)
    requires DataReachable(d) && Enabled(d.s, step) && d' == DataApply(d, step)
    ensures DataReachable(d')
  {
    var ds, steps :| DataRun(ds, steps) && ds[|steps|] == d;
    assert DataRun(ds + [d'], steps + [step]);
    assert (ds + [d'])[|steps + [step]|] == d';
  }

  function Fetched(txn: Txn): Data
  {
    Data(Two(Invalid, {}, txn, IDLE, IDLE.(miss := Issued(ReadEx))), false, false)
  }

  lemma OwnerAsks()
    ensures DataReachable(Fetched(Probing(1, ReadEx)))
  {
    var d0 := Data(Two(Invalid, {}, Idle, IDLE, IDLE), false, false);
    var steps: seq<Step> := [];
    assert DataRun([d0], steps) && [d0][|steps|] == d0;
    assert DataReachable(Fetched(Idle)) by { GoData(d0, Issue(1, ReadEx), Fetched(Idle)); }
    GoData(Fetched(Idle), BeginProbe(1), Fetched(Probing(1, ReadEx)));
  }

  lemma OwnerFetches()
    ensures DataReachable(Data(GRANTED, false, false))
  {
    var d3 := Fetched(Fetch(1, ReadEx));
    OwnerAsks();
    assert DataReachable(d3) by { GoData(Fetched(Probing(1, ReadEx)), Probe, d3); }
    SmallSets();
    GoData(d3, RefillL2, Data(GRANTED, false, false));
  }

  lemma OwnerStores()
    ensures DataReachable(Data(Two(Exclusive, {1}, Idle, IDLE, OWNER), false, true))
  {
    OwnerFetches();
    GoData(Data(GRANTED, false, false), RefillL1(1, true), Data(Two(Exclusive, {1}, Idle, IDLE, OWNER), false, true));
  }

  function Replaced(txn: Txn, sent: bool): Data
  {
    Data(Two(Exclusive, {1}, txn, IDLE, IDLE.(wbs := [Writeback(Modified, sent)])), false, true)
  }

  lemma OwnerWritesBack()
    ensures DataReachable(Replaced(Idle, true))
  {
    OwnerStores();
    var d1 := Data(Two(Exclusive, {1}, Idle, IDLE, OWNER), false, true);
    var d2, d3 := Replaced(Idle, false), Replaced(Idle, true);
    assert DataReachable(d2) by { SingleWriteback(Writeback(Modified, false)); GoData(d1, Evict(1), d2); }
    assert d3.s.nodes[1].wbs == d2.s.nodes[1].wbs[0 := Writeback(Modified, true)];
    GoData(d2, SendWriteback(1, 0), d3);
  }

  const LOSING := Replaced(Drain({1}, {}, {}), true)

  lemma DrainBegins()
    ensures DataReachable(LOSING)
  {
    OwnerWritesBack();
    GoData(Replaced(Idle, true), BeginDrain, LOSING);
  }

  /** A store can be lost: its writeback reaches the home after the home has begun to replace the
      line. */
  lemma LostWriteOccurs()
    ensures exists d :: DataReachable(d) && !Kept(d)
  {
    DrainBegins();
    var d := Data(Two(Exclusive, {1}, Drain({}, {}, {}), IDLE, IDLE), false, true);
    assert DataReachable(d) by {
      SmallSets();
      SingleWriteback(Writeback(Modified, true));
      GoData(LOSING, WritebackArrives(1, 0), d);
    }
    assert !Kept(d);
  }
}
