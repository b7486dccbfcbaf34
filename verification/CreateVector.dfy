/** Which instructions there are, and which of them will produce which register: the decode queue and
    the reorder queue in program order, the levels of wrong paths, and the create vector of each level
    (`decode.c`), through which an instruction finds the creators of its operands. */
module CreateVector {
  import opened ReadyQueue

  /** `CV_link`: result `o` of instruction `rs`. */
  datatype CvLink = CvLink(rs: nat, o: nat)

  /** For each register the result that will be its value, if it is still to come. */
  type Vector = seq<Option<CvLink>>

  // ---------------------------------------------------------------- program order

  /** The instructions in use are those of `q`, in program order; the first `m` are mapped. */
  ghost predicate Ordered(q: seq<nat>, m: nat, st: seq<Station>, nextSeq: nat)
  {
    && (forall i | 0 <= i < |q| :: q[i] < |st| && st[q[i]].used && st[q[i]].seqNo < nextSeq)
    && (forall i | 0 <= i < |q| :: st[q[i]].mapped <==> i < m)
    && (forall i, j | 0 <= i < j < |q| :: st[q[i]].seqNo < st[q[j]].seqNo)
    && (forall r | 0 <= r < |st| && st[r].used :: r in q)
  }

  /** Those in the reorder queue and then those in the decode queue. */
  ghost predicate InOrder(roq: seq<nat>, decoded: seq<nat>, st: seq<Station>, nextSeq: nat)
  {
    Ordered(roq + decoded, |roq|, st, nextSeq)
  }

  /** `entries[j]` is the instruction after which wrong path `j` was entered. */
  ghost predicate Levels(st: seq<Station>, nextSeq: nat, entries: seq<int>)
  {
    && (forall j | 0 <= j < |entries| :: entries[j] < nextSeq)
    && (forall r | 0 <= r < |st| && st[r].used :: st[r].specLevel <= |entries|)
    && (forall r, j | 0 <= r < |st| && st[r].used && 0 <= j < |entries| ::
          entries[j] < st[r].seqNo <==> j < st[r].specLevel)
  }

  /** A new instruction is the youngest, on the present path. */
  lemma EnteredInOrder(roq: seq<nat>, decoded: seq<nat>, st: seq<Station>, nextSeq: nat, entries: seq<int>,
        r: nat, s: Station)
    requires InOrder(roq, decoded, st, nextSeq) && Levels(st, nextSeq, entries) && r < |st| && !st[r].used
    requires s.used && !s.mapped && s.specLevel == |entries| && nextSeq <= s.seqNo
    ensures InOrder(roq, decoded + [r], st[r := s], s.seqNo + 1) && Levels(st[r := s], s.seqNo + 1, entries)
    ensures forall q | 0 <= q < |st| && st[q].used :: st[q].seqNo < s.seqNo
  {
    var q, q' := roq + decoded, roq + (decoded + [r]);
    assert q' == q + [r];
    forall x | 0 <= x < |st| && st[r := s][x].used
      ensures x in q'
    {
      if x == r { assert q'[|q|] == r; } else { assert x in q; }
    }
  }

  /** What the order says of each of the two queues. */
  lemma Places(roq: seq<nat>, decoded: seq<nat>, st: seq<Station>, nextSeq: nat)
    requires InOrder(roq, decoded, st, nextSeq)
    ensures forall i | 0 <= i < |roq| :: roq[i] < |st| && st[roq[i]].used && st[roq[i]].mapped
    ensures forall i | 0 <= i < |decoded| :: decoded[i] < |st| && st[decoded[i]].used && !st[decoded[i]].mapped
    ensures forall i, j | 0 <= i < j < |roq| :: st[roq[i]].seqNo < st[roq[j]].seqNo
    ensures forall i, j | 0 <= i < |roq| && 0 <= j < |decoded| :: st[roq[i]].seqNo < st[decoded[j]].seqNo
  {
    var q := roq + decoded;
    assert forall i | 0 <= i < |roq| :: roq[i] == q[i];
    assert forall i | 0 <= i < |decoded| :: decoded[i] == q[|roq| + i];
  }

  /** The oldest decoded instruction is mapped. */
  lemma MappedInOrder(roq: seq<nat>, decoded: seq<nat>, st: seq<Station>, nextSeq: nat, s: Station)
    requires InOrder(roq, decoded, st, nextSeq) && decoded != []
    requires decoded[0] < |st| && s.used && s.mapped && s.seqNo == st[decoded[0]].seqNo
    ensures InOrder(roq + [decoded[0]], decoded[1..], st[decoded[0] := s], nextSeq)
  {
    var q := roq + decoded;
    assert (roq + [decoded[0]]) + decoded[1..] == q && q[|roq|] == decoded[0];
  }

  function Skip(i: nat, k: nat): nat
  {
    if i < k then i else i + 1
  }

  /** `q'` is `q` without place `k`. */
  ghost predicate Skips(q: seq<nat>, k: nat, q': seq<nat>)
  {
    |q| == |q'| + 1 && forall i | 0 <= i < |q'| :: q'[i] == q[Skip(i, k)]
  }

  lemma OthersLeft(q: seq<nat>, m: nat, st: seq<Station>, nextSeq: nat, k: nat, q': seq<nat>)
    requires Ordered(q, m, st, nextSeq) && k < |q| && Skips(q, k, q')
    ensures forall i | 0 <= i < |q'| :: q'[i] < |st| && q'[i] != q[k]
    ensures forall i, j | 0 <= i < j < |q'| :: st[q'[i]].seqNo < st[q'[j]].seqNo
    ensures forall r | 0 <= r < |st| && st[r].used && r != q[k] :: r in q'
  {
    forall r | 0 <= r < |st| && st[r].used && r != q[k]
      ensures r in q'
    {
      var i :| 0 <= i < |q| && q[i] == r;
      assert q'[if i < k then i else i - 1] == r;
    }
  }

  /** An instruction goes. */
  lemma GoneOrdered(q: seq<nat>, m: nat, st: seq<Station>, nextSeq: nat, k: nat, q': seq<nat>, s: Station)
    requires Ordered(q, m, st, nextSeq) && k < |q| && Skips(q, k, q') && !s.used
    ensures q[k] < |st|
    ensures Ordered(q', if k < m then m - 1 else m, st[q[k] := s], nextSeq)
  {
    OthersLeft(q, m, st, nextSeq, k, q');
  }

  /** The youngest of the decode queue goes. */
  lemma DecodedGone(roq: seq<nat>, decoded: seq<nat>, st: seq<Station>, nextSeq: nat, s: Station)
    requires InOrder(roq, decoded, st, nextSeq) && decoded != [] && !s.used
    ensures var n := |decoded| - 1;
            decoded[n] < |st| && InOrder(roq, decoded[..n], st[decoded[n] := s], nextSeq)
  {
    var q, k := roq + decoded, |roq| + |decoded| - 1;
    GoneOrdered(q, |roq|, st, nextSeq, k, roq + decoded[..|decoded| - 1], s);
  }

  /** The youngest of the reorder queue goes. */
  lemma MappedGone(roq: seq<nat>, decoded: seq<nat>, st: seq<Station>, nextSeq: nat, s: Station)
    requires InOrder(roq, decoded, st, nextSeq) && roq != [] && !s.used
    ensures var n := |roq| - 1;
            roq[n] < |st| && InOrder(roq[..n], decoded, st[roq[n] := s], nextSeq)
  {
    var q, k := roq + decoded, |roq| - 1;
    GoneOrdered(q, |roq|, st, nextSeq, k, roq[..k] + decoded, s);
  }

  /** The oldest of the reorder queue goes. */
  lemma OldestGone(roq: seq<nat>, decoded: seq<nat>, st: seq<Station>, nextSeq: nat, s: Station)
    requires InOrder(roq, decoded, st, nextSeq) && roq != [] && !s.used
    ensures roq[0] < |st| && InOrder(roq[1..], decoded, st[roq[0] := s], nextSeq)
  {
    GoneOrdered(roq + decoded, |roq|, st, nextSeq, 0, roq[1..] + decoded, s);
  }

  // ---------------------------------------------------------------- creators

  /** The entry names a result that is still to come, of an instruction of this level or an outer one,
      under its own register; `but` may be an instruction whose results are just being passed on. */
  predicate LinkOk(cv: CvLink, level: nat, name: nat, st: seq<Station>, but: Option<nat>)
  {
    && cv.rs < |st| && st[cv.rs].used && (Done(st[cv.rs]) ==> but == Some(cv.rs)) && st[cv.rs].specLevel <= level
    && cv.o < RESULTS && |st[cv.rs].onames| == RESULTS && st[cv.rs].onames[cv.o] == Some(name)
  }

  /** An entry that is not of the level of its instruction was copied from the level below. */
  ghost predicate VectorOk(create: seq<Vector>, regs: nat, st: seq<Station>, but: Option<nat>)
  {
    && (forall l | 0 <= l < |create| :: |create[l]| == regs)
    && (forall l, n | 0 <= l < |create| && 0 <= n < regs && create[l][n].Some? ::
          LinkOk(create[l][n].value, l, n, st, but))
    && (forall l, n | 0 < l < |create| && 0 <= n < regs && create[l][n].Some? ::
          st[create[l][n].value.rs].specLevel == l || create[l - 1][n] == create[l][n])
  }

  /** Results go to registers. */
  ghost predicate Named(st: seq<Station>, regs: nat)
  {
    forall r | 0 <= r < |st| && st[r].used ::
      |st[r].onames| == RESULTS && forall o | 0 <= o < RESULTS && st[r].onames[o].Some? :: st[r].onames[o].value < regs
  }

  /** An entry stands in all the levels from that of its instruction on. */
  lemma {:induction false} Inherited(create: seq<Vector>, regs: nat, st: seq<Station>, but: Option<nat>,
        l: nat, n: nat, a: nat)
    requires VectorOk(create, regs, st, but) && l < |create| && n < regs && create[l][n].Some?
    requires st[create[l][n].value.rs].specLevel <= a <= l
    ensures create[a][n] == create[l][n]
    decreases l
  {
    if a < l {
      assert LinkOk(create[l][n].value, l, n, st, but);
      assert create[l - 1][n] == create[l][n];
      Inherited(create, regs, st, but, l - 1, n, a);
    }
  }

  predicate Names(e: Option<CvLink>, r: nat)
  {
    e.Some? && e.value.rs == r
  }

  /** The vectors without the entries that name result `o` of instruction `r`. */
  ghost predicate Forgotten(create: seq<Vector>, create': seq<Vector>, r: nat, o: nat)
  {
    && |create'| == |create|
    && (forall l | 0 <= l < |create| :: |create'[l]| == |create[l]|)
    && forall l, n | 0 <= l < |create| && 0 <= n < |create[l]| ::
         create'[l][n] == if create[l][n] == Some(CvLink(r, o)) then None else create[l][n]
  }

  /** `update_create_vector` clears one register from the level of the instruction on, and stops at the
      first entry that is another one: that clears all entries for the result. */
  lemma ClearedForgotten(create: seq<Vector>, create': seq<Vector>, regs: nat, st: seq<Station>, but: Option<nat>,
        r: nat, o: nat, name: nat, stop: nat)
    requires VectorOk(create, regs, st, but) && r < |st| && o < RESULTS && name < regs
    requires |st[r].onames| == RESULTS && st[r].onames[o] == Some(name) && |create'| == |create|
    requires st[r].specLevel <= stop <= |create|
    requires stop < |create| ==> create[stop][name] != Some(CvLink(r, o))
    requires forall l | st[r].specLevel <= l < stop :: create[l][name] == Some(CvLink(r, o))
    requires forall l | 0 <= l < |create| ::
               create'[l] == if st[r].specLevel <= l < stop then create[l][name := None] else create[l]
    ensures Forgotten(create, create', r, o)
  {
    forall l, n | 0 <= l < |create| && 0 <= n < |create[l]|
      ensures create'[l][n] == if create[l][n] == Some(CvLink(r, o)) then None else create[l][n]
    {
      if create[l][n] == Some(CvLink(r, o)) {
        assert LinkOk(create[l][n].value, l, n, st, but);
        if stop <= l { Inherited(create, regs, st, but, l, n, stop); }
      }
    }
  }

  lemma ForgottenOk(create: seq<Vector>, create': seq<Vector>, regs: nat, st: seq<Station>, but: Option<nat>,
        r: nat, o: nat)
    requires VectorOk(create, regs, st, but) && Forgotten(create, create', r, o)
    ensures VectorOk(create', regs, st, but)
  {
    forall l, n | 0 < l < |create'| && 0 <= n < regs && create'[l][n].Some?
      ensures st[create'[l][n].value.rs].specLevel == l || create'[l - 1][n] == create'[l][n]
    {
      assert create[l][n] == create'[l][n] && LinkOk(create[l][n].value, l, n, st, but);
    }
  }

  /** No entry names `r`. */
  ghost predicate Unnamed(create: seq<Vector>, r: nat)
  {
    forall l, n | 0 <= l < |create| && 0 <= n < |create[l]| :: !Names(create[l][n], r)
  }

  lemma ForgottenUnnamed(create0: seq<Vector>, create1: seq<Vector>, create2: seq<Vector>, regs: nat,
        st: seq<Station>, but: Option<nat>, r: nat)
    requires VectorOk(create0, regs, st, but)
    requires Forgotten(create0, create1, r, 0) && Forgotten(create1, create2, r, 1)
    ensures Unnamed(create2, r)
  {
    forall l, n | 0 <= l < |create2| && 0 <= n < |create2[l]|
      ensures !Names(create2[l][n], r)
    {
      if create0[l][n].Some? { assert LinkOk(create0[l][n].value, l, n, st, but); }
    }
  }

  /** The entries stay right when they are about instructions that keep what the entries say. */
  lemma VectorKept(create: seq<Vector>, regs: nat, st: seq<Station>, but: Option<nat>, st': seq<Station>,
        but': Option<nat>)
    requires VectorOk(create, regs, st, but) && |st'| == |st|
    requires forall r | 0 <= r < |st| && st[r].used && !Unnamed(create, r) ::
               && st'[r].used && (Done(st'[r]) ==> but' == Some(r) || (Done(st[r]) && but == but'))
               && st'[r].specLevel == st[r].specLevel && st'[r].onames == st[r].onames
    ensures VectorOk(create, regs, st', but')
  {
    forall l, n | 0 <= l < |create| && 0 <= n < regs && create[l][n].Some?
      ensures LinkOk(create[l][n].value, l, n, st', but')
      ensures st'[create[l][n].value.rs].specLevel == st[create[l][n].value.rs].specLevel
    {
      assert LinkOk(create[l][n].value, l, n, st, but) && Names(create[l][n], create[l][n].value.rs);
    }
  }

  lemma VectorSettled(create: seq<Vector>, regs: nat, st: seq<Station>, r: nat)
    requires VectorOk(create, regs, st, Some(r)) && Unnamed(create, r)
    ensures VectorOk(create, regs, st, None)
  {
    forall l, n | 0 <= l < |create| && 0 <= n < regs && create[l][n].Some?
      ensures LinkOk(create[l][n].value, l, n, st, None)
    {
      assert LinkOk(create[l][n].value, l, n, st, Some(r)) && !Names(create[l][n], r);
    }
  }

  /** No entry names an instruction without results, or one that has completed. */
  lemma NothingToName(create: seq<Vector>, regs: nat, st: seq<Station>, but: Option<nat>, r: nat)
    requires VectorOk(create, regs, st, but) && r < |st|
    requires st[r].onames == [None, None] || (Done(st[r]) && but == None)
    ensures Unnamed(create, r)
  {
    forall l, n | 0 <= l < |create| && 0 <= n < |create[l]|
      ensures !Names(create[l][n], r)
    {
      if create[l][n].Some? { assert LinkOk(create[l][n].value, l, n, st, but); }
    }
  }

  lemma NoneForgotten(create: seq<Vector>, regs: nat, st: seq<Station>, but: Option<nat>, r: nat, o: nat)
    requires VectorOk(create, regs, st, but) && r < |st| && o < RESULTS
    requires |st[r].onames| == RESULTS && st[r].onames[o] == None
    ensures Forgotten(create, create, r, o)
  {
    forall l, n | 0 <= l < |create| && 0 <= n < |create[l]|
      ensures create[l][n] != Some(CvLink(r, o))
    {
      if create[l][n].Some? { assert LinkOk(create[l][n].value, l, n, st, but); }
    }
  }

  /** The vectors after `roq_install_odep`. */
  function Installed(create: seq<Vector>, r: nat, o: nat, name: Option<nat>): (create': seq<Vector>)
    requires create != [] && (name.Some? ==> name.value < |create[|create| - 1]|)
    ensures |create'| == |create| && forall l | 0 <= l < |create| :: |create'[l]| == |create[l]|
  {
    var top := |create| - 1;
    if name.None? then create else create[top := create[top][name.value := Some(CvLink(r, o))]]
  }

  function WithName(s: Station, o: nat, name: Option<nat>): Station
    requires o < |s.onames|
  {
    s.(onames := s.onames[o := name])
  }

  lemma InstalledOk(create: seq<Vector>, regs: nat, st: seq<Station>, r: nat, o: nat, name: Option<nat>)
    requires VectorOk(create, regs, st, None) && Named(st, regs) && create != []
    requires r < |st| && st[r].used && !Done(st[r]) && st[r].specLevel == |create| - 1
    requires o < RESULTS && |st[r].onames| == RESULTS && st[r].onames[o] == None
    requires name.Some? ==> name.value < regs
    ensures var st' := st[r := WithName(st[r], o, name)];
            VectorOk(Installed(create, r, o, name), regs, st', None) && Named(st', regs)
  {
    var create': seq<Vector>, st' := Installed(create, r, o, name), st[r := WithName(st[r], o, name)];
    forall l, n | 0 <= l < |create'| && 0 <= n < regs && create'[l][n].Some?
      ensures LinkOk(create'[l][n].value, l, n, st', None)
      ensures st'[create'[l][n].value.rs].specLevel == st[create'[l][n].value.rs].specLevel
    {
      if create'[l][n] == create[l][n] {
        assert LinkOk(create[l][n].value, l, n, st, None);
      }
    }
  }

  /** `prepare_create_vector`. */
  lemma LevelCopied(create: seq<Vector>, regs: nat, st: seq<Station>)
    requires VectorOk(create, regs, st, None) && create != []
    ensures VectorOk(create + [create[|create| - 1]], regs, st, None)
  {
    var create': seq<Vector> := create + [create[|create| - 1]];
    forall l, n | 0 <= l < |create'| && 0 <= n < regs && create'[l][n].Some?
      ensures LinkOk(create'[l][n].value, l, n, st, None)
    {
      assert LinkOk(create'[l][n].value, if l < |create| then l else l - 1, n, st, None);
    }
  }

  /** The vectors of the levels that are left, when the instructions of the others have gone. */
  lemma VectorCut(create: seq<Vector>, regs: nat, st: seq<Station>, st': seq<Station>, level: nat)
    requires VectorOk(create, regs, st, None) && level < |create| && |st'| == |st|
    requires forall r | 0 <= r < |st| && st[r].used && st[r].specLevel <= level :: st'[r] == st[r]
    ensures VectorOk(create[..level + 1], regs, st', None)
  {
    forall l, n | 0 <= l <= level && 0 <= n < regs && create[l][n].Some?
      ensures LinkOk(create[l][n].value, l, n, st', None)
      ensures st'[create[l][n].value.rs] == st[create[l][n].value.rs]
    {
      assert LinkOk(create[l][n].value, l, n, st, None);
    }
  }

  // ---------------------------------------------------------------- open chains

  function ChainOf(u: nat, r: nat, o: nat): (c: nat)
    requires o < RESULTS
    ensures c > u && Creator(u, c) == r
  {
    u + 1 + RESULTS * r + o
  }

  /** Only a result that is still to come has dependants. */
  predicate OpenAt(u: nat, its: seq<seq<Item>>, st: seq<Station>, but: Option<nat>, r: nat, o: nat)
    requires |its| == u + 1 + RESULTS * |st| && r < |st| && o < RESULTS
  {
    its[ChainOf(u, r, o)] != [] ==>
      && st[r].used && (Done(st[r]) ==> but == Some(r)) && |st[r].onames| == RESULTS && st[r].onames[o].Some?
  }

  ghost predicate Open(u: nat, its: seq<seq<Item>>, st: seq<Station>, but: Option<nat>)
  {
    && |its| == u + 1 + RESULTS * |st|
    && forall r, o | 0 <= r < |st| && 0 <= o < RESULTS :: OpenAt(u, its, st, but, r, o)
  }

  /** The same instructions, as far as their creators and dependants are concerned. */
  ghost predicate SameCreators(st: seq<Station>, st': seq<Station>, but: Option<nat>)
  {
    && |st| == |st'|
    && forall r | 0 <= r < |st| ::
         && st'[r].used == st[r].used && st'[r].seqNo == st[r].seqNo && st'[r].specLevel == st[r].specLevel
         && st'[r].onames == st[r].onames && (but != Some(r) ==> Done(st'[r]) == Done(st[r]))
  }

  ghost predicate SameIdentity(st: seq<Station>, st': seq<Station>)
  {
    SameCreators(st, st', None) && forall r | 0 <= r < |st| :: st'[r].mapped == st[r].mapped
  }

  lemma ReadyIdentity(st: seq<Station>, r: nat, ready: seq<bool>)
    requires r < |st|
    ensures var st' := st[r := st[r].(ready := ready)]; SameIdentity(st, st') && SameCreators(st, st', None)
  {
  }

  /** No chain that was empty has got a link. */
  ghost predicate Shrunk(u: nat, its: seq<seq<Item>>, its': seq<seq<Item>>)
  {
    |its| == |its'| && forall k | u < k < |its| :: its[k] == [] ==> its'[k] == []
  }

  lemma OpenKept(u: nat, its: seq<seq<Item>>, its': seq<seq<Item>>, st: seq<Station>, st': seq<Station>,
        but: Option<nat>, but': Option<nat>)
    requires Open(u, its, st, but) && Shrunk(u, its, its') && SameCreators(st, st', but')
    requires but == None || but == but'
    ensures Open(u, its', st', but')
  {
    forall r, o | 0 <= r < |st| && 0 <= o < RESULTS
      ensures OpenAt(u, its', st', but', r, o)
    {
      assert OpenAt(u, its, st, but, r, o);
    }
  }

  /** A dependant of a result that is still to come. */
  lemma OpenLinked(u: nat, its: seq<seq<Item>>, its': seq<seq<Item>>, st: seq<Station>, st': seq<Station>,
        r: nat, o: nat)
    requires Open(u, its, st, None) && |its'| == |its| && SameCreators(st, st', None)
    requires r < |st| && o < RESULTS
    requires st[r].used && !Done(st[r]) && |st[r].onames| == RESULTS && st[r].onames[o].Some?
    requires forall k | u < k < |its| && k != ChainOf(u, r, o) :: its'[k] == its[k]
    ensures Open(u, its', st', None)
  {
    forall q, p | 0 <= q < |st| && 0 <= p < RESULTS
      ensures OpenAt(u, its', st', None, q, p)
    {
      assert OpenAt(u, its, st, None, q, p);
    }
  }

  /** The chains of `r` are empty, and nothing else becomes or ceases to be a creator. */
  lemma OpenAbout(u: nat, its: seq<seq<Item>>, st: seq<Station>, but: Option<nat>, r: nat, s: Station)
    requires Open(u, its, st, but) && r < |st| && (but == None || but == Some(r))
    requires forall o | 0 <= o < RESULTS :: its[ChainOf(u, r, o)] == []
    ensures Open(u, its, st[r := s], None)
  {
    var st' := st[r := s];
    forall q, p | 0 <= q < |st'| && 0 <= p < RESULTS
      ensures OpenAt(u, its, st', None, q, p)
    {
      assert OpenAt(u, its, st, but, q, p);
    }
  }

  /** A result that nothing waits for gets its name. */
  lemma OpenNamed(u: nat, its: seq<seq<Item>>, st: seq<Station>, r: nat, o: nat, name: Option<nat>)
    requires Open(u, its, st, None) && r < |st| && o < RESULTS
    requires |st[r].onames| == RESULTS && st[r].onames[o] == None
    ensures Open(u, its, st[r := WithName(st[r], o, name)], None)
  {
    var st' := st[r := WithName(st[r], o, name)];
    forall q, p | 0 <= q < |st'| && 0 <= p < RESULTS
      ensures OpenAt(u, its, st', None, q, p)
    {
      assert OpenAt(u, its, st, None, q, p);
    }
  }

  /** Nothing waits for a result that has no name, or of an instruction that is not in use or has
      completed. */
  lemma NothingWaits(u: nat, its: seq<seq<Item>>, st: seq<Station>, but: Option<nat>, r: nat, o: nat)
    requires Open(u, its, st, but) && r < |st| && o < RESULTS
    requires !st[r].used || (Done(st[r]) && but == None) || (|st[r].onames| == RESULTS && st[r].onames[o] == None)
    ensures its[ChainOf(u, r, o)] == []
  {
    assert OpenAt(u, its, st, but, r, o);
  }

  /** So such an instruction can go, or its record be used for another one. */
  lemma OpenIdle(u: nat, its: seq<seq<Item>>, st: seq<Station>, r: nat, s: Station)
    requires Open(u, its, st, None) && r < |st| && (!st[r].used || Done(st[r]))
    ensures forall o | 0 <= o < RESULTS :: its[ChainOf(u, r, o)] == []
    ensures Open(u, its, st[r := s], None)
  {
    NothingWaits(u, its, st, None, r, 0);
    NothingWaits(u, its, st, None, r, 1);
    OpenAbout(u, its, st, None, r, s);
  }

  /** The chains of `r` are its two. */
  lemma OnlyChains(u: nat, its: seq<seq<Item>>, st: seq<Station>, r: nat)
    requires |its| == u + 1 + RESULTS * |st| && r < |st|
    requires forall o | 0 <= o < RESULTS :: its[ChainOf(u, r, o)] == []
    ensures ChainsDead(u, its, st, r)
  {
    forall k | u < k < |its| && Creator(u, k) == r
      ensures its[k] == []
    {
      assert k == ChainOf(u, r, 0) || k == ChainOf(u, r, 1);
    }
  }

  // ---------------------------------------------------------------- all of it

  /** Program order, levels, creators and dependants agree. */
  ghost predicate Traced(roq: seq<nat>, decoded: seq<nat>, nextSeq: nat, entries: seq<int>,
        create: seq<Vector>, regs: nat, st: seq<Station>, but: Option<nat>)
  {
    && InOrder(roq, decoded, st, nextSeq) && Levels(st, nextSeq, entries) && |create| == |entries| + 1
    && Named(st, regs) && VectorOk(create, regs, st, but)
  }

  lemma TracedKept(roq: seq<nat>, decoded: seq<nat>, roq': seq<nat>, decoded': seq<nat>, nextSeq: nat,
        entries: seq<int>, create: seq<Vector>, regs: nat, st: seq<Station>, but: Option<nat>,
        st': seq<Station>, but': Option<nat>)
    requires Traced(roq, decoded, nextSeq, entries, create, regs, st, but)
    requires SameCreators(st, st', but') && (but == None || but == but') && InOrder(roq', decoded', st', nextSeq)
    ensures Traced(roq', decoded', nextSeq, entries, create, regs, st', but')
  {
    VectorKept(create, regs, st, but, st', but');
  }

  lemma TracedSame(roq: seq<nat>, decoded: seq<nat>, nextSeq: nat, entries: seq<int>, create: seq<Vector>,
        regs: nat, st: seq<Station>, but: Option<nat>, st': seq<Station>)
    requires Traced(roq, decoded, nextSeq, entries, create, regs, st, but) && SameIdentity(st, st')
    ensures Traced(roq, decoded, nextSeq, entries, create, regs, st', but)
  {
    InOrderKept(roq, decoded, st, nextSeq, st');
    TracedKept(roq, decoded, roq, decoded, nextSeq, entries, create, regs, st, but, st', but);
  }

  lemma EnteredTraced(roq: seq<nat>, decoded: seq<nat>, nextSeq: nat, entries: seq<int>, create: seq<Vector>,
        regs: nat, st: seq<Station>, r: nat, s: Station)
    requires Traced(roq, decoded, nextSeq, entries, create, regs, st, None) && r < |st| && !st[r].used
    requires s.used && !s.mapped && s.specLevel == |create| - 1 && nextSeq <= s.seqNo && s.onames == [None, None]
    ensures Traced(roq, decoded + [r], s.seqNo + 1, entries, create, regs, st[r := s], None)
    ensures forall q | 0 <= q < |st| && st[q].used :: st[q].seqNo < s.seqNo
  {
    EnteredInOrder(roq, decoded, st, nextSeq, entries, r, s);
    VectorKept(create, regs, st, None, st[r := s], None);
  }

  lemma MappedTraced(roq: seq<nat>, decoded: seq<nat>, nextSeq: nat, entries: seq<int>, create: seq<Vector>,
        regs: nat, st: seq<Station>, fu: nat)
    requires Traced(roq, decoded, nextSeq, entries, create, regs, st, None) && decoded != []
    ensures var r := decoded[0];
            && r < |st| && st[r].used && !st[r].mapped
            && Traced(roq + [r], decoded[1..], nextSeq, entries, create, regs, st[r := MappedTo(st[r], fu)], None)
  {
    Places(roq, decoded, st, nextSeq);
    var r := decoded[0];
    var st' := st[r := MappedTo(st[r], fu)];
    MappedInOrder(roq, decoded, st, nextSeq, MappedTo(st[r], fu));
    TracedKept(roq, decoded, roq + [r], decoded[1..], nextSeq, entries, create, regs, st, None, st', None);
  }

  lemma RetiredTraced(roq: seq<nat>, decoded: seq<nat>, nextSeq: nat, entries: seq<int>, create: seq<Vector>,
        regs: nat, st: seq<Station>)
    requires Traced(roq, decoded, nextSeq, entries, create, regs, st, None) && roq != []
    requires roq[0] < |st| && Done(st[roq[0]])
    ensures Traced(roq[1..], decoded, nextSeq, entries, create, regs, st[roq[0] := Gone(st[roq[0]])], None)
  {
    var r := roq[0];
    OldestGone(roq, decoded, st, nextSeq, Gone(st[r]));
    NothingToName(create, regs, st, None, r);
    VectorKept(create, regs, st, None, st[r := Gone(st[r])], None);
  }

  /** Nothing is left. */
  lemma NothingTraced(nextSeq: nat, regs: nat, st: seq<Station>)
    requires InOrder([], [], st, nextSeq)
    ensures Traced([], [], nextSeq, [], [seq(regs, _ => None)], regs, st, None)
  {
  }

  lemma FinishedTraced(roq: seq<nat>, decoded: seq<nat>, nextSeq: nat, entries: seq<int>, create: seq<Vector>,
        regs: nat, st: seq<Station>, r: nat, st': seq<Station>)
    requires Traced(roq, decoded, nextSeq, entries, create, regs, st, None) && r < |st|
    requires st' == st[r := Finished(st[r])]
    ensures Traced(roq, decoded, nextSeq, entries, create, regs, st', Some(r)) && SameCreators(st, st', Some(r))
  {
    InOrderKept(roq, decoded, st, nextSeq, st');
    TracedKept(roq, decoded, roq, decoded, nextSeq, entries, create, regs, st, None, st', Some(r));
  }

  lemma TracedInOrder(roq: seq<nat>, decoded: seq<nat>, nextSeq: nat, entries: seq<int>, create: seq<Vector>,
        regs: nat, st: seq<Station>, but: Option<nat>)
    requires Traced(roq, decoded, nextSeq, entries, create, regs, st, but)
    ensures InOrder(roq, decoded, st, nextSeq) && Levels(st, nextSeq, entries)
  {
  }

  lemma TracedNamed(roq: seq<nat>, decoded: seq<nat>, nextSeq: nat, entries: seq<int>, create: seq<Vector>,
        regs: nat, st: seq<Station>, but: Option<nat>, r: nat)
    requires Traced(roq, decoded, nextSeq, entries, create, regs, st, but) && r < |st| && st[r].used
    ensures |st[r].onames| == RESULTS
  {
  }

  lemma InstalledTraced(roq: seq<nat>, decoded: seq<nat>, nextSeq: nat, entries: seq<int>,
        create: seq<Vector>, regs: nat, st: seq<Station>, r: nat, o: nat, name: Option<nat>)
    requires Traced(roq, decoded, nextSeq, entries, create, regs, st, None)
    requires r < |st| && st[r].used && !Done(st[r]) && st[r].specLevel == |create| - 1
    requires o < RESULTS && |st[r].onames| == RESULTS && st[r].onames[o] == None
    requires name.Some? ==> name.value < regs
    ensures Traced(roq, decoded, nextSeq, entries, Installed(create, r, o, name), regs,
                   st[r := WithName(st[r], o, name)], None)
  {
    InstalledOk(create, regs, st, r, o, name);
    InOrderKept(roq, decoded, st, nextSeq, st[r := WithName(st[r], o, name)]);
  }

  /** Instructions younger than `limit` have gone. */
  ghost predicate Thinned(st: seq<Station>, st': seq<Station>, limit: int)
  {
    && |st| == |st'|
    && forall r | 0 <= r < |st| ::
         st'[r] == st[r] || (st[r].used && limit < st[r].seqNo && st'[r] == Gone(st[r]))
  }

  /** And all of them. */
  ghost predicate SquashedAfter(st: seq<Station>, st': seq<Station>, limit: int)
  {
    && |st| == |st'|
    && forall r | 0 <= r < |st| :: st'[r] == if st[r].used && limit < st[r].seqNo then Gone(st[r]) else st[r]
  }

  /** Only chains of squashed instructions have been freed; all other lists are as they were. */
  ghost predicate OnlyFreed(u: nat, its: seq<seq<Item>>, its': seq<seq<Item>>, st: seq<Station>, limit: int)
  {
    && |its| == |its'|
    && forall k | 0 <= k < |its| && its'[k] != its[k] ::
         u < k && Creator(u, k) < |st| && st[Creator(u, k)].used && limit < st[Creator(u, k)].seqNo && its'[k] == []
  }

  lemma OnlyFreedStep(u: nat, its: seq<seq<Item>>, its1: seq<seq<Item>>, its2: seq<seq<Item>>, st: seq<Station>,
        st1: seq<Station>, limit: int, r: nat)
    requires OnlyFreed(u, its, its1, st, limit) && Thinned(st, st1, limit)
    requires r < |st1| && st1[r].used && limit < st1[r].seqNo && |its1| == u + 1 + RESULTS * |st|
    requires its2 == its1[ChainOf(u, r, 0) := []][ChainOf(u, r, 1) := []]
    ensures OnlyFreed(u, its, its2, st, limit)
  {
  }

  lemma NoneFreed(u: nat, its: seq<seq<Item>>, st: seq<Station>, limit: int)
    ensures OnlyFreed(u, its, its, st, limit)
  {
  }

  lemma OnlyFreedTwice(u: nat, its: seq<seq<Item>>, its1: seq<seq<Item>>, its2: seq<seq<Item>>, st: seq<Station>,
        st1: seq<Station>, limit: int)
    requires OnlyFreed(u, its, its1, st, limit) && Thinned(st, st1, limit) && OnlyFreed(u, its1, its2, st1, limit)
    ensures OnlyFreed(u, its, its2, st, limit)
  {
    forall k | 0 <= k < |its| && its2[k] != its[k]
      ensures u < k && its2[k] == []
      ensures Creator(u, k) < |st| && st[Creator(u, k)].used && limit < st[Creator(u, k)].seqNo
    {
      if its2[k] != its1[k] {
        assert st1[Creator(u, k)].used;
        assert st1[Creator(u, k)] == st[Creator(u, k)];
      }
    }
  }

  lemma ThinnedTwice(st: seq<Station>, st1: seq<Station>, st2: seq<Station>, limit: int)
    requires Thinned(st, st1, limit) && Thinned(st1, st2, limit)
    ensures Thinned(st, st2, limit)
  {
    forall r | 0 <= r < |st|
      ensures st2[r] == st[r] || (st[r].used && limit < st[r].seqNo && st2[r] == Gone(st[r]))
    {
      assert st1[r] == st[r] || st1[r] == Gone(st[r]);
    }
  }

  lemma NoneLeft(st: seq<Station>, nextSeq: nat)
    requires InOrder([], [], st, nextSeq)
    ensures forall r | 0 <= r < |st| :: !st[r].used
  {
  }

  /** The last of the reorder queue is the youngest when the decode queue is empty. */
  lemma LastYoungest(roq: seq<nat>, st: seq<Station>, nextSeq: nat)
    requires InOrder(roq, [], st, nextSeq) && roq != []
    ensures roq[|roq| - 1] < |st| && st[roq[|roq| - 1]].used
    ensures forall r | 0 <= r < |st| && st[r].used :: st[r].seqNo <= st[roq[|roq| - 1]].seqNo
  {
    assert roq + [] == roq;
    forall r | 0 <= r < |st| && st[r].used
      ensures st[r].seqNo <= st[roq[|roq| - 1]].seqNo
    {
      var i :| 0 <= i < |roq| && roq[i] == r;
    }
  }

  /** Just the instructions of the levels after `level` are younger than `limit`. */
  ghost predicate Deeper(st: seq<Station>, limit: int, level: nat)
  {
    forall r | 0 <= r < |st| && st[r].used :: limit < st[r].seqNo <==> level < st[r].specLevel
  }

  /** That is so when the next instruction is of a deeper level. */
  lemma DeeperFromNext(roq: seq<nat>, decoded: seq<nat>, st: seq<Station>, nextSeq: nat, entries: seq<int>, k: nat)
    requires InOrder(roq, decoded, st, nextSeq) && Levels(st, nextSeq, entries)
    requires var q := roq + decoded;
             && k < |q| && q[k] < |st|
             && (k + 1 < |q| ==> q[k + 1] < |st| && st[q[k]].specLevel < st[q[k + 1]].specLevel)
    ensures var s := st[(roq + decoded)[k]]; s.used && s.specLevel <= |entries| && Deeper(st, s.seqNo, s.specLevel)
  {
    var q := roq + decoded;
    var s := st[q[k]];
    forall r | 0 <= r < |st| && st[r].used
      ensures s.seqNo < st[r].seqNo <==> s.specLevel < st[r].specLevel
    {
      var i :| 0 <= i < |q| && q[i] == r;
      if i > k {
        assert entries[s.specLevel] < st[q[k + 1]].seqNo <= st[r].seqNo;
      } else if s.specLevel < |entries| {
        assert st[r].seqNo <= s.seqNo <= entries[s.specLevel];
      }
    }
  }

  /** When the instructions of the levels after `level` have gone, the levels up to this one are as if
      nothing had followed. */
  lemma TracedCut(roq: seq<nat>, decoded: seq<nat>, roq': seq<nat>, nextSeq: nat, entries: seq<int>,
        create: seq<Vector>, regs: nat, st: seq<Station>, st': seq<Station>, limit: int, level: nat)
    requires Traced(roq, decoded, nextSeq, entries, create, regs, st, None) && level <= |entries|
    requires Deeper(st, limit, level) && SquashedAfter(st, st', limit) && InOrder(roq', [], st', nextSeq)
    ensures |create| == |entries| + 1
    ensures Traced(roq', [], nextSeq, entries[..level], create[..level + 1], regs, st', None)
  {
    VectorCut(create, regs, st, st', level);
  }

  lemma InOrderKept(roq: seq<nat>, decoded: seq<nat>, st: seq<Station>, nextSeq: nat, st': seq<Station>)
    requires InOrder(roq, decoded, st, nextSeq) && |st'| == |st|
    requires forall r | 0 <= r < |st| ::
               st'[r].used == st[r].used && st'[r].seqNo == st[r].seqNo && st'[r].mapped == st[r].mapped
    ensures InOrder(roq, decoded, st', nextSeq)
  {
  }
}
