/** What the write-back of results does to the instructions: nobody who waits for one is left out. */
module Writeback {
  import opened ReadyQueue

  /** The same instructions with the same tags; an operand that was ready still is. */
  ghost predicate SameInstructions(st: seq<Station>, st': seq<Station>)
  {
    && |st| == |st'|
    && forall r | 0 <= r < |st| ::
         && st'[r] == st[r].(ready := st'[r].ready, queued := st'[r].queued) && |st'[r].ready| == |st[r].ready|
         && forall n | 0 <= n < |st[r].ready| :: st[r].ready[n] ==> st'[r].ready[n]
  }

  lemma FilledSame(st: seq<Station>, r: nat, n: nat)
    requires r < |st| && n < |st[r].ready|
    ensures SameInstructions(st, st[r := Filled(st[r], n)])
    ensures n < |st[r := Filled(st[r], n)][r].ready| && st[r := Filled(st[r], n)][r].ready[n]
  {
  }

  /** Every operand that one of the first `n` links of `xs`, live then, waited for is ready. */
  ghost predicate AllFilled(xs: seq<Item>, n: nat, st: seq<Station>, st': seq<Station>)
    requires |st| == |st'| && n <= |xs|
  {
    forall i | 0 <= i < n && Live(xs[i], st) :: xs[i].x < |st'[xs[i].rs].ready| && st'[xs[i].rs].ready[xs[i].x]
  }

  lemma SameTwice(st: seq<Station>, st1: seq<Station>, st2: seq<Station>)
    requires SameInstructions(st, st1) && SameInstructions(st1, st2)
    ensures SameInstructions(st, st2)
  {
    forall r | 0 <= r < |st|
      ensures st2[r] == st[r].(ready := st2[r].ready, queued := st2[r].queued) && |st2[r].ready| == |st[r].ready|
      ensures forall n | 0 <= n < |st[r].ready| :: st[r].ready[n] ==> st2[r].ready[n]
    {
      assert st1[r].tag == st[r].tag;
    }
  }

  lemma AllFilledStep(xs: seq<Item>, i: nat, st: seq<Station>, st1: seq<Station>, st2: seq<Station>)
    requires i < |xs| && SameInstructions(st, st1) && SameInstructions(st1, st2) && AllFilled(xs, i, st, st1)
    requires var x := xs[i..][0]; Live(x, st1) ==> x.x < |st2[x.rs].ready| && st2[x.rs].ready[x.x]
    ensures SameInstructions(st, st2) && AllFilled(xs, i + 1, st, st2)
    ensures xs[i..][1..] == xs[i + 1..]
  {
    SameTwice(st, st1, st2);
  }

  // ---------------------------------------------------------------- what a whole stage does

  /** Operands become ready, and an instruction that executes may have completed. */
  ghost predicate AdvancedAt(s: Station, s': Station)
  {
    && s' == s.(ready := s'.ready, queued := s'.queued, brcompleted := s'.brcompleted, completed := s'.completed)
    && |s'.ready| == |s.ready| && (forall n | 0 <= n < |s.ready| :: s.ready[n] ==> s'.ready[n])
    && ((s'.brcompleted == s.brcompleted && s'.completed == s.completed)
        || (s.used && s.issued && !Done(s)
            && s'.brcompleted == Finished(s).brcompleted && s'.completed == Finished(s).completed))
  }

  ghost predicate Advanced(st: seq<Station>, st': seq<Station>)
  {
    |st| == |st'| && forall r | 0 <= r < |st| :: AdvancedAt(st[r], st'[r])
  }

  predicate ReadyNow(x: Item, st: seq<Station>)
  {
    x.rs < |st| && x.x < |st[x.rs].ready| && st[x.rs].ready[x.x]
  }

  predicate DoneNow(x: Item, st: seq<Station>)
  {
    x.rs < |st| && Done(st[x.rs])
  }

  /** A live link goes from a chain only when its operand is ready, and from the event queue only when its
      instruction has completed. */
  ghost predicate Served(u: nat, its: seq<seq<Item>>, st: seq<Station>, its': seq<seq<Item>>, st': seq<Station>)
  {
    && |its| == |its'| && u < |its|
    && (forall i | 0 <= i < |its[u]| && Live(its[u][i], st) :: its[u][i] in its'[u] || DoneNow(its[u][i], st'))
    && forall k, i | u < k < |its| && 0 <= i < |its[k]| && Live(its[k][i], st) ::
         its[k][i] in its'[k] || ReadyNow(its[k][i], st')
  }

  ghost predicate Progress(u: nat, its: seq<seq<Item>>, st: seq<Station>, its': seq<seq<Item>>, st': seq<Station>)
  {
    Advanced(st, st') && Served(u, its, st, its', st')
  }

  lemma AdvancedTwice(st: seq<Station>, st1: seq<Station>, st2: seq<Station>)
    requires Advanced(st, st1) && Advanced(st1, st2)
    ensures Advanced(st, st2)
  {
    forall r | 0 <= r < |st|
      ensures AdvancedAt(st[r], st2[r])
    {
      assert AdvancedAt(st[r], st1[r]) && AdvancedAt(st1[r], st2[r]);
    }
  }

  lemma ProgressTwice(u: nat, its: seq<seq<Item>>, st: seq<Station>, its1: seq<seq<Item>>, st1: seq<Station>,
        its2: seq<seq<Item>>, st2: seq<Station>)
    requires Progress(u, its, st, its1, st1) && Progress(u, its1, st1, its2, st2)
    ensures Progress(u, its, st, its2, st2)
  {
    AdvancedTwice(st, st1, st2);
    forall k, i | u <= k < |its| && 0 <= i < |its[k]| && Live(its[k][i], st)
      ensures its[k][i] in its2[k] || (k == u && DoneNow(its[k][i], st2)) || (k > u && ReadyNow(its[k][i], st2))
    {
      var x := its[k][i];
      assert AdvancedAt(st[x.rs], st1[x.rs]) && AdvancedAt(st1[x.rs], st2[x.rs]);
      if x in its1[k] {
        var j :| 0 <= j < |its1[k]| && its1[k][j] == x;
        assert Live(its1[k][j], st1);
      }
    }
  }

  lemma NoProgress(u: nat, its: seq<seq<Item>>, st: seq<Station>)
    requires u < |its|
    ensures Progress(u, its, st, its, st)
  {
  }

  /** The first event is over, and its instruction has completed if it was still there. */
  lemma EventTaken(u: nat, its: seq<seq<Item>>, st: seq<Station>)
    requires Good(u, its, st) && its[u] != []
    ensures its[u][0].rs < |st|
    ensures var its', r := its[u := its[u][1..]], its[u][0].rs;
            if Live(its[u][0], st) then Progress(u, its, st, its', st[r := Finished(st[r])])
            else Progress(u, its, st, its', st)
  {
    assert ItemOk(u, u, its[u][0], st);
    assert forall i | 0 < i < |its[u]| :: its[u][i] == its[u][1..][i - 1];
  }

  /** A chain that is emptied so that every operand that waited in it is ready. */
  lemma WokenProgress(u: nat, its: seq<seq<Item>>, st: seq<Station>, c: nat, its': seq<seq<Item>>, st': seq<Station>)
    requires u < c < |its| == |its'| && its'[u] == its[u] && SameInstructions(st, st')
    requires forall k | u < k < |its| && k != c :: its'[k] == its[k]
    requires AllFilled(its[c], |its[c]|, st, st')
    ensures Progress(u, its, st, its', st')
  {
  }

  /** All that waited for a completed instruction go on. */
  lemma ServedAll(u: nat, its: seq<seq<Item>>, st: seq<Station>, its': seq<seq<Item>>, st': seq<Station>, now: nat)
    requires Progress(u, its, st, its', st') && forall j | 0 <= j < |its'[u]| :: its'[u][j].x > now
    requires forall k | u < k < |its'| :: Creator(u, k) < |st'| && (Done(st'[Creator(u, k)]) ==> its'[k] == [])
    ensures forall i | 0 <= i < |its[u]| && Live(its[u][i], st) && its[u][i].x <= now :: DoneNow(its[u][i], st')
    ensures forall k, i | u < k < |its| && 0 <= i < |its[k]| && Live(its[k][i], st) && Done(st'[Creator(u, k)]) ::
              ReadyNow(its[k][i], st')
  {
  }
}
