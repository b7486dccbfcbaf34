/** The links of one processor (`issue.c`, `writeback.c`, `decode.c`): the ready queue of every
    function unit, the event queue, the chains of dependants of every instruction and the free list
    share one pool.  An instruction is squashed by changing its tag; links with an old tag are
    dropped when somebody meets them. */
module ReadyQueue {
  import opened Chains
  import opened LinkPools

  /** MAX_IDEPS and MAX_ODEPS. */
  const OPERANDS: nat := 3
  const RESULTS: nat := 2

  /** A link to instruction `rs`, made when its tag was `tag`; `x` is its sequence number in a ready
      queue, its completion time in the event queue, the number of an operand in a chain. */
  datatype Item = Item(rs: nat, tag: nat, x: nat)

  /** An instruction record, which is used again when its instruction has gone. */
  datatype Station = Station(
    used: bool, seqNo: nat, tag: nat, specLevel: nat, mem: bool, ctrl: bool, fu: nat,
    mapped: bool, queued: bool, issued: bool, brcompleted: bool, completed: bool,
    ready: seq<bool>, onames: seq<Option<nat>>)

  datatype Option<T> = None | Some(value: T)

  /** The result has been written back. */
  predicate Done(s: Station)
  {
    s.brcompleted || s.completed
  }

  predicate OperandsReady(s: Station)
  {
    |s.ready| == OPERANDS && s.ready[0] && s.ready[1] && s.ready[2]
  }

  /** `RSLINK_VALID`. */
  predicate Live(x: Item, st: seq<Station>)
  {
    x.rs < |st| && x.tag == st[x.rs].tag
  }

  predicate Sorted(xs: seq<Item>)
  {
    forall i, j | 0 <= i < j < |xs| :: xs[i].x <= xs[j].x
  }

  /** Where the scan for the insertion point stops. */
  function Place(xs: seq<Item>, x: nat): (i: nat)
    ensures i <= |xs|
    ensures forall k | 0 <= k < i :: xs[k].x < x
    ensures i < |xs| ==> x <= xs[i].x
  {
    if xs == [] || x <= xs[0].x then 0 else 1 + Place(xs[1..], x)
  }

  lemma SplicedSorted(xs: seq<Item>, x: Item)
    requires Sorted(xs)
    ensures Sorted(Spliced(xs, Place(xs, x.x), x))
  {
  }

  /** The place of the first live link. */
  function FirstLive(xs: seq<Item>, st: seq<Station>): (i: nat)
    ensures i <= |xs|
    ensures forall k | 0 <= k < i :: !Live(xs[k], st)
    ensures i < |xs| ==> Live(xs[i], st)
  {
    if xs == [] || Live(xs[0], st) then 0 else 1 + FirstLive(xs[1..], st)
  }

  lemma FirstLiveUnique(xs: seq<Item>, st: seq<Station>, i: nat)
    requires i <= |xs| && (forall k | 0 <= k < i :: !Live(xs[k], st)) && (i < |xs| ==> Live(xs[i], st))
    ensures FirstLive(xs, st) == i
  {
  }

  /** It is the oldest of the live ones. */
  lemma FirstLiveOldest(xs: seq<Item>, st: seq<Station>)
    requires Sorted(xs)
    ensures forall j | 0 <= j < |xs| && Live(xs[j], st) ::
              var i := FirstLive(xs, st); i <= j && xs[i].x <= xs[j].x
  {
  }

  /** What a scan that stops at place `i` has found. */
  lemma ScanFound(xs: seq<Item>, st: seq<Station>, i: nat)
    requires Sorted(xs) && i <= |xs|
    requires (forall k | 0 <= k < i :: !Live(xs[k], st)) && (i < |xs| ==> Live(xs[i], st))
    ensures FirstLive(xs, st) == i
    ensures forall j | 0 <= j < |xs[i..]| && Live(xs[i..][j], st) :: xs[i].x <= xs[i..][j].x
  {
    FirstLiveUnique(xs, st, i);
    FirstLiveOldest(xs, st);
  }

  // ---------------------------------------------------------------- what the lists say

  /** With `u` units, lists 0 to u - 1 are the ready queues, list u is the event queue, and two lists
      for each instruction follow, its chains. */
  predicate ReadyItemOk(k: nat, x: Item, st: seq<Station>)
    requires Live(x, st)
  {
    var s := st[x.rs];
    OperandsReady(s) && s.mapped && s.queued && !s.issued && !Done(s) && s.fu == k && s.seqNo == x.x
  }

  predicate EventItemOk(x: Item, st: seq<Station>)
    requires Live(x, st)
  {
    var s := st[x.rs];
    OperandsReady(s) && s.mapped && s.issued && !s.queued && !Done(s)
  }

  /** The instruction that list `k` is a chain of. */
  function Creator(u: nat, k: nat): nat
    requires k > u
  {
    (k - u - 1) / RESULTS
  }

  /** The operand is not ready yet, and its creator is an older instruction. */
  predicate ChainItemOk(u: nat, k: nat, x: Item, st: seq<Station>)
    requires Live(x, st) && k > u
  {
    var s := st[x.rs];
    && x.x < OPERANDS && |s.ready| == OPERANDS && !s.ready[x.x]
    && Creator(u, k) < |st| && st[Creator(u, k)].used && st[Creator(u, k)].seqNo < s.seqNo
  }

  predicate ItemOk(u: nat, k: nat, x: Item, st: seq<Station>)
  {
    && x.rs < |st| && x.tag <= st[x.rs].tag
    && (Live(x, st) ==> st[x.rs].used)
    && (Live(x, st) && k < u ==> ReadyItemOk(k, x, st))
    && (Live(x, st) && k == u ==> EventItemOk(x, st))
    && (Live(x, st) && k > u ==> ChainItemOk(u, k, x, st))
  }

  /** Both are live links of the same instruction in ready queues or in the event queue, or of the same
      operand in chains. */
  predicate Twins(u: nat, k: nat, x: Item, m: nat, y: Item, st: seq<Station>)
  {
    && Live(x, st) && Live(y, st) && x.rs == y.rs
    && ((k < u && m < u) || (k == u && m == u) || (k > u && m > u && x.x == y.x))
  }

  /** Every link is right about its instruction; an instruction has at most one live link in the ready
      queues and one in the event queue, an operand that is not ready at most one in the chains; the
      ready queues are in program order and the event queue in time order. */
  ghost predicate Consistent(u: nat, its: seq<seq<Item>>, st: seq<Station>)
  {
    && u < |its|
    && (forall k | 0 <= k <= u :: Sorted(its[k]))
    && (forall k, i | 0 <= k < |its| && 0 <= i < |its[k]| :: ItemOk(u, k, its[k][i], st))
    && (forall k, i, m, j {:trigger Twins(u, k, its[k][i], m, its[m][j], st)}
          | 0 <= k < |its| && 0 <= i < |its[k]| && 0 <= m < |its| && 0 <= j < |its[m]| ::
          Twins(u, k, its[k][i], m, its[m][j], st) ==> k == m && i == j)
  }

  /** A link goes. */
  lemma WithoutConsistent(u: nat, its: seq<seq<Item>>, st: seq<Station>, k: nat, i: nat)
    requires Consistent(u, its, st) && k < |its| && i < |its[k]|
    ensures Consistent(u, its[k := Without(its[k], i)], st)
  {
  }

  lemma EmptiedConsistent(u: nat, its: seq<seq<Item>>, st: seq<Station>, k: nat)
    requires Consistent(u, its, st) && k < |its|
    ensures Consistent(u, its[k := []], st)
  {
  }

  /** The links of `its` after `x` has been spliced into list `k` at place `i`. */
  lemma SplicedAt(its: seq<seq<Item>>, k: nat, i: nat, x: Item, m: nat, j: nat)
    requires k < |its| && i <= |its[k]| && m < |its| && j < |its[k := Spliced(its[k], i, x)][m]|
    ensures var y := its[k := Spliced(its[k], i, x)][m][j];
            if m != k || j < i then j < |its[m]| && y == its[m][j]
            else if j == i then y == x
            else j - 1 < |its[m]| && y == its[m][j - 1]
  {
  }

  lemma SplicedUnique(u: nat, its: seq<seq<Item>>, st: seq<Station>, k: nat, i: nat, x: Item,
        m: nat, j: nat, n: nat, l: nat)
    requires Consistent(u, its, st) && k < |its| && i <= |its[k]|
    requires forall m, j | 0 <= m < |its| && 0 <= j < |its[m]| :: !Twins(u, k, x, m, its[m][j], st)
    requires var its' := its[k := Spliced(its[k], i, x)];
             m < |its| && j < |its'[m]| && n < |its| && l < |its'[n]| && Twins(u, m, its'[m][j], n, its'[n][l], st)
    ensures m == n && j == l
  {
    SplicedAt(its, k, i, x, m, j);
    SplicedAt(its, k, i, x, n, l);
    var y := its[k := Spliced(its[k], i, x)][m][j];
    assert Twins(u, n, its[k := Spliced(its[k], i, x)][n][l], m, y, st);
  }

  /** A link comes that says something right and has no twin. */
  lemma SplicedConsistent(u: nat, its: seq<seq<Item>>, st: seq<Station>, k: nat, i: nat, x: Item)
    requires Consistent(u, its, st) && k < |its| && i <= |its[k]| && ItemOk(u, k, x, st)
    requires k <= u ==> i == Place(its[k], x.x)
    requires forall m, j | 0 <= m < |its| && 0 <= j < |its[m]| :: !Twins(u, k, x, m, its[m][j], st)
    ensures Consistent(u, its[k := Spliced(its[k], i, x)], st)
  {
    var its' := its[k := Spliced(its[k], i, x)];
    if k <= u {
      SplicedSorted(its[k], x);
    }
    forall m, j | 0 <= m < |its'| && 0 <= j < |its'[m]|
      ensures ItemOk(u, m, its'[m][j], st)
    {
      SplicedAt(its, k, i, x, m, j);
    }
    forall m, j, n, l | 0 <= m < |its'| && 0 <= j < |its'[m]| && 0 <= n < |its'| && 0 <= l < |its'[n]|
      && Twins(u, m, its'[m][j], n, its'[n][l], st)
      ensures m == n && j == l
    {
      SplicedUnique(u, its, st, k, i, x, m, j, n, l);
    }
  }

  /** An instruction goes, with nothing live in its chains: its tag changes, and no link to it is
      live any more. */
  lemma RetaggedConsistent(u: nat, its: seq<seq<Item>>, st: seq<Station>, r: nat, s: Station)
    requires Consistent(u, its, st) && r < |st| && st[r].tag < s.tag
    requires forall k, i | u < k < |its| && 0 <= i < |its[k]| && Creator(u, k) == r :: !Live(its[k][i], st)
    ensures Consistent(u, its, st[r := s])
  {
    forall k, i | 0 <= k < |its| && 0 <= i < |its[k]|
      ensures ItemOk(u, k, its[k][i], st[r := s])
    {
      assert ItemOk(u, k, its[k][i], st);
    }
    UniqueKept(u, its, st, st[r := s]);
  }

  /** Nothing becomes live. */
  lemma UniqueKept(u: nat, its: seq<seq<Item>>, st: seq<Station>, st': seq<Station>)
    requires Consistent(u, its, st)
    requires forall k, i | 0 <= k < |its| && 0 <= i < |its[k]| :: Live(its[k][i], st') ==> Live(its[k][i], st)
    ensures forall k, i, m, j | 0 <= k < |its| && 0 <= i < |its[k]| && 0 <= m < |its| && 0 <= j < |its[m]| ::
              Twins(u, k, its[k][i], m, its[m][j], st') ==> k == m && i == j
  {
    forall k, i, m, j | 0 <= k < |its| && 0 <= i < |its[k]| && 0 <= m < |its| && 0 <= j < |its[m]|
      && Twins(u, k, its[k][i], m, its[m][j], st')
      ensures k == m && i == j
    {
      assert Twins(u, k, its[k][i], m, its[m][j], st);
    }
  }

  /** The fields of an instruction change so that its live links stay right. */
  lemma UpdatedConsistent(u: nat, its: seq<seq<Item>>, st: seq<Station>, r: nat, s: Station)
    requires Consistent(u, its, st) && r < |st| && st[r].tag == s.tag
    requires st[r].used ==> s.used && s.seqNo == st[r].seqNo
    requires forall k, i | 0 <= k < |its| && 0 <= i < |its[k]| && its[k][i].rs == r && its[k][i].tag == s.tag ::
               ItemOk(u, k, its[k][i], st[r := s])
    ensures Consistent(u, its, st[r := s])
  {
    forall k, i | 0 <= k < |its| && 0 <= i < |its[k]|
      ensures ItemOk(u, k, its[k][i], st[r := s])
    {
      assert ItemOk(u, k, its[k][i], st);
    }
    UniqueKept(u, its, st, st[r := s]);
  }

  // ---------------------------------------------------------------- nothing is forgotten

  function ReadyLink(r: nat, s: Station): Item
  {
    Item(r, s.tag, s.seqNo)
  }

  ghost predicate Waits(u: nat, its: seq<seq<Item>>, x: Item)
  {
    exists k :: u < k < |its| && x in its[k]
  }

  /** The event of an instruction is queued. */
  ghost predicate Awaited(u: nat, its: seq<seq<Item>>, r: nat, s: Station)
    requires u < |its|
  {
    exists w: nat :: Item(r, s.tag, w) in its[u]
  }

  /** An instruction that can issue has its link in the ready queue of its unit, one that executes its
      link in the event queue (a memory operation when its data is there), and an operand that is not
      ready has its link in a chain. */
  ghost predicate StationOk(u: nat, its: seq<seq<Item>>, r: nat, s: Station)
    requires u < |its|
  {
    && |s.ready| == OPERANDS && (s.mapped ==> s.fu < u)
    && (s.issued ==> OperandsReady(s) && s.mapped && !s.queued) && (Done(s) ==> s.issued)
    && (s.issued && !Done(s) && !s.mem ==> Awaited(u, its, r, s))
    && (s.mapped && !s.issued && OperandsReady(s) ==> ReadyLink(r, s) in its[s.fu])
    && forall n | 0 <= n < OPERANDS :: s.ready[n] || Waits(u, its, Item(r, s.tag, n))
  }

  ghost predicate Complete(u: nat, its: seq<seq<Item>>, st: seq<Station>)
    requires u < |its|
  {
    forall r | 0 <= r < |st| && st[r].used :: StationOk(u, its, r, st[r])
  }

  /** A link that nobody needs goes. */
  lemma WithoutStationOk(u: nat, its: seq<seq<Item>>, r: nat, s: Station, k: nat, i: nat)
    requires u < |its| && StationOk(u, its, r, s) && k < |its| && i < |its[k]|
    requires its[k][i].rs != r || its[k][i].tag != s.tag
             || (k > u && its[k][i].x < OPERANDS && s.ready[its[k][i].x]) || (k < u && s.issued)
             || (k == u && Done(s))
    ensures StationOk(u, its[k := Without(its[k], i)], r, s)
  {
    var its' := its[k := Without(its[k], i)];
    forall x | x in its[k] && x != its[k][i]
      ensures x in its'[k]
    {
      var j :| 0 <= j < |its[k]| && its[k][j] == x;
      assert its'[k][if j < i then j else j - 1] == x;
    }
    if s.issued && !Done(s) && !s.mem {
      var w: nat :| Item(r, s.tag, w) in its[u];
      assert Item(r, s.tag, w) in its'[u];
    }
    forall n | 0 <= n < OPERANDS && !s.ready[n]
      ensures Waits(u, its', Item(r, s.tag, n))
    {
      var m :| u < m < |its| && Item(r, s.tag, n) in its[m];
      assert Item(r, s.tag, n) in its'[m];
    }
  }

  /** A link comes. */
  lemma SplicedStationOk(u: nat, its: seq<seq<Item>>, r: nat, s: Station, k: nat, i: nat, x: Item)
    requires u < |its| && StationOk(u, its, r, s) && k < |its| && i <= |its[k]|
    ensures StationOk(u, its[k := Spliced(its[k], i, x)], r, s)
  {
    var its' := its[k := Spliced(its[k], i, x)];
    assert forall y | y in its[k] :: y in its'[k];
    if s.issued && !Done(s) && !s.mem {
      var w: nat :| Item(r, s.tag, w) in its[u];
      assert Item(r, s.tag, w) in its'[u];
    }
    forall n | 0 <= n < OPERANDS && !s.ready[n]
      ensures Waits(u, its', Item(r, s.tag, n))
    {
      var m :| u < m < |its| && Item(r, s.tag, n) in its[m];
      assert Item(r, s.tag, n) in its'[m];
    }
  }

  // ---------------------------------------------------------------- the steps keep both

  ghost predicate Good(u: nat, its: seq<seq<Item>>, st: seq<Station>)
  {
    |its| == u + 1 + RESULTS * |st| && Consistent(u, its, st) && Complete(u, its, st)
  }

  /** An instruction that can issue has exactly one live link in the ready queues, in that of its unit. */
  lemma ReadyOnce(u: nat, its: seq<seq<Item>>, st: seq<Station>, r: nat)
    requires Good(u, its, st) && r < |st| && st[r].used && st[r].mapped && !st[r].issued && OperandsReady(st[r])
    ensures st[r].fu < u
    ensures exists i | 0 <= i < |its[st[r].fu]| ::
              && its[st[r].fu][i] == ReadyLink(r, st[r])
              && forall k, j | 0 <= k < u && 0 <= j < |its[k]| && its[k][j].rs == r && Live(its[k][j], st) ::
                   k == st[r].fu && j == i
  {
    var f := st[r].fu;
    assert StationOk(u, its, r, st[r]);
    var i :| 0 <= i < |its[f]| && its[f][i] == ReadyLink(r, st[r]);
    forall k, j | 0 <= k < u && 0 <= j < |its[k]| && its[k][j].rs == r && Live(its[k][j], st)
      ensures k == f && j == i
    {
      assert Twins(u, f, its[f][i], k, its[k][j], st);
    }
  }

  /** No instruction is in a ready queue, with a live link, that could not issue: the panic of
      `issue_stage` cannot happen. */
  lemma ReadyOnly(u: nat, its: seq<seq<Item>>, st: seq<Station>, k: nat, i: nat)
    requires Good(u, its, st) && k < u && i < |its[k]| && Live(its[k][i], st)
    ensures var s := st[its[k][i].rs];
            s.used && s.mapped && s.queued && !s.issued && !s.completed && OperandsReady(s) && s.fu == k
  {
    assert ItemOk(u, k, its[k][i], st);
  }

  /** No event is due, with a live link, of an instruction that does not execute: the first panic of
      `writeback_stage` cannot happen. */
  lemma EventOnly(u: nat, its: seq<seq<Item>>, st: seq<Station>, i: nat)
    requires Good(u, its, st) && i < |its[u]| && Live(its[u][i], st)
    ensures var s := st[its[u][i].rs]; s.used && OperandsReady(s) && !s.queued && s.issued && !s.completed
    ensures forall j | 0 <= j < |its[u]| && its[u][j].rs == its[u][i].rs && Live(its[u][j], st) :: j == i
  {
    assert ItemOk(u, u, its[u][i], st);
    forall j | 0 <= j < |its[u]| && its[u][j].rs == its[u][i].rs && Live(its[u][j], st)
      ensures j == i
    {
      assert Twins(u, u, its[u][i], u, its[u][j], st);
    }
  }

  /** An instruction that executes, and is no memory operation, has its event. */
  lemma EventOnce(u: nat, its: seq<seq<Item>>, st: seq<Station>, r: nat)
    requires Good(u, its, st) && r < |st| && st[r].used && st[r].issued && !Done(st[r]) && !st[r].mem
    ensures exists i | 0 <= i < |its[u]| ::
              && its[u][i].rs == r && Live(its[u][i], st)
              && forall j | 0 <= j < |its[u]| && its[u][j].rs == r && Live(its[u][j], st) :: j == i
  {
    assert StationOk(u, its, r, st[r]);
    var w: nat :| Item(r, st[r].tag, w) in its[u];
    var i :| 0 <= i < |its[u]| && its[u][i] == Item(r, st[r].tag, w);
    EventOnly(u, its, st, i);
  }

  /** An operand that is not ready has exactly one live link in the chains, in one of an older
      instruction that is still there. */
  lemma WaitsOnce(u: nat, its: seq<seq<Item>>, st: seq<Station>, r: nat, n: nat)
    requires Good(u, its, st) && r < |st| && st[r].used && n < OPERANDS
    ensures |st[r].ready| == OPERANDS
    ensures !st[r].ready[n] ==>
              exists c, i | u < c < |its| && 0 <= i < |its[c]| ::
                && its[c][i] == Item(r, st[r].tag, n)
                && Creator(u, c) < |st| && st[Creator(u, c)].used && st[Creator(u, c)].seqNo < st[r].seqNo
                && forall k, j | u < k < |its| && 0 <= j < |its[k]| && its[k][j] == Item(r, st[r].tag, n) ::
                     k == c && j == i
  {
    assert StationOk(u, its, r, st[r]);
    if !st[r].ready[n] {
      var c :| u < c < |its| && Item(r, st[r].tag, n) in its[c];
      var i :| 0 <= i < |its[c]| && its[c][i] == Item(r, st[r].tag, n);
      assert ItemOk(u, c, its[c][i], st);
      forall k, j | u < k < |its| && 0 <= j < |its[k]| && its[k][j] == Item(r, st[r].tag, n)
        ensures k == c && j == i
      {
        assert Twins(u, c, its[c][i], k, its[k][j], st);
      }
    }
  }

  ghost function Enqueued(its: seq<seq<Item>>, k: nat, x: Item): seq<seq<Item>>
    requires k < |its|
  {
    its[k := Spliced(its[k], Place(its[k], x.x), x)]
  }

  /** A squashed link is dropped. */
  lemma DropGood(u: nat, its: seq<seq<Item>>, st: seq<Station>, k: nat, i: nat)
    requires Good(u, its, st) && k < |its| && i < |its[k]| && !Live(its[k][i], st)
    ensures Good(u, its[k := Without(its[k], i)], st)
  {
    WithoutConsistent(u, its, st, k, i);
    forall r | 0 <= r < |st| && st[r].used
      ensures StationOk(u, its[k := Without(its[k], i)], r, st[r])
    {
      WithoutStationOk(u, its, r, st[r], k, i);
    }
  }

  /** No event of instruction `r` is queued. */
  ghost predicate NoEvent(u: nat, its: seq<seq<Item>>, st: seq<Station>, r: nat)
    requires u < |its|
  {
    forall i | 0 <= i < |its[u]| && its[u][i].rs == r :: !Live(its[u][i], st)
  }

  lemma EventConsistent(u: nat, its: seq<seq<Item>>, st: seq<Station>, x: Item)
    requires Consistent(u, its, st) && Live(x, st) && st[x.rs].used && EventItemOk(x, st)
    requires NoEvent(u, its, st, x.rs)
    ensures Consistent(u, Enqueued(its, u, x), st)
  {
    SplicedConsistent(u, its, st, u, Place(its[u], x.x), x);
  }

  /** The event of a memory operation is queued. */
  lemma EventGood(u: nat, its: seq<seq<Item>>, st: seq<Station>, x: Item)
    requires Good(u, its, st) && Live(x, st) && st[x.rs].used && EventItemOk(x, st)
    requires NoEvent(u, its, st, x.rs)
    ensures Good(u, Enqueued(its, u, x), st)
  {
    EventConsistent(u, its, st, x);
    forall r | 0 <= r < |st| && st[r].used
      ensures StationOk(u, Enqueued(its, u, x), r, st[r])
    {
      SplicedStationOk(u, its, r, st[r], u, Place(its[u], x.x), x);
    }
  }

  /** Branches are completed by `check_brq`, later. */
  function Finished(s: Station): Station
  {
    if s.ctrl then s.(brcompleted := true) else s.(completed := true)
  }

  lemma FinishedConsistent(u: nat, its: seq<seq<Item>>, st: seq<Station>)
    requires Good(u, its, st) && its[u] != [] && Live(its[u][0], st)
    ensures var x := its[u][0];
            && EventItemOk(x, st) && st[x.rs].used
            && Consistent(u, its[u := Without(its[u], 0)], st[x.rs := Finished(st[x.rs])])
  {
    var x: Item, its0: seq<seq<Item>> := its[u][0], its[u := Without(its[u], 0)];
    assert ItemOk(u, u, its[u][0], st);
    WithoutConsistent(u, its, st, u, 0);
    var s := Finished(st[x.rs]);
    forall k, i | 0 <= k < |its0| && 0 <= i < |its0[k]| && its0[k][i].rs == x.rs && its0[k][i].tag == s.tag
      ensures ItemOk(u, k, its0[k][i], st[x.rs := s])
    {
      assert its0[k][i] == its[k][if k == u then i + 1 else i];
      assert ItemOk(u, k, its0[k][i], st);
      assert !Twins(u, u, its[u][0], k, its[k][if k == u then i + 1 else i], st);
    }
    UpdatedConsistent(u, its0, st, x.rs, s);
  }

  /** An event is over: its instruction has completed, and what `writeback_stage` checks holds. */
  lemma EventDoneGood(u: nat, its: seq<seq<Item>>, st: seq<Station>)
    requires Good(u, its, st) && its[u] != [] && Live(its[u][0], st)
    ensures var x := its[u][0];
            && EventItemOk(x, st) && st[x.rs].used
            && Good(u, its[u := Without(its[u], 0)], st[x.rs := Finished(st[x.rs])])
  {
    FinishedConsistent(u, its, st);
    var x := its[u][0];
    var st' := st[x.rs := Finished(st[x.rs])];
    forall r | 0 <= r < |st'| && st'[r].used
      ensures StationOk(u, its[u := Without(its[u], 0)], r, st'[r])
    {
      assert StationOk(u, its, r, st[r]);
      WithoutStationOk(u, its, r, st'[r], u, 0);
    }
  }

  /** Instruction `r` is mapped to unit `fu`. */
  function MappedTo(s: Station, fu: nat): Station
  {
    s.(fu := fu, mapped := true, queued := true)
  }

  lemma MapConsistent(u: nat, its: seq<seq<Item>>, st: seq<Station>, r: nat, fu: nat)
    requires Good(u, its, st) && r < |st| && st[r].used && !st[r].mapped && fu < u
    ensures Consistent(u, its, st[r := MappedTo(st[r], fu)])
    ensures forall k, i | 0 <= k < u && 0 <= i < |its[k]| && its[k][i].rs == r :: !Live(its[k][i], st)
  {
    forall k, i | 0 <= k < |its| && 0 <= i < |its[k]| && its[k][i].rs == r && its[k][i].tag == st[r].tag
      ensures k >= u && ItemOk(u, k, its[k][i], st[r := MappedTo(st[r], fu)])
    {
      assert ItemOk(u, k, its[k][i], st);
    }
    UpdatedConsistent(u, its, st, r, MappedTo(st[r], fu));
  }

  lemma MapGood(u: nat, its: seq<seq<Item>>, st: seq<Station>, r: nat, fu: nat)
    requires Good(u, its, st) && r < |st| && st[r].used && !st[r].mapped && fu < u
    ensures var s := MappedTo(st[r], fu);
            Good(u, if OperandsReady(s) then Enqueued(its, fu, ReadyLink(r, s)) else its, st[r := s])
  {
    var s := MappedTo(st[r], fu);
    var st' := st[r := s];
    MapConsistent(u, its, st, r, fu);
    assert StationOk(u, its, r, st[r]);
    if OperandsReady(s) {
      var x := ReadyLink(r, s);
      SplicedConsistent(u, its, st', fu, Place(its[fu], x.x), x);
      forall q | 0 <= q < |st'| && st'[q].used
        ensures StationOk(u, Enqueued(its, fu, x), q, st'[q])
      {
        if q == r {
          assert Enqueued(its, fu, x)[fu][Place(its[fu], x.x)] == x;
        } else {
          SplicedStationOk(u, its, q, st[q], fu, Place(its[fu], x.x), x);
        }
      }
    } else {
      forall q | 0 <= q < |st'| && st'[q].used
        ensures StationOk(u, its, q, st'[q])
      {
        assert StationOk(u, its, q, st[q]);
      }
    }
  }

  /** Operand `n` of instruction `r` waits for the result that list `c` is the chain of. */
  lemma LinkGood(u: nat, its: seq<seq<Item>>, st: seq<Station>, r: nat, n: nat, c: nat)
    requires Good(u, its, st) && r < |st| && st[r].used && !st[r].mapped
    requires n < OPERANDS && |st[r].ready| == OPERANDS && st[r].ready[n]
    requires u < c < |its| && st[Creator(u, c)].used && st[Creator(u, c)].seqNo < st[r].seqNo
    ensures Good(u, its[c := Spliced(its[c], 0, Item(r, st[r].tag, n))],
                 st[r := st[r].(ready := st[r].ready[n := false])])
  {
    var s, x := st[r].(ready := st[r].ready[n := false]), Item(r, st[r].tag, n);
    var st', its' := st[r := s], its[c := Spliced(its[c], 0, x)];
    forall k, i | 0 <= k < |its| && 0 <= i < |its[k]| && its[k][i].rs == r && its[k][i].tag == s.tag
      ensures ItemOk(u, k, its[k][i], st') && !Twins(u, c, x, k, its[k][i], st')
    {
      assert ItemOk(u, k, its[k][i], st);
    }
    UpdatedConsistent(u, its, st, r, s);
    SplicedConsistent(u, its, st', c, 0, x);
    assert its'[c][0] == x;
    forall q | 0 <= q < |st'| && st'[q].used
      ensures StationOk(u, its', q, st'[q])
    {
      assert StationOk(u, its, q, st[q]);
      SplicedStationOk(u, its, q, st[q], c, 0, x);
    }
  }

  /** An operand becomes ready. */
  function Filled(s: Station, n: nat): Station
    requires n < |s.ready|
  {
    var s' := s.(ready := s.ready[n := true]);
    if OperandsReady(s') && s'.mapped then s'.(queued := true) else s'
  }

  /** The first live link of chain `c` is followed: its operand was not ready, as the source asserts,
      and nothing else will make it ready again. */
  lemma FillConsistent(u: nat, its: seq<seq<Item>>, st: seq<Station>, c: nat)
    requires Good(u, its, st) && u < c < |its| && its[c] != [] && Live(its[c][0], st)
    ensures var x := its[c][0];
            && x.x < |st[x.rs].ready| && !st[x.rs].ready[x.x]
            && Consistent(u, its[c := Without(its[c], 0)], st[x.rs := Filled(st[x.rs], x.x)])
  {
    var x: Item, its0: seq<seq<Item>> := its[c][0], its[c := Without(its[c], 0)];
    var r := x.rs;
    assert ItemOk(u, c, its[c][0], st);
    var s := Filled(st[r], x.x);
    WithoutConsistent(u, its, st, c, 0);
    forall k, i | 0 <= k < |its0| && 0 <= i < |its0[k]| && its0[k][i].rs == r && its0[k][i].tag == s.tag
      ensures ItemOk(u, k, its0[k][i], st[r := s])
    {
      assert its0[k][i] == its[k][if k == c then i + 1 else i];
      assert ItemOk(u, k, its0[k][i], st);
      assert !Twins(u, c, its[c][0], k, its[k][if k == c then i + 1 else i], st);
    }
    UpdatedConsistent(u, its0, st, r, s);
  }

  /** No ready queue has a link of an instruction that lacks an operand. */
  lemma WakesAlone(u: nat, its: seq<seq<Item>>, st: seq<Station>, x: Item, f: nat, link: Item, st': seq<Station>)
    requires Good(u, its, st) && Live(x, st) && x.x < |st[x.rs].ready| && !st[x.rs].ready[x.x] && f < u
    requires x.x < OPERANDS && |st'| == |st| && st' == st[x.rs := st'[x.rs]] && st'[x.rs].tag == st[x.rs].tag
    requires link.rs == x.rs
    ensures forall m, j | 0 <= m < |its| && 0 <= j < |its[m]| :: !Twins(u, f, link, m, its[m][j], st')
  {
    forall m, j | 0 <= m < |its| && 0 <= j < |its[m]|
      ensures !Twins(u, f, link, m, its[m][j], st')
    {
      assert ItemOk(u, m, its[m][j], st);
    }
  }

  lemma WakeGood(u: nat, its: seq<seq<Item>>, st: seq<Station>, c: nat)
    requires Good(u, its, st) && u < c < |its| && its[c] != [] && Live(its[c][0], st)
    ensures var x := its[c][0];
            && x.x < |st[x.rs].ready| && !st[x.rs].ready[x.x]
            && var s := Filled(st[x.rs], x.x);
            && (s.mapped ==> s.fu < u)
            && var its1 := if OperandsReady(s) && s.mapped then Enqueued(its, s.fu, ReadyLink(x.rs, s)) else its;
            Good(u, its1[c := Without(its[c], 0)], st[x.rs := s])
  {
    FillConsistent(u, its, st, c);
    var x: Item, its0: seq<seq<Item>> := its[c][0], its[c := Without(its[c], 0)];
    assert ItemOk(u, c, its[c][0], st);
    var r, s := x.rs, Filled(st[x.rs], x.x);
    var st', link := st[r := s], ReadyLink(r, s);
    assert StationOk(u, its, r, st[r]);
    var wakes := OperandsReady(s) && s.mapped;
    var its1 := if wakes then Enqueued(its, s.fu, link) else its;
    if wakes {
      WakesAlone(u, its, st, x, s.fu, link, st');
      assert forall j | 0 <= j < |its0[c]| :: its0[c][j] == its[c][j + 1];
      SplicedConsistent(u, its0, st', s.fu, Place(its0[s.fu], link.x), link);
      assert its1[c := Without(its[c], 0)] == Enqueued(its0, s.fu, link);
    }
    forall q | 0 <= q < |st'| && st'[q].used
      ensures StationOk(u, its1[c := Without(its[c], 0)], q, st'[q])
    {
      WakeStationOk(u, its, st, c, q);
    }
  }

  /** The instruction itself is not forgotten once its link is in the ready queue. */
  lemma FilledStationOk(u: nat, its: seq<seq<Item>>, r: nat, s: Station, n: nat)
    requires u < |its| && StationOk(u, its, r, s) && n < OPERANDS && !s.ready[n]
    ensures var s' := Filled(s, n);
            && (s'.mapped ==> s'.fu < u)
            && var its' := if OperandsReady(s') && s'.mapped then Enqueued(its, s'.fu, ReadyLink(r, s')) else its;
            StationOk(u, its', r, s')
  {
    var s' := Filled(s, n);
    if OperandsReady(s') && s'.mapped {
      var i := Place(its[s'.fu], s'.seqNo);
      assert Enqueued(its, s'.fu, ReadyLink(r, s'))[s'.fu][i] == ReadyLink(r, s');
    }
  }

  lemma WakeStationOk(u: nat, its: seq<seq<Item>>, st: seq<Station>, c: nat, q: nat)
    requires Good(u, its, st) && u < c < |its| && its[c] != [] && Live(its[c][0], st)
    requires st[its[c][0].rs].used && its[c][0].x < OPERANDS && q < |st| && st[q].used
    requires |st[its[c][0].rs].ready| == OPERANDS && !st[its[c][0].rs].ready[its[c][0].x]
    ensures var x := its[c][0];
            var s := Filled(st[x.rs], x.x);
            && (s.mapped ==> s.fu < u)
            && var its1 := if OperandsReady(s) && s.mapped then Enqueued(its, s.fu, ReadyLink(x.rs, s)) else its;
            StationOk(u, its1[c := Without(its[c], 0)], q, st[x.rs := s][q])
  {
    var x := its[c][0];
    var r, s := x.rs, Filled(st[x.rs], x.x);
    assert StationOk(u, its, q, st[q]);
    FilledStationOk(u, its, r, st[r], x.x);
    var its1 := if OperandsReady(s) && s.mapped then Enqueued(its, s.fu, ReadyLink(r, s)) else its;
    if q != r && OperandsReady(s) && s.mapped {
      SplicedStationOk(u, its, q, st[q], s.fu, Place(its[s.fu], s.seqNo), ReadyLink(r, s));
    }
    assert its1[c] == its[c];
    WithoutStationOk(u, its1, q, st[r := s][q], c, 0);
  }

  function Started(s: Station): Station
  {
    s.(issued := true, queued := false)
  }

  lemma StartedConsistent(u: nat, its: seq<seq<Item>>, st: seq<Station>, f: nat, i: nat)
    requires Good(u, its, st) && f < u && i < |its[f]| && Live(its[f][i], st)
    ensures var x := its[f][i];
            var its0, st' := its[f := Without(its[f], i)], st[x.rs := Started(st[x.rs])];
            Consistent(u, its0, st') && NoEvent(u, its0, st', x.rs)
  {
    var x := its[f][i];
    var r, s := x.rs, Started(st[x.rs]);
    var its0: seq<seq<Item>>, st' := its[f := Without(its[f], i)], st[x.rs := s];
    assert ItemOk(u, f, its[f][i], st);
    WithoutConsistent(u, its, st, f, i);
    forall k, j | 0 <= k < |its0| && 0 <= j < |its0[k]| && its0[k][j].rs == r && its0[k][j].tag == s.tag
      ensures k != u && ItemOk(u, k, its0[k][j], st')
    {
      var j' := if k == f && j >= i then j + 1 else j;
      assert its0[k][j] == its[k][j'] && ItemOk(u, k, its[k][j'], st);
      assert !Twins(u, f, its[f][i], k, its[k][j'], st);
    }
    UpdatedConsistent(u, its0, st, r, s);
  }

  /** A ready instruction is issued; unless it is a memory operation its completion is queued. */
  lemma IssueGood(u: nat, its: seq<seq<Item>>, st: seq<Station>, f: nat, i: nat, when: nat)
    requires Good(u, its, st) && f < u && i < |its[f]| && Live(its[f][i], st)
    ensures var x := its[f][i];
            var its1 := if st[x.rs].mem then its else Enqueued(its, u, Item(x.rs, x.tag, when));
            Good(u, its1[f := Without(its[f], i)], st[x.rs := Started(st[x.rs])])
  {
    var x := its[f][i];
    var r, e, event := x.rs, Item(x.rs, x.tag, when), !st[x.rs].mem;
    var st' := st[r := Started(st[r])];
    var its0 := its[f := Without(its[f], i)];
    assert ItemOk(u, f, its[f][i], st);
    StartedConsistent(u, its, st, f, i);
    var its1 := if event then Enqueued(its, u, e) else its;
    if event {
      EventConsistent(u, its0, st', e);
      assert Enqueued(its0, u, e) == its1[f := Without(its[f], i)];
      assert its1[u][Place(its[u], when)] == e;
    }
    forall q | 0 <= q < |st'| && st'[q].used
      ensures StationOk(u, its1[f := Without(its[f], i)], q, st'[q])
    {
      assert StationOk(u, its, q, st[q]);
      if event {
        SplicedStationOk(u, its, q, st[q], u, Place(its[u], when), e);
      }
      WithoutStationOk(u, its1, q, st'[q], f, i);
    }
  }

  /** A record is used for a new instruction, with every operand ready for now. */
  lemma DecodeGood(u: nat, its: seq<seq<Item>>, st: seq<Station>, r: nat, s: Station)
    requires Good(u, its, st) && r < |st| && !st[r].used && s.tag == st[r].tag
    requires OperandsReady(s) && !s.mapped && !s.issued && !Done(s)
    ensures Good(u, its, st[r := s])
  {
    forall k, i | 0 <= k < |its| && 0 <= i < |its[k]|
      ensures its[k][i].rs != r || its[k][i].tag != s.tag
    {
      assert ItemOk(u, k, its[k][i], st);
    }
    UpdatedConsistent(u, its, st, r, s);
    assert forall q | 0 <= q < |st| && q != r && st[q].used :: StationOk(u, its, q, st[q]);
  }

  /** Nothing live is left in the chains of `r`. */
  ghost predicate ChainsDead(u: nat, its: seq<seq<Item>>, st: seq<Station>, r: nat)
  {
    forall k, i | u < k < |its| && 0 <= i < |its[k]| && Creator(u, k) == r :: !Live(its[k][i], st)
  }

  lemma FreedDead(u: nat, its: seq<seq<Item>>, st: seq<Station>, r: nat, c: nat)
    requires ChainsDead(u, its, st, r) && u < c < |its|
    ensures ChainsDead(u, its[c := []], st, r)
  {
  }

  /** An instruction goes. */
  lemma GoneGood(u: nat, its: seq<seq<Item>>, st: seq<Station>, r: nat, s: Station)
    requires Good(u, its, st) && r < |st| && st[r].tag < s.tag && !s.used && ChainsDead(u, its, st, r)
    ensures Good(u, its, st[r := s])
  {
    RetaggedConsistent(u, its, st, r, s);
    assert forall q | 0 <= q < |st| && q != r && st[q].used :: StationOk(u, its, q, st[q]);
  }

  /** An instruction that is squashed or has retired. */
  function Gone(s: Station): Station
  {
    s.(used := false, tag := s.tag + 1)
  }

  /** Fields change that no link is about. */
  lemma RenamedGood(u: nat, its: seq<seq<Item>>, st: seq<Station>, r: nat, s: Station)
    requires Good(u, its, st) && r < |st| && Done(s) == Done(st[r])
    requires s == st[r].(brcompleted := s.brcompleted, completed := s.completed, onames := s.onames)
    ensures Good(u, its, st[r := s])
  {
    forall k, i | 0 <= k < |its| && 0 <= i < |its[k]| && its[k][i].rs == r && its[k][i].tag == s.tag
      ensures ItemOk(u, k, its[k][i], st[r := s])
    {
      assert ItemOk(u, k, its[k][i], st);
    }
    UpdatedConsistent(u, its, st, r, s);
    var st' := st[r := s];
    forall q | 0 <= q < |st'| && st'[q].used
      ensures StationOk(u, its, q, st'[q])
    {
      assert StationOk(u, its, q, st[q]);
    }
  }

  // ---------------------------------------------------------------- cancelling what is younger

  /** All of `Good` for the instructions that are not younger than `limit`.  The younger ones are being
      cancelled, the mapped ones first, so that the chains that the others wait in may be gone. */
  ghost predicate GoodTo(u: nat, its: seq<seq<Item>>, st: seq<Station>, limit: int)
  {
    && |its| == u + 1 + RESULTS * |st| && Consistent(u, its, st)
    && forall r | 0 <= r < |st| && st[r].used && st[r].seqNo <= limit :: StationOk(u, its, r, st[r])
  }

  lemma GoodUpTo(u: nat, its: seq<seq<Item>>, st: seq<Station>, limit: int)
    requires Good(u, its, st)
    ensures GoodTo(u, its, st, limit)
  {
  }

  lemma GoodToAll(u: nat, its: seq<seq<Item>>, st: seq<Station>, limit: int)
    requires GoodTo(u, its, st, limit) && forall r | 0 <= r < |st| && st[r].used :: st[r].seqNo <= limit
    ensures Good(u, its, st)
  {
  }

  lemma EmptyGood(u: nat, its: seq<seq<Item>>, st: seq<Station>)
    requires |its| == u + 1 + RESULTS * |st| && (forall k | 0 <= k < |its| :: its[k] == [])
    requires forall r | 0 <= r < |st| :: !st[r].used
    ensures Good(u, its, st)
  {
  }

  /** A chain of a younger instruction is freed, live links and all: only younger instructions wait in
      it. */
  lemma CutGood(u: nat, its: seq<seq<Item>>, st: seq<Station>, limit: int, c: nat)
    requires GoodTo(u, its, st, limit) && u < c < |its| && limit < st[Creator(u, c)].seqNo
    ensures GoodTo(u, its[c := []], st, limit)
  {
    EmptiedConsistent(u, its, st, c);
    forall r | 0 <= r < |st| && st[r].used && st[r].seqNo <= limit
      ensures StationOk(u, its[c := []], r, st[r])
    {
      assert StationOk(u, its, r, st[r]);
      forall n | 0 <= n < OPERANDS && !st[r].ready[n]
        ensures Waits(u, its[c := []], Item(r, st[r].tag, n))
      {
        var m :| u < m < |its| && Item(r, st[r].tag, n) in its[m];
        var i :| 0 <= i < |its[m]| && its[m][i] == Item(r, st[r].tag, n);
        assert ItemOk(u, m, its[m][i], st);
        assert Item(r, st[r].tag, n) in its[c := []][m];
      }
    }
  }

  /** A younger instruction goes. */
  lemma CancelGood(u: nat, its: seq<seq<Item>>, st: seq<Station>, limit: int, r: nat, s: Station)
    requires GoodTo(u, its, st, limit) && r < |st| && limit < st[r].seqNo
    requires st[r].tag < s.tag && !s.used && ChainsDead(u, its, st, r)
    ensures GoodTo(u, its, st[r := s], limit)
  {
    RetaggedConsistent(u, its, st, r, s);
    assert forall q | 0 <= q < |st| && q != r && st[q].used && st[q].seqNo <= limit :: StationOk(u, its, q, st[q]);
  }

  /** The youngest instruction has no live dependants. */
  lemma YoungestChainsDead(u: nat, its: seq<seq<Item>>, st: seq<Station>, r: nat)
    requires Good(u, its, st) && r < |st|
    requires forall q | 0 <= q < |st| && q != r && st[q].used :: st[q].seqNo <= st[r].seqNo
    ensures ChainsDead(u, its, st, r)
  {
    forall k, i | u < k < |its| && 0 <= i < |its[k]| && Creator(u, k) == r
      ensures !Live(its[k][i], st)
    {
      assert ItemOk(u, k, its[k][i], st);
    }
  }

  /** A chain without live links is freed. */
  lemma FreedGood(u: nat, its: seq<seq<Item>>, st: seq<Station>, k: nat)
    requires Good(u, its, st) && k < |its|
    requires forall i | 0 <= i < |its[k]| :: !Live(its[k][i], st)
    ensures Good(u, its[k := []], st)
  {
    EmptiedConsistent(u, its, st, k);
    forall r | 0 <= r < |st| && st[r].used
      ensures StationOk(u, its[k := []], r, st[r])
    {
      forall n | 0 <= n < OPERANDS && !st[r].ready[n]
        ensures Waits(u, its[k := []], Item(r, st[r].tag, n))
      {
        var m :| u < m < |its| && Item(r, st[r].tag, n) in its[m];
        assert Live(Item(r, st[r].tag, n), st);
        assert Item(r, st[r].tag, n) in its[k := []][m];
      }
    }
  }
}
