/** The on-chip mesh (`noc.c` with the arbiter of `noc_rr.c`), one of its four channel types: the
    types share no buffer, credit or grant.  Input buffers are queues here; module `InputBuffers`
    shows that the circular buffers of a router are.  */
module Mesh {

  datatype Option<T> = None | Some(value: T)

  // ---------------------------------------------------------------- geometry

  /** HOME, UP, DOWN, LEFT, RIGHT, in the order of the round robin. */
  datatype Port = Local | Up | Down | Left | Right

  const PORTS: seq<Port> := [Local, Up, Down, Left, Right]

  function Index(d: Port): (i: nat)
    ensures i < 5 && PORTS[i] == d
  {
    match d case Local => 0 case Up => 1 case Down => 2 case Left => 3 case Right => 4
  }

  function Opposite(d: Port): Port
  {
    match d case Local => Local case Up => Down case Down => Up case Left => Right case Right => Left
  }

  datatype Place = Place(x: int, y: int)

  datatype Packet = Packet(id: int, dest: Place)

  /** The mesh is `width` by `height`; a router buffers `size` packets per input. */
  datatype Grid = Grid(width: nat, height: nat, size: nat)
  {
    predicate Valid()
    {
      0 < width && 0 < height && 0 < size
    }

    predicate Contains(n: Place)
    {
      0 <= n.x < width && 0 <= n.y < height
    }
  }

  function Neighbour(n: Place, d: Port): Place
  {
    match d
    case Local => n
    case Up => Place(n.x, n.y - 1)
    case Down => Place(n.x, n.y + 1)
    case Left => Place(n.x - 1, n.y)
    case Right => Place(n.x + 1, n.y)
  }

  /** The output that `arbitrate` requests for a packet: first along x, then along y. */
  function Route(n: Place, dest: Place): Port
  {
    if dest.x < n.x then Left
    else if dest.x > n.x then Right
    else if dest.y < n.y then Up
    else if dest.y > n.y then Down
    else Local
  }

  function Distance(a: Place, b: Place): nat
  {
    (if a.x < b.x then b.x - a.x else a.x - b.x) + (if a.y < b.y then b.y - a.y else a.y - b.y)
  }

  // ---------------------------------------------------------------- state

  /** An input of a router. */
  datatype Key = Key(n: Place, d: Port)

  /** All that belongs to the link into one input: the input buffer, the flits on the wire
      (`flit_arrive` events), the `egress_credit` of the output that feeds the link, and the
      `update_credit` events on the way back to that output. */
  datatype Link = Link(queue: seq<Packet>, flits: seq<Packet>, credit: int, pending: nat)

  /** Besides the links, per output its grant (an input) and the input that it granted last. */
  datatype State = State(
    link: map<Key, Link>,
    grant: map<Key, Option<Port>>,
    last: map<Key, nat>,
    injected: multiset<Packet>,
    delivered: multiset<Packet>)

  datatype Step =
    | Request(n: Place, p: Packet)       // noc_request
    | Arbitrate(n: Place, open: bool)    // arbitrate; do the local queues take a packet?
    | Traverse(n: Place, out: Port)      // one output of flit_traverse
    | FlitArrive(k: Key)                 // event flit_arrive
    | CreditArrive(k: Key)               // event update_credit

  ghost predicate Total(g: Grid, s: State)
  {
    && (forall k: Key :: k in s.link <==> g.Contains(k.n))
    && (forall k: Key :: k in s.grant <==> g.Contains(k.n))
    && (forall k: Key :: k in s.last <==> g.Contains(k.n))
  }

  ghost predicate Init(g: Grid, s: State)
  {
    && Total(g, s)
    && (forall k | k in s.link :: s.link[k] == Link([], [], g.size, 0))
    && (forall k | k in s.grant :: s.grant[k].None?)
    && s.injected == multiset{} && s.delivered == multiset{}
  }

  // ---------------------------------------------------------------- transitions

  /** The input at the far side of output `k`; for an input, the output that feeds it. */
  function Far(k: Key): Key
  {
    Key(Neighbour(k.n, k.d), Opposite(k.d))
  }

  predicate HasLink(g: Grid, k: Key)
  {
    k.d != Local && g.Contains(Neighbour(k.n, k.d))
  }

  /** Does the packet at the head of input `k` ask for output `out`? */
  predicate Requests(l: Link, n: Place, out: Port)
  {
    l.queue != [] && Route(n, l.queue[0].dest) == out
  }

  /** The first requesting input after the one granted last. */
  function RoundRobin(req: seq<bool>, last: nat, i: nat): (j: Option<nat>)
    requires |req| == 5 && i <= 6
    ensures j.Some? ==> j.value < 5 && req[j.value]
    decreases 6 - i
  {
    if i == 6 then None
    else if req[(last + i) % 5] then Some((last + i) % 5)
    else RoundRobin(req, last, i + 1)
  }

  ghost function RequestVector(g: Grid, s: State, n: Place, out: Port): (req: seq<bool>)
    requires Total(g, s) && g.Contains(n)
    ensures |req| == 5
    ensures forall d: Port :: req[Index(d)] == Requests(s.link[Key(n, d)], n, out)
  {
    [Requests(s.link[Key(n, Local)], n, out), Requests(s.link[Key(n, Up)], n, out),
     Requests(s.link[Key(n, Down)], n, out), Requests(s.link[Key(n, Left)], n, out),
     Requests(s.link[Key(n, Right)], n, out)]
  }

  /** Is output `out` of router `n` open?  A mesh output needs a credit; the rim has no links; the
      local output is throttled by the credits of the receiving queues, which `open` stands for. */
  ghost predicate MayGrant(g: Grid, s: State, n: Place, out: Port, open: bool)
    requires Total(g, s) && g.Contains(n)
  {
    if out == Local then open else !HasLink(g, Key(n, out)) || s.link[Far(Key(n, out))].credit > 0
  }

  ghost function GrantOf(g: Grid, s: State, n: Place, out: Port, open: bool): Option<Port>
    requires Total(g, s) && g.Contains(n)
  {
    if MayGrant(g, s, n, out, open) then
      match RoundRobin(RequestVector(g, s, n, out), s.last[Key(n, out)], 1)
      case None => None
      case Some(j) => Some(PORTS[j])
    else None
  }

  ghost function Arbitrated(g: Grid, s: State, n: Place, open: bool): State
    requires Total(g, s) && g.Contains(n)
  {
    s.(grant := map k | k in s.grant :: if k.n == n then GrantOf(g, s, n, k.d, open) else s.grant[k],
       last := map k | k in s.last ::
                 if k.n == n && GrantOf(g, s, n, k.d, open).Some?
                 then Index(GrantOf(g, s, n, k.d, open).value) else s.last[k])
  }

  /** Guards are those of the code: room, bounds tests, assertions. */
  ghost predicate Enabled(g: Grid, s: State, step: Step)
    requires Total(g, s)
  {
    match step
    case Request(n, p) => g.Contains(n) && g.Contains(p.dest) && |s.link[Key(n, Local)].queue| < g.size
    case Arbitrate(n, _) => g.Contains(n) && forall d: Port :: s.grant[Key(n, d)].None?
    case Traverse(n, out) =>
      && g.Contains(n) && s.grant[Key(n, out)].Some?
      && (out != Local ==> HasLink(g, Key(n, out)))
      && var i := s.grant[Key(n, out)].value;
      && s.link[Key(n, i)].queue != []
      && (i != Local ==> HasLink(g, Key(n, i)))
    case FlitArrive(k) => g.Contains(k.n) && s.link[k].flits != []
    case CreditArrive(k) => g.Contains(k.n) && s.link[k].pending > 0
  }

  /** `packet_depart` and the credit that goes back for the freed slot.  There is none for a packet
      of the local input, nor, for want of a case in the code, for a packet that turns back. */
  function Departed(l: Link, i: Port, out: Port): Link
    requires l.queue != []
  {
    l.(queue := l.queue[1..], pending := if i == Local || i == out then l.pending else l.pending + 1)
  }

  function Forwarded(l: Link, p: Packet): Link
  {
    l.(flits := l.flits + [p], credit := l.credit - 1)
  }

  ghost function Depart(g: Grid, s: State, n: Place, out: Port): State
    requires Total(g, s) && Enabled(g, s, Traverse(n, out))
  {
    var i := s.grant[Key(n, out)].value;
    var p := s.link[Key(n, i)].queue[0];
    var link := s.link[Key(n, i) := Departed(s.link[Key(n, i)], i, out)];
    s.(link := if out == Local then link
               else link[Far(Key(n, out)) := Forwarded(link[Far(Key(n, out))], p)],
       grant := s.grant[Key(n, out) := None],
       delivered := if out == Local then s.delivered + multiset{p} else s.delivered)
  }

  ghost function Apply(g: Grid, s: State, step: Step): State
    requires Total(g, s) && Enabled(g, s, step)
  {
    match step
    case Request(n, p) =>
      var l := s.link[Key(n, Local)];
      s.(link := s.link[Key(n, Local) := l.(queue := l.queue + [p])], injected := s.injected + multiset{p})
    case Arbitrate(n, open) => Arbitrated(g, s, n, open)
    case Traverse(n, out) => Depart(g, s, n, out)
    case FlitArrive(k) =>
      var l := s.link[k];
      s.(link := s.link[k := l.(flits := l.flits[1..], queue := l.queue + [l.flits[0]])])
    case CreditArrive(k) =>
      var l := s.link[k];
      s.(link := s.link[k := l.(pending := l.pending - 1, credit := l.credit + 1)])
  }

  // ---------------------------------------------------------------- invariant

  /** A packet at input `d` is still short of its destination in that direction, so it never turns
      back and never meets the rim. */
  predicate OnRoute(g: Grid, k: Key, p: Packet)
  {
    && g.Contains(p.dest)
    && (k.d != Local ==> HasLink(g, k))
    && match k.d
       case Local => true
       case Up => p.dest.x == k.n.x && p.dest.y >= k.n.y
       case Down => p.dest.x == k.n.x && p.dest.y <= k.n.y
       case Left => p.dest.x >= k.n.x
       case Right => p.dest.x <= k.n.x
  }

  predicate AllOnRoute(g: Grid, k: Key, ps: seq<Packet>)
  {
    forall i | 0 <= i < |ps| :: OnRoute(g, k, ps[i])
  }

  /** Credit at the output, flits on the wire, packets in the buffer and credits on the way back
      always add up to the size of the buffer. */
  predicate LinkOk(g: Grid, k: Key, l: Link)
  {
    && AllOnRoute(g, k, l.queue) && AllOnRoute(g, k, l.flits)
    && (k.d == Local ==> |l.queue| <= g.size && l.flits == [] && l.pending == 0)
    && (k.d != Local ==> l.credit >= 0 && l.credit + |l.flits| + |l.queue| + l.pending == g.size)
  }

  ghost predicate GrantOk(g: Grid, s: State, n: Place, out: Port)
    requires Total(g, s) && g.Contains(n)
  {
    s.grant[Key(n, out)].Some? ==>
      && Requests(s.link[Key(n, s.grant[Key(n, out)].value)], n, out)
      && (HasLink(g, Key(n, out)) ==> s.link[Far(Key(n, out))].credit > 0)
  }

  ghost predicate Inv(g: Grid, s: State)
  {
    && g.Valid()
    && Total(g, s)
    && (forall k | k in s.link :: LinkOk(g, k, s.link[k]))
    && (forall n, d | g.Contains(n) :: GrantOk(g, s, n, d))
  }

  lemma InitInv(g: Grid, s: State)
    requires g.Valid() && Init(g, s)
    ensures Inv(g, s)
  {
  }

  lemma FarFar(k: Key)
    ensures Far(Far(k)) == k
  {
  }

  lemma RequestInv(g: Grid, s: State, n: Place, p: Packet)
    requires Inv(g, s) && Enabled(g, s, Request(n, p))
    ensures Inv(g, Apply(g, s, Request(n, p)))
  {
    var s' := Apply(g, s, Request(n, p));
    forall n', d | g.Contains(n')
      ensures GrantOk(g, s', n', d)
    {
      assert GrantOk(g, s, n', d);
    }
  }

  lemma ArbitrateInv(g: Grid, s: State, n: Place, open: bool)
    requires Inv(g, s) && Enabled(g, s, Arbitrate(n, open))
    ensures Inv(g, Apply(g, s, Arbitrate(n, open)))
  {
    var s' := Apply(g, s, Arbitrate(n, open));
    forall n', d | g.Contains(n')
      ensures GrantOk(g, s', n', d)
    {
      assert GrantOk(g, s, n', d);
      if n' == n && s'.grant[Key(n, d)].Some? {
        var j := RoundRobin(RequestVector(g, s, n, d), s.last[Key(n, d)], 1).value;
        assert Index(PORTS[j]) == j;
      }
    }
  }

  lemma ArriveInv(g: Grid, s: State, step: Step)
    requires Inv(g, s) && Enabled(g, s, step) && (step.FlitArrive? || step.CreditArrive?)
    ensures Inv(g, Apply(g, s, step))
  {
    var s' := Apply(g, s, step);
    assert LinkOk(g, step.k, s.link[step.k]);
    forall n', d | g.Contains(n')
      ensures GrantOk(g, s', n', d)
    {
      assert GrantOk(g, s, n', d);
    }
  }

  /** A granted packet never makes a U-turn and never leaves the mesh, so the bounds tests and
      assertions of `flit_traverse` always pass; a packet that leaves the mesh is where it wants
      to be. */
  lemma GrantStaysInMesh(g: Grid, s: State, n: Place, out: Port)
    requires Inv(g, s) && g.Contains(n) && s.grant[Key(n, out)].Some?
    ensures Enabled(g, s, Traverse(n, out))
    ensures s.grant[Key(n, out)].value != Local ==> s.grant[Key(n, out)].value != out
    ensures out == Local ==> s.link[Key(n, s.grant[Key(n, out)].value)].queue[0].dest == n
    ensures out != Local ==> OnRoute(g, Far(Key(n, out)), s.link[Key(n, s.grant[Key(n, out)].value)].queue[0])
  {
    assert GrantOk(g, s, n, out);
    var i := s.grant[Key(n, out)].value;
    assert LinkOk(g, Key(n, i), s.link[Key(n, i)]);
    assert OnRoute(g, Key(n, i), s.link[Key(n, i)].queue[0]);
    FarFar(Key(n, out));
  }

  /** The two links that a departing packet touches. */
  lemma DepartLinks(g: Grid, s: State, n: Place, out: Port)
    requires Inv(g, s) && Enabled(g, s, Traverse(n, out))
    ensures var i := s.grant[Key(n, out)].value;
            && LinkOk(g, Key(n, i), Departed(s.link[Key(n, i)], i, out))
            && (out != Local ==>
                  && Far(Key(n, out)) != Key(n, i)
                  && LinkOk(g, Far(Key(n, out)),
                            Forwarded(s.link[Far(Key(n, out))], s.link[Key(n, i)].queue[0])))
  {
    GrantStaysInMesh(g, s, n, out);
    var i := s.grant[Key(n, out)].value;
    assert GrantOk(g, s, n, out);
    assert LinkOk(g, Key(n, i), s.link[Key(n, i)]);
    if out != Local {
      assert LinkOk(g, Far(Key(n, out)), s.link[Far(Key(n, out))]);
    }
  }

  /** What a departure changes at each link. */
  lemma DepartLinkAt(g: Grid, s: State, n: Place, out: Port, k: Key)
    requires Inv(g, s) && Enabled(g, s, Traverse(n, out)) && k in s.link
    ensures var s' := Apply(g, s, Traverse(n, out));
            && k in s'.link
            && (k != Key(n, s.grant[Key(n, out)].value) ==> s'.link[k].queue == s.link[k].queue)
            && (k != Far(Key(n, out)) ==> s'.link[k].credit == s.link[k].credit)
  {
    DepartLinks(g, s, n, out);
  }

  lemma DepartGrants(g: Grid, s: State, n: Place, out: Port, n': Place, d: Port)
    requires Inv(g, s) && Enabled(g, s, Traverse(n, out)) && g.Contains(n')
    ensures Total(g, Apply(g, s, Traverse(n, out)))
    ensures GrantOk(g, Apply(g, s, Traverse(n, out)), n', d)
  {
    if Key(n', d) != Key(n, out) && s.grant[Key(n', d)].Some? {
      assert GrantOk(g, s, n, out) && GrantOk(g, s, n', d);
      var j := s.grant[Key(n', d)].value;
      assert Key(n', j) != Key(n, s.grant[Key(n, out)].value) by {
        GrantStaysInMesh(g, s, n, out);
      }
      DepartLinkAt(g, s, n, out, Key(n', j));
      if HasLink(g, Key(n', d)) {
        FarFar(Key(n', d));
        FarFar(Key(n, out));
        DepartLinkAt(g, s, n, out, Far(Key(n', d)));
      }
    }
  }

  lemma TraverseInv(g: Grid, s: State, n: Place, out: Port)
    requires Inv(g, s) && Enabled(g, s, Traverse(n, out))
    ensures Inv(g, Apply(g, s, Traverse(n, out)))
  {
    DepartLinks(g, s, n, out);
    forall n', d | g.Contains(n')
      ensures GrantOk(g, Apply(g, s, Traverse(n, out)), n', d)
    {
      DepartGrants(g, s, n, out, n', d);
    }
    DepartGrants(g, s, n, out, n, out);
  }

  lemma StepInv(g: Grid, s: State, step: Step)
    requires Inv(g, s) && Enabled(g, s, step)
    ensures Inv(g, Apply(g, s, step))
  {
    match step
    case Request(n, p) => RequestInv(g, s, n, p);
    case Arbitrate(n, open) => ArbitrateInv(g, s, n, open);
    case Traverse(n, out) => TraverseInv(g, s, n, out);
    case _ => ArriveInv(g, s, step);
  }

  // ---------------------------------------------------------------- no packet is lost or duplicated

  function Inside(l: Link): multiset<Packet>
  {
    multiset(l.queue) + multiset(l.flits)
  }

  ghost function Contents(link: map<Key, Link>): multiset<Packet>
    decreases |link|
  {
    if link == map[] then multiset{}
    else
      var k :| k in link;
      Inside(link[k]) + Contents(link - {k})
  }

  /** The sum does not depend on the order in which the links are visited. */
  lemma ContentsWithout(link: map<Key, Link>, k: Key)
    requires k in link
    ensures Contents(link) == Inside(link[k]) + Contents(link - {k})
    decreases |link|
  {
    var k' :| k' in link && Contents(link) == Inside(link[k']) + Contents(link - {k'});
    if k' != k {
      ContentsWithout(link - {k'}, k);
      assert link - {k'} - {k} == link - {k} - {k'};
      ContentsWithout(link - {k}, k');
    }
  }

  lemma Balance(a: multiset<Packet>, b: multiset<Packet>, rest: multiset<Packet>,
                gain: multiset<Packet>, loss: multiset<Packet>)
    requires a + loss == b + gain
    ensures a + rest + loss == b + rest + gain
  {
    forall p: Packet
      ensures (a + rest + loss)[p] == (b + rest + gain)[p]
    {
      assert (a + loss)[p] == (b + gain)[p];
    }
  }

  /** Changing one link changes the whole by the same packets. */
  lemma ContentsUpdate(link: map<Key, Link>, k: Key, l: Link, gain: multiset<Packet>, loss: multiset<Packet>)
    requires k in link && Inside(l) + loss == Inside(link[k]) + gain
    ensures Contents(link[k := l]) + loss == Contents(link) + gain
  {
    ContentsWithout(link, k);
    ContentsWithout(link[k := l], k);
    assert link[k := l] - {k} == link - {k};
    Balance(Inside(l), Inside(link[k]), Contents(link - {k}), gain, loss);
  }

  lemma {:induction false} ContentsEmpty(g: Grid, link: map<Key, Link>)
    requires forall k | k in link :: link[k] == Link([], [], g.size, 0)
    ensures Contents(link) == multiset{}
    decreases |link|
  {
    if link != map[] {
      var k :| k in link && Contents(link) == Inside(link[k]) + Contents(link - {k});
      ContentsEmpty(g, link - {k});
    }
  }

  /** Every packet handed to the network is in exactly one buffer or on exactly one wire, until it
      is delivered, once. */
  ghost predicate Conserved(s: State)
  {
    s.injected == Contents(s.link) + s.delivered
  }

  lemma HeadMoves(ps: seq<Packet>)
    requires ps != []
    ensures multiset(ps) == multiset{ps[0]} + multiset(ps[1..])
  {
    assert ps == [ps[0]] + ps[1..];
  }

  lemma DepartedInside(l: Link, i: Port, out: Port)
    requires l.queue != []
    ensures Inside(Departed(l, i, out)) + multiset{l.queue[0]} == Inside(l)
  {
    HeadMoves(l.queue);
  }

  lemma TraverseConserves(g: Grid, s: State, n: Place, out: Port)
    requires Total(g, s) && Enabled(g, s, Traverse(n, out)) && Conserved(s)
    requires out != Local ==> Far(Key(n, out)) != Key(n, s.grant[Key(n, out)].value)
    ensures Conserved(Apply(g, s, Traverse(n, out)))
  {
    var i := s.grant[Key(n, out)].value;
    var l := s.link[Key(n, i)];
    var p := l.queue[0];
    var link := s.link[Key(n, i) := Departed(l, i, out)];
    assert Contents(link) + multiset{p} == Contents(s.link) by {
      DepartedInside(l, i, out);
      ContentsUpdate(s.link, Key(n, i), Departed(l, i, out), multiset{}, multiset{p});
    }
    if out != Local {
      var far := Far(Key(n, out));
      assert Contents(link[far := Forwarded(link[far], p)]) == Contents(link) + multiset{p} by {
        ContentsUpdate(link, far, Forwarded(link[far], p), multiset{p}, multiset{});
      }
    }
  }

  lemma ArriveInside(l: Link)
    requires l.flits != []
    ensures Inside(l.(flits := l.flits[1..], queue := l.queue + [l.flits[0]])) == Inside(l)
  {
    HeadMoves(l.flits);
  }

  lemma AppendInside(l: Link, p: Packet)
    ensures Inside(l.(queue := l.queue + [p])) == Inside(l) + multiset{p}
  {
  }

  lemma RequestConserves(g: Grid, s: State, n: Place, p: Packet)
    requires Total(g, s) && Enabled(g, s, Request(n, p)) && Conserved(s)
    ensures Conserved(Apply(g, s, Request(n, p)))
  {
    var k, l := Key(n, Local), s.link[Key(n, Local)];
    var l' := l.(queue := l.queue + [p]);
    assert Contents(s.link[k := l']) == Contents(s.link) + multiset{p} by {
      AppendInside(l, p);
      ContentsUpdate(s.link, k, l', multiset{p}, multiset{});
    }
  }

  /** Moving a packet from the wire into the buffer, or a credit, moves no packet in or out. */
  lemma InsideConserves(s: State, k: Key, l: Link)
    requires k in s.link && Inside(l) == Inside(s.link[k]) && Conserved(s)
    ensures Conserved(s.(link := s.link[k := l]))
  {
    assert Contents(s.link[k := l]) == Contents(s.link) by {
      ContentsWithout(s.link, k);
      ContentsWithout(s.link[k := l], k);
      assert s.link[k := l] - {k} == s.link - {k};
    }
  }

  lemma StepConserves(g: Grid, s: State, step: Step)
    requires Inv(g, s) && Enabled(g, s, step) && Conserved(s)
    ensures Conserved(Apply(g, s, step))
  {
    match step
    case Request(n, p) => RequestConserves(g, s, n, p);
    case Arbitrate(n, open) =>
    case Traverse(n, out) =>
      DepartLinks(g, s, n, out);
      TraverseConserves(g, s, n, out);
    case FlitArrive(k) =>
      ArriveInside(s.link[k]);
      InsideConserves(s, k, Apply(g, s, step).link[k]);
    case CreditArrive(k) =>
      InsideConserves(s, k, Apply(g, s, step).link[k]);
  }

  // ---------------------------------------------------------------- runs

  ghost predicate Run(g: Grid, states: seq<State>, steps: seq<Step>)
  {
    && |states| == |steps| + 1
    && Init(g, states[0])
    && forall i | 0 <= i < |steps| ::
         Total(g, states[i]) && Enabled(g, states[i], steps[i]) && states[i + 1] == Apply(g, states[i], steps[i])
  }

  lemma {:induction false} RunInv(g: Grid, states: seq<State>, steps: seq<Step>, i: nat)
    requires g.Valid() && Run(g, states, steps) && i < |states|
    ensures Inv(g, states[i]) && Conserved(states[i])
  {
    if i == 0 {
      InitInv(g, states[0]);
      ContentsEmpty(g, states[0].link);
    } else {
      RunInv(g, states, steps, i - 1);
      StepInv(g, states[i - 1], steps[i - 1]);
      StepConserves(g, states[i - 1], steps[i - 1]);
    }
  }

  /** Over every run of the mesh: no packet is lost or duplicated; every link conserves its credits;
      a flit that arrives finds room; no output sends without credit. */
  lemma MeshTheorem(g: Grid, states: seq<State>, steps: seq<Step>, i: nat)
    requires g.Valid() && Run(g, states, steps) && i < |states|
    ensures states[i].injected == Contents(states[i].link) + states[i].delivered
    ensures forall k | k in states[i].link && k.d != Local ::
              var l := states[i].link[k];
              && l.credit + |l.flits| + |l.queue| + l.pending == g.size
              && 0 <= l.credit <= g.size
              && (l.flits != [] ==> |l.queue| < g.size)
    ensures i < |steps| && steps[i].Traverse? && steps[i].out != Local ==>
              states[i].link[Far(Key(steps[i].n, steps[i].out))].credit > 0
  {
    RunInv(g, states, steps, i);
    forall k | k in states[i].link && k.d != Local
      ensures LinkOk(g, k, states[i].link[k])
    {
    }
    if i < |steps| && steps[i].Traverse? {
      assert GrantOk(g, states[i], steps[i].n, steps[i].out);
    }
  }

  // ---------------------------------------------------------------- routing and arbitration

  /** Every hop brings a packet one step nearer, and only arrival stops it. */
  lemma RouteGetsCloser(n: Place, dest: Place)
    ensures Route(n, dest) == Local <==> n == dest
    ensures n != dest ==> Distance(Neighbour(n, Route(n, dest)), dest) == Distance(n, dest) - 1
  {
  }

  /** The arbiter serves some request whenever there is one, and the input granted last only when
      no other asks. */
  lemma RoundRobinServes(req: seq<bool>, last: nat)
    requires |req| == 5 && last < 5
    ensures RoundRobin(req, last, 1).None? <==> forall j | 0 <= j < 5 :: !req[j]
    ensures RoundRobin(req, last, 1) == Some(last) ==> forall j | 0 <= j < 5 && j != last :: !req[j]
  {
    if RoundRobin(req, last, 1).None? || RoundRobin(req, last, 1) == Some(last) {
      forall j | 0 <= j < 5 && (j != last || RoundRobin(req, last, 1).None?)
        ensures !req[j]
      {
        var k := if j > last then j - last else j + 5 - last;
        SlotOf(last, j);
        RoundRobinFrom(req, last, 1, k);
      }
    }
  }

  lemma SlotOf(last: nat, j: nat)
    requires last < 5 && j < 5
    ensures (last + (if j > last then j - last else j + 5 - last)) % 5 == j
  {
  }

  lemma {:induction false} RoundRobinFrom(req: seq<bool>, last: nat, i: nat, k: nat)
    requires |req| == 5 && last < 5 && 1 <= i <= k <= 5
    requires RoundRobin(req, last, i).None? || (RoundRobin(req, last, i) == Some(last) && k < 5)
    ensures !req[(last + k) % 5]
    decreases 6 - i
  {
    if i < k {
      RoundRobinFrom(req, last, i + 1, k);
    }
  }
}
