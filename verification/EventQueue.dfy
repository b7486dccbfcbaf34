/** The global event queue (`__QUEUE_EVENT`, `eventq_remove`, `eventq_service_events`): a list sorted
    by time in which, at equal times, `cpu_execute` events come last. */
module EventQueue {
  import opened Chains

  /** `cpu` marks a `cpu_execute` callback; `action` stands for the rest of the record. */
  datatype Event = Event(when: int, id: nat, cpu: bool, action: nat)

  /** May `a` be served before `b`? */
  predicate Before(a: Event, b: Event)
  {
    a.when < b.when || (a.when == b.when && (!a.cpu || b.cpu))
  }

  predicate Sorted(s: seq<Event>)
  {
    forall i, j | 0 <= i < j < |s| :: Before(s[i], s[j])
  }

  /** Does the search for the place of `e` go past `x`? */
  predicate Passes(x: Event, e: Event)
  {
    if e.cpu then x.when <= e.when else x.when < e.when
  }

  function Place(s: seq<Event>, e: Event): (i: nat)
    ensures i <= |s|
    ensures forall k | 0 <= k < i :: Passes(s[k], e)
    ensures i < |s| ==> !Passes(s[i], e)
  {
    if s == [] || !Passes(s[0], e) then 0 else 1 + Place(s[1..], e)
  }

  ghost function Inserted(s: seq<Event>, e: Event): seq<Event>
  {
    Spliced(s, Place(s, e), e)
  }

  lemma InsertedSorted(s: seq<Event>, e: Event)
    requires Sorted(s)
    ensures Sorted(Inserted(s, e))
  {
  }

  lemma InsertedMultiset(s: seq<Event>, e: Event)
    ensures multiset(Inserted(s, e)) == multiset(s) + multiset{e}
  {
    var i := Place(s, e);
    assert s == s[..i] + s[i..];
  }

  // ---------------------------------------------------------------- the lists

  class EventQueue {
    /** `eventq_pending`, earliest first, and `eventq_free`. */
    const list: LinkedList<Event>
    var nextId: nat
    var simCycle: int

    ghost predicate Valid()
      reads this, list, list.ls, list.fs
    {
      list.Valid() && Ordered(list.items, nextId)
    }

    constructor ()
      ensures Valid() && list.items == [] && list.fs == []
    {
      list := new LinkedList();
      nextId, simCycle := 1, 0;
    }

    /** `__QUEUE_EVENT`: a record is taken from the free list, or allocated when there is none. */
    method Queue(when: int, cpu: bool, action: nat) returns (id: nat)
      requires Valid()
      modifies this`nextId, list, list.ls, list.fs
      ensures Valid() && id == old(nextId)
      ensures list.items == Inserted(old(list.items), Event(when, id, cpu, action))
      ensures |list.fs| == (if old(list.fs) == [] then 0 else |old(list.fs)| - 1)
    {
      id := nextId;
      var e := Event(when, id, cpu, action);
      OrderedInserted(list.items, e, nextId + 1);
      nextId := nextId + 1;
      Splice(e);
    }

    method Splice(e: Event)
      requires list.Valid()
      modifies list, list.ls, list.fs
      ensures list.Valid() && list.items == Inserted(old(list.items), e)
      ensures |list.fs| == (if old(list.fs) == [] then 0 else |old(list.fs)| - 1)
    {
      var node := list.Take(e);
      var prev, i := FindPlace(e);
      list.LinkIn(prev, i, node);
    }

    /** The search for the place of an event; `prev` is the record before it. */
    method FindPlace(e: Event) returns (prev: Link?<Event>, ghost i: nat)
      requires list.Valid()
      ensures i == Place(list.items, e) && prev == if i == 0 then null else list.ls[i - 1]
    {
      i := 0;
      prev := null;
      var ev := list.head;
      while ev != null && Passes(ev.data, e)
        invariant i <= |list.ls| && ev == At(list.ls, i) && prev == if i == 0 then null else list.ls[i - 1]
        invariant Place(list.items, e) == i + Place(list.items[i..], e)
        decreases |list.ls| - i
      {
        assert list.items[i..][0] == ev.data && list.items[i..][1..] == list.items[i + 1..];
        prev := ev;
        ev := ev.next;
        i := i + 1;
      }
      assert i < |list.ls| ==> list.items[i..][0] == list.ls[i].data;
    }

    /** `eventq_remove`: the record with a number moves to the free list. */
    method Remove(id: nat) returns (found: bool)
      requires Valid()
      modifies list, list.ls`next
      ensures Valid() && (found <==> exists i | 0 <= i < |old(list.items)| :: old(list.items)[i].id == id)
      ensures found ==> exists i | 0 <= i < |old(list.items)| ::
                && old(list.items)[i].id == id && list.items == Without(old(list.items), i)
                && list.fs == [old(list.ls)[i]] + old(list.fs)
      ensures !found ==> list.items == old(list.items) && list.fs == old(list.fs)
    {
      ghost var i := 0;
      var prev: Link?<Event> := null;
      var ev := list.head;
      while ev != null && ev.data.id != id
        invariant i <= |list.ls| && ev == At(list.ls, i) && prev == if i == 0 then null else list.ls[i - 1]
        invariant list.Valid() && list.items == old(list.items) && list.ls == old(list.ls) && list.fs == old(list.fs)
        invariant forall k | 0 <= k < i :: list.items[k].id != id
        decreases |list.ls| - i
      {
        prev := ev;
        ev := ev.next;
        i := i + 1;
      }
      found := ev != null;
      if found {
        OrderedWithout(list.items, i, nextId);
        list.LinkOut(prev, i, ev);
      }
    }

    /** One turn of `eventq_service_events`: the clock moves to the first event, whose record is freed
        before the event is performed. */
    method ServiceNext() returns (e: Event)
      requires Valid() && list.items != []
      modifies this`simCycle, list, list.ls`next
      ensures Valid() && e == old(list.items)[0] && list.items == old(list.items)[1..] && simCycle == e.when
      ensures |list.ls| + |list.fs| == |old(list.ls)| + |old(list.fs)|
    {
      e := list.head.data;
      simCycle := e.when;
      OrderedTail(list.items, nextId);
      list.FreeFirst();
    }
  }

  ghost predicate Ordered(s: seq<Event>, next: nat)
  {
    Sorted(s) && Numbered(s, next)
  }

  lemma OrderedInserted(s: seq<Event>, e: Event, next: nat)
    requires Ordered(s, e.id) && e.id < next
    ensures Ordered(Inserted(s, e), next)
  {
    InsertedSorted(s, e);
  }

  /** Every event has its own number. */
  predicate Numbered(s: seq<Event>, next: nat)
  {
    && (forall i | 0 <= i < |s| :: s[i].id < next)
    && (forall i, j | 0 <= i < j < |s| :: s[i].id != s[j].id)
  }

  lemma OrderedWithout(s: seq<Event>, i: nat, next: nat)
    requires Ordered(s, next) && i < |s|
    ensures Ordered(Without(s, i), next)
  {
  }

  lemma OrderedTail(s: seq<Event>, next: nat)
    requires Ordered(s, next) && s != []
    ensures Ordered(s[1..], next)
  {
  }

  // ---------------------------------------------------------------- runs

  /** A run of the service loop: what is pending, the clock, and the events performed so far. */
  datatype State = State(pending: seq<Event>, now: int, done: seq<Event>)

  ghost function InsertedAll(s: seq<Event>, batch: seq<Event>): seq<Event>
  {
    if batch == [] then s else Inserted(InsertedAll(s, batch[..|batch| - 1]), batch[|batch| - 1])
  }

  /** The first event is performed and queues a batch of others. */
  ghost predicate Turn(s: State, batch: seq<Event>, t: State)
  {
    && s.pending != []
    && t == State(InsertedAll(s.pending[1..], batch), s.pending[0].when, s.done + [s.pending[0]])
  }

  predicate NotBefore(s: seq<Event>, now: int)
  {
    forall i | 0 <= i < |s| :: now <= s[i].when
  }

  lemma {:induction false} InsertedAllSorted(s: seq<Event>, batch: seq<Event>)
    requires Sorted(s)
    ensures Sorted(InsertedAll(s, batch))
  {
    if batch != [] {
      var n := |batch| - 1;
      InsertedAllSorted(s, batch[..n]);
      InsertedSorted(InsertedAll(s, batch[..n]), batch[n]);
    }
  }

  lemma {:induction false} InsertedAllMultiset(s: seq<Event>, batch: seq<Event>)
    ensures multiset(InsertedAll(s, batch)) == multiset(s) + multiset(batch)
  {
    if batch != [] {
      var n := |batch| - 1;
      InsertedAllMultiset(s, batch[..n]);
      InsertedMultiset(InsertedAll(s, batch[..n]), batch[n]);
      MultisetLast(batch);
    }
  }

  lemma MultisetLast(s: seq<Event>)
    requires s != []
    ensures multiset(s) == multiset(s[..|s| - 1]) + multiset{s[|s| - 1]}
  {
    assert s == s[..|s| - 1] + [s[|s| - 1]];
  }

  lemma TurnConserves(s: State, batch: seq<Event>, t: State)
    requires Turn(s, batch, t)
    ensures multiset(t.done) + multiset(t.pending) == multiset(s.done) + multiset(s.pending) + multiset(batch)
  {
    var first, rest := s.pending[0], s.pending[1..];
    InsertedAllMultiset(rest, batch);
    assert multiset(t.done) == multiset(s.done) + multiset{first};
    assert multiset(s.pending) == multiset{first} + multiset(rest) by {
      assert s.pending == [first] + rest;
    }
  }

  lemma {:induction false} InsertedAllNotBefore(s: seq<Event>, batch: seq<Event>, now: int)
    ensures NotBefore(InsertedAll(s, batch), now) <==> NotBefore(s, now) && NotBefore(batch, now)
  {
    if batch != [] {
      var n := |batch| - 1;
      InsertedAllNotBefore(s, batch[..n], now);
      InsertedNotBefore(InsertedAll(s, batch[..n]), batch[n], now);
    }
  }

  lemma InsertedNotBefore(s: seq<Event>, e: Event, now: int)
    ensures NotBefore(Inserted(s, e), now) <==> NotBefore(s, now) && now <= e.when
  {
    var i := Place(s, e);
    var t := Inserted(s, e);
    assert t[i] == e;
    assert forall k | 0 <= k < i :: t[k] == s[k];
    assert forall k | i <= k < |s| :: t[k + 1] == s[k];
  }

  /** What holds throughout a run whose handlers never queue an event for the past. */
  ghost predicate RunOk(s: State)
  {
    && Sorted(s.pending) && NotBefore(s.pending, s.now)
    && (forall i | 0 <= i < |s.done| :: s.done[i].when <= s.now)
    && (forall i, j | 0 <= i < j < |s.done| :: s.done[i].when <= s.done[j].when)
  }

  /** One turn: the clock does not go back, and will not if and only if no event of the batch is
      earlier than the present; every event is performed or pending; and when a `cpu_execute` event
      is performed, all others of its tick that are pending are `cpu_execute` events too. */
  lemma TurnOk(s: State, batch: seq<Event>, t: State)
    requires RunOk(s) && Turn(s, batch, t)
    ensures s.now <= t.now
    ensures Sorted(t.pending)
    ensures NotBefore(t.pending, t.now) <==> NotBefore(batch, t.now)
    ensures multiset(t.done) + multiset(t.pending) == multiset(s.done) + multiset(s.pending) + multiset(batch)
    ensures s.pending[0].cpu ==> forall i | 0 < i < |s.pending| && s.pending[i].when == t.now :: s.pending[i].cpu
    ensures NotBefore(batch, t.now) ==> RunOk(t)
  {
    InsertedAllSorted(s.pending[1..], batch);
    TurnConserves(s, batch, t);
    InsertedAllNotBefore(s.pending[1..], batch, t.now);
    assert NotBefore(s.pending[1..], t.now);
  }

  /** The states and batches of a run. */
  ghost predicate Service(states: seq<State>, batches: seq<seq<Event>>)
  {
    && |states| == |batches| + 1
    && forall i {:trigger batches[i]} | 0 <= i < |batches| ::
         Turn(states[i], batches[i], states[i + 1]) && NotBefore(batches[i], states[i + 1].now)
  }

  ghost function Queued(batches: seq<seq<Event>>): multiset<Event>
  {
    if batches == [] then multiset{} else Queued(batches[..|batches| - 1]) + multiset(batches[|batches| - 1])
  }

  /** Over a whole run the events are performed in the order of their times, and each event that was
      pending at first or queued later is performed once or still pending. */
  lemma {:induction false} ServiceOk(states: seq<State>, batches: seq<seq<Event>>)
    requires Service(states, batches) && RunOk(states[0])
    ensures var t := states[|batches|];
            && RunOk(t) && states[0].now <= t.now
            && multiset(t.done) + multiset(t.pending)
                 == multiset(states[0].done) + multiset(states[0].pending) + Queued(batches)
  {
    if batches != [] {
      var n := |batches| - 1;
      ServiceOk(states[..n + 1], batches[..n]);
      TurnOk(states[n], batches[n], states[n + 1]);
    }
  }

  ghost predicate QueuedBetween(batches: seq<seq<Event>>, i: nat, j: nat, e: Event)
    requires j <= |batches|
  {
    exists k | i <= k < j :: e in batches[k]
  }

  /** What is pending was pending before or has been queued since. */
  lemma {:induction false} PendingFrom(states: seq<State>, batches: seq<seq<Event>>, i: nat, j: nat, e: Event)
    requires Service(states, batches) && i <= j <= |batches| && e in states[j].pending
    ensures e in states[i].pending || QueuedBetween(batches, i, j, e)
  {
    if i < j {
      assert Turn(states[j - 1], batches[j - 1], states[j]);
      var rest := states[j - 1].pending[1..];
      InsertedAllMultiset(rest, batches[j - 1]);
      assert e in multiset(InsertedAll(rest, batches[j - 1]));
      if e in rest {
        PendingFrom(states, batches, i, j - 1, e);
      } else {
        assert e in batches[j - 1];
      }
    }
  }

  lemma {:induction false} DoneAt(states: seq<State>, batches: seq<seq<Event>>, n: nat)
    requires Service(states, batches) && n <= |batches|
    ensures |states[n].done| == |states[0].done| + n
    ensures forall i | 0 <= i < n ::
              states[i].pending != [] && states[n].done[|states[0].done| + i] == states[i].pending[0]
  {
    if n > 0 {
      DoneAt(states, batches, n - 1);
      assert Turn(states[n - 1], batches[n - 1], states[n]);
    }
  }

  /** Within a tick, `cpu_execute` events are performed last: an ordinary event that is performed after
      one of them was queued by the handler of that event or of a later one. */
  lemma ServiceCpuLast(states: seq<State>, batches: seq<seq<Event>>, i: nat, j: nat)
    requires Service(states, batches) && RunOk(states[0]) && i < j < |batches|
    ensures var done, first := states[|batches|].done, |states[0].done|;
            && |done| == first + |batches|
            && (done[first + i].cpu && !done[first + j].cpu && done[first + i].when == done[first + j].when ==>
                  QueuedBetween(batches, i, j, done[first + j]))
  {
    DoneAt(states, batches, |batches|);
    ServiceOk(states[..i + 1], batches[..i]);
    var e, f := states[i].pending[0], states[j].pending[0];
    if e.cpu && !f.cpu && e.when == f.when {
      PendingFrom(states, batches, i, j, f);
      assert Sorted(states[i].pending);
      assert f !in states[i].pending;
    }
  }
}
