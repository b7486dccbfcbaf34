/** The undo log of the tracer (`SAVE_OLD`, the `SET_*` macros, `recover_data`): an instruction that
    is executed in the decode stage saves every location that it overwrites, and a flush restores
    the saved values, oldest first within an instruction and youngest first over the instructions. */
module UndoLog {

  // ---------------------------------------------------------------- architectural state

  /** The floating-point registers are 32 words; a double is two of them.  Memory is bytes. */
  datatype Loc = Gpr(n: nat) | Fp(n: nat) | Hi | Lo | Fcc | Mem(a: nat)

  ghost predicate Total(s: imap<Loc, int>)
  {
    forall l: Loc :: l in s
  }

  type Arch = s: imap<Loc, int> | Total(s) ghost witness imap l: Loc | true :: 0

  /** The same state but for register 0, which every decode clears without saving it. */
  ghost predicate Alike(s: Arch, t: Arch)
  {
    forall l: Loc | l != Gpr(0) :: s[l] == t[l]
  }

  ghost function Cleared(s: Arch): Arch
  {
    s[Gpr(0) := 0]
  }

  lemma AlikeCleared(s: Arch, t: Arch)
    requires Alike(s, t)
    ensures Cleared(s) == Cleared(t)
  {
  }

  // ---------------------------------------------------------------- saved and written locations

  /** What one `SET_*` or `WRITE_*` macro overwrites. */
  datatype Place =
    | Fix(n: nat) | Store(addr: nat, size: nat) | Single(n: nat) | Double(n: nat) | HiReg | LoReg | FccReg

  /** `SAVE_OLD`: a store saves the aligned word at its address, whatever its size. */
  function Saved(p: Place): (ls: seq<Loc>)
  {
    match p
    case Fix(n) => [Gpr(n)]
    case Store(addr, _) =>
      var w := addr - addr % 4;
      [Mem(w), Mem(w + 1), Mem(w + 2), Mem(w + 3)]
    case Single(n) => [Fp(n)]
    case Double(n) => [Fp(2 * n), Fp(2 * n + 1)]
    case HiReg => [Hi]
    case LoReg => [Lo]
    case FccReg => [Fcc]
  }

  function Written(p: Place): (ls: seq<Loc>)
  {
    match p
    case Store(addr, size) => seq(size, i requires 0 <= i < size => Mem(addr + i))
    case _ => Saved(p)
  }

  datatype Action = Action(place: Place, value: seq<int>)
  {
    predicate Valid() { |value| == |Written(place)| }
  }

  datatype Record = Record(place: Place, saved: seq<int>)
  {
    predicate Valid() { |saved| == |Saved(place)| }
  }

  predicate ValidActions(acts: seq<Action>)
  {
    forall i | 0 <= i < |acts| :: acts[i].Valid()
  }

  predicate ValidRecords(recs: seq<Record>)
  {
    forall i | 0 <= i < |recs| :: recs[i].Valid()
  }

  ghost function Put(s: Arch, ls: seq<Loc>, vs: seq<int>): Arch
    requires |ls| == |vs|
  {
    if ls == [] then s else Put(s, ls[..|ls| - 1], vs[..|ls| - 1])[ls[|ls| - 1] := vs[|ls| - 1]]
  }

  ghost function Look(s: Arch, ls: seq<Loc>): (vs: seq<int>)
    ensures |vs| == |ls|
  {
    seq(|ls|, i requires 0 <= i < |ls| => s[ls[i]])
  }

  /** The writes of an instruction. */
  ghost function Exec(s: Arch, acts: seq<Action>): Arch
    requires ValidActions(acts)
  {
    if acts == [] then s
    else Put(Exec(s, acts[..|acts| - 1]), Written(acts[|acts| - 1].place), acts[|acts| - 1].value)
  }

  /** The saves: each is taken just before its write. */
  ghost function Records(s: Arch, acts: seq<Action>): (recs: seq<Record>)
    requires ValidActions(acts)
    ensures |recs| == |acts| && ValidRecords(recs)
  {
    if acts == [] then []
    else
      var front := acts[..|acts| - 1];
      var place := acts[|acts| - 1].place;
      Records(s, front) + [Record(place, Look(Exec(s, front), Saved(place)))]
  }

  /** `recover_data`: the saves are restored oldest first. */
  ghost function Undo(s: Arch, recs: seq<Record>): Arch
    requires ValidRecords(recs)
  {
    if recs == [] then s
    else Put(Undo(s, recs[..|recs| - 1]), Saved(recs[|recs| - 1].place), recs[|recs| - 1].saved)
  }

  // ---------------------------------------------------------------- exactness within an instruction

  /** Each written location is saved no later than it is written, and never saved afterwards. */
  ghost predicate Undoable(places: seq<Place>)
  {
    forall i, l | 0 <= i < |places| && l in Written(places[i]) :: SavedInTime(places, i, l)
  }

  predicate SavedInTime(places: seq<Place>, i: nat, l: Loc)
    requires i < |places|
  {
    && (exists j | 0 <= j <= i :: l in Saved(places[j]))
    && (forall j | i < j < |places| :: l !in Saved(places[j]))
  }

  function Places(acts: seq<Action>): (places: seq<Place>)
    ensures |places| == |acts|
  {
    seq(|acts|, i requires 0 <= i < |acts| => acts[i].place)
  }

  lemma {:induction false} PutAt(s: Arch, ls: seq<Loc>, vs: seq<int>, l: Loc)
    requires |ls| == |vs|
    ensures l !in ls ==> Put(s, ls, vs)[l] == s[l]
    ensures (forall i | 0 <= i < |ls| && ls[i] == l :: vs[i] == s[l]) ==> Put(s, ls, vs)[l] == s[l]
    ensures l in ls ==> exists i | 0 <= i < |ls| :: ls[i] == l && Put(s, ls, vs)[l] == vs[i]
  {
    if ls != [] {
      PutAt(s, ls[..|ls| - 1], vs[..|ls| - 1], l);
    }
  }

  /** A location that no action writes keeps its value. */
  lemma {:induction false} ExecUntouched(s: Arch, acts: seq<Action>, l: Loc)
    requires ValidActions(acts)
    requires forall i | 0 <= i < |acts| :: l !in Written(acts[i].place)
    ensures Exec(s, acts)[l] == s[l]
  {
    if acts != [] {
      var n := |acts| - 1;
      ExecUntouched(s, acts[..n], l);
      PutAt(Exec(s, acts[..n]), Written(acts[n].place), acts[n].value, l);
    }
  }

  /** Restoring a look at another state copies it on the locations looked at. */
  lemma {:induction false} PutLook(s: Arch, t: Arch, ls: seq<Loc>, l: Loc)
    ensures Put(t, ls, Look(s, ls))[l] == if l in ls then s[l] else t[l]
  {
    if ls != [] {
      var n := |ls| - 1;
      assert Look(s, ls)[..n] == Look(s, ls[..n]);
      PutLook(s, t, ls[..n], l);
      assert l in ls <==> l in ls[..n] || l == ls[n];
    }
  }

  /** The youngest save of a location, or -1. */
  function LastSave(acts: seq<Action>, l: Loc): (j: int)
    ensures -1 <= j < |acts|
    ensures 0 <= j ==> l in Saved(acts[j].place)
    ensures forall k | j < k < |acts| :: l !in Saved(acts[k].place)
  {
    if acts == [] then -1
    else if l in Saved(acts[|acts| - 1].place) then |acts| - 1
    else LastSave(acts[..|acts| - 1], l)
  }

  /** Restoring the saves gives a location the value it had at its youngest save. */
  lemma {:induction false} UndoAt(s: Arch, t: Arch, acts: seq<Action>, l: Loc)
    requires ValidActions(acts)
    ensures Undo(t, Records(s, acts))[l] == AtLastSave(s, t, acts, l)
  {
    if acts != [] {
      var n := |acts| - 1;
      var front := acts[..n];
      UndoAt(s, t, front, l);
      assert Records(s, acts)[..n] == Records(s, front);
      PutLook(Exec(s, front), Undo(t, Records(s, front)), Saved(acts[n].place), l);
      if l !in Saved(acts[n].place) { AtLastSaveFront(s, t, acts, l); }
    }
  }

  ghost function AtLastSave(s: Arch, t: Arch, acts: seq<Action>, l: Loc): int
    requires ValidActions(acts)
  {
    var j := LastSave(acts, l);
    if j == -1 then t[l] else Exec(s, acts[..j])[l]
  }

  lemma AtLastSaveFront(s: Arch, t: Arch, acts: seq<Action>, l: Loc)
    requires ValidActions(acts) && acts != [] && l !in Saved(acts[|acts| - 1].place)
    ensures AtLastSave(s, t, acts, l) == AtLastSave(s, t, acts[..|acts| - 1], l)
  {
    var j := LastSave(acts, l);
    if j != -1 { assert acts[..|acts| - 1][..j] == acts[..j]; }
  }

  /** A location is not written before its youngest save, nor at all if it is never saved. */
  lemma NotWrittenBefore(acts: seq<Action>, l: Loc, i: nat)
    requires Undoable(Places(acts)) && i < |acts|
    requires LastSave(acts, l) == -1 || i < LastSave(acts, l)
    ensures l !in Written(acts[i].place)
  {
    assert forall k | 0 <= k < |acts| :: Places(acts)[k] == acts[k].place;
  }

  lemma UndoExactAt(s: Arch, acts: seq<Action>, l: Loc)
    requires ValidActions(acts) && Undoable(Places(acts))
    ensures Undo(Exec(s, acts), Records(s, acts))[l] == s[l]
  {
    UndoAt(s, Exec(s, acts), acts, l);
    var j := LastSave(acts, l);
    var upTo := if j == -1 then acts else acts[..j];
    forall i | 0 <= i < |upTo|
      ensures l !in Written(upTo[i].place)
    {
      NotWrittenBefore(acts, l, i);
    }
    ExecUntouched(s, upTo, l);
  }

  /** An instruction whose places are undoable is undone exactly, whatever it writes. */
  lemma UndoExact(s: Arch, acts: seq<Action>)
    requires ValidActions(acts) && Undoable(Places(acts))
    ensures Undo(Exec(s, acts), Records(s, acts)) == s
  {
    forall l: Loc
      ensures Undo(Exec(s, acts), Records(s, acts))[l] == s[l]
    {
      UndoExactAt(s, acts, l);
    }
    SameEverywhere(Undo(Exec(s, acts), Records(s, acts)), s);
  }

  lemma SameEverywhere(s: Arch, t: Arch)
    requires forall l: Loc :: s[l] == t[l]
    ensures s == t
  {
  }

  /** The state of all zeros, and actions that write nothing but ones. */
  ghost function Zeros(): Arch
  {
    imap l: Loc {:trigger Nil(l)} | true :: Nil(l)
  }

  function Nil(l: Loc): int { 0 }

  function Ones(places: seq<Place>): (acts: seq<Action>)
    ensures ValidActions(acts) && |acts| == |places|
  {
    seq(|places|, i requires 0 <= i < |places| => Action(places[i], seq(|Written(places[i])|, _ => 1)))
  }

  lemma {:induction false} OnesWritten(acts: seq<Action>, l: Loc, i: nat)
    requires ValidActions(acts)
    requires forall k, m | 0 <= k < |acts| && 0 <= m < |acts[k].value| :: acts[k].value[m] == 1
    requires i < |acts| && l in Written(acts[i].place)
    ensures Exec(Zeros(), acts)[l] == 1
  {
    var n := |acts| - 1;
    if i < n { OnesWritten(acts[..n], l, i); }
    PutAt(Exec(Zeros(), acts[..n]), Written(acts[n].place), acts[n].value, l);
  }

  /** And only those: for other places some state and some values make `recover_data` wrong. */
  lemma UndoInexact(places: seq<Place>) returns (acts: seq<Action>)
    requires !Undoable(places)
    ensures ValidActions(acts) && Places(acts) == places
    ensures Undo(Exec(Zeros(), acts), Records(Zeros(), acts)) != Zeros()
  {
    acts := Ones(places);
    assert Places(acts) == places;
    var i, l :| 0 <= i < |places| && l in Written(places[i]) && !SavedInTime(places, i, l);
    assert acts[i].place == places[i];
    WrittenThenSaved(acts, i, l);
    assert Undo(Exec(Zeros(), acts), Records(Zeros(), acts))[l] == 1;
  }

  lemma SavedLate(acts: seq<Action>, i: nat, l: Loc)
    requires i < |acts| && !SavedInTime(Places(acts), i, l)
    ensures LastSave(acts, l) == -1 || i < LastSave(acts, l)
  {
    assert forall k | 0 <= k < |acts| :: Places(acts)[k] == acts[k].place;
  }

  /** A location of a one-writing instruction that is not saved in time comes back as a one. */
  lemma WrittenThenSaved(acts: seq<Action>, i: nat, l: Loc)
    requires ValidActions(acts) && i < |acts| && l in Written(acts[i].place)
    requires forall k, m | 0 <= k < |acts| && 0 <= m < |acts[k].value| :: acts[k].value[m] == 1
    requires !SavedInTime(Places(acts), i, l)
    ensures Undo(Exec(Zeros(), acts), Records(Zeros(), acts))[l] == 1
  {
    UndoAt(Zeros(), Exec(Zeros(), acts), acts, l);
    var j := LastSave(acts, l);
    SavedLate(acts, i, l);
    OnesWritten(if j == -1 then acts else acts[..j], l, i);
  }

  /** `recover_data` restores the state before an instruction for all states and all written values
      if and only if the instruction's places are undoable. */
  lemma UndoExactIff(places: seq<Place>)
    ensures (forall s: Arch, acts | ValidActions(acts) && Places(acts) == places ::
               Undo(Exec(s, acts), Records(s, acts)) == s)
            <==> Undoable(places)
  {
    if Undoable(places) {
      forall s: Arch, acts | ValidActions(acts) && Places(acts) == places
        ensures Undo(Exec(s, acts), Records(s, acts)) == s
      {
        UndoExact(s, acts);
      }
    } else {
      var acts := UndoInexact(places);
    }
  }

  /** The places of every instruction with fast shifts: at most one, or two registers, or the two
      words of a double, or a store-conditional. */
  predicate InstructionPlaces(ps: seq<Place>)
  {
    || ps == []
    || (|ps| == 1 && (ps[0].Store? ==> Aligned(ps[0])))
    || ps == [HiReg, LoReg] || ps == [LoReg, HiReg]
    || (|ps| == 2 && ps[0].Single? && ps[1] == Single(ps[0].n + 1))
    || (|ps| == 2 && ps[0].Fix? && ps[1] == Fix(ps[0].n + 1))
    || (|ps| == 2 && ps[0].Store? && ps[1] == Store(ps[0].addr + 4, 4) && ps[0].size == 4 && Aligned(ps[0]))
    || (|ps| == 2 && ps[0].Store? && ps[1].Fix? && Aligned(ps[0]))
  }

  /** `mem_access` refuses other stores. */
  predicate Aligned(p: Place)
    requires p.Store?
  {
    p.size in {1, 2, 4} && p.addr % p.size == 0
  }

  lemma AlignedWithinWord(p: Place, l: Loc)
    requires p.Store? && Aligned(p) && l in Written(p)
    ensures l in Saved(p)
  {
    var i :| 0 <= i < |Written(p)| && Written(p)[i] == l;
    var w := p.addr - p.addr % 4;
    assert w <= p.addr + i < w + 4;
    assert Saved(p)[p.addr + i - w] == l;
  }

  lemma InstructionsUndoable(ps: seq<Place>)
    requires InstructionPlaces(ps)
    ensures Undoable(ps)
  {
    forall i, l | 0 <= i < |ps| && l in Written(ps[i])
      ensures SavedInTime(ps, i, l)
    {
      if ps[i].Store? { AlignedWithinWord(ps[i], l); }
      assert l in Saved(ps[i]);
    }
  }

  /** The loop of the slow arithmetic shift saves its register twice, and a doubleword store would
      save only its first word: both are beyond `recover_data`. */
  lemma NotUndoable(n: nat, addr: nat)
    requires addr % 8 == 0
    ensures !Undoable([Fix(n), Fix(n)]) && !Undoable([Store(addr, 8)])
  {
    assert Gpr(n) in Written([Fix(n), Fix(n)][0]) && Gpr(n) in Saved([Fix(n), Fix(n)][1]);
    var p := [Store(addr, 8)];
    assert Written(p[0])[4] == Mem(addr + 4);
    assert Mem(addr + 4) in Written(p[0]) && Mem(addr + 4) !in Saved(p[0]);
  }
}
