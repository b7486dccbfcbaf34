/** The instructions in flight, from the reorder-queue head to the youngest decoded one, and the two
    ways back: a flush for an exception (`pipeline_flush`, `tracer_recover`, `recover_data`) and the
    cancellation of a wrong path (`brerr_recover`). */
module PreciseState {
  import opened Rings
  import opened UndoLog

  // ---------------------------------------------------------------- the instructions in flight

  /** The fields of an instruction that recovery looks at. */
  datatype Inst = Inst(specLevel: nat, saves: seq<Record>)

  /** An instruction that was executed in state `s` and left state `t`; decode clears register 0
      first.  On a wrong path there are no actions: it writes only to speculative copies. */
  ghost predicate Executed(s: Arch, acts: seq<Action>, inst: Inst, t: Arch)
  {
    && ValidActions(acts)
    && t == Exec(Cleared(s), acts) && inst.saves == Records(Cleared(s), acts)
    && FitsAll(inst.saves)
    && (inst.specLevel != 0 ==> acts == [])
  }

  /** Instruction `i` led from state `i` to the next one. */
  ghost predicate ExecutedAt(states: seq<Arch>, trace: seq<seq<Action>>, log: seq<Inst>, i: nat)
    requires |states| == |log| + 1 && |trace| == |log| && i < |log|
  {
    Executed(states[i], trace[i], log[i], states[i + 1])
  }

  /** `states[i]` is the state before instruction `i`, and the last one the state after them all. */
  ghost predicate History(states: seq<Arch>, trace: seq<seq<Action>>, log: seq<Inst>)
  {
    && |states| == |log| + 1 && |trace| == |log|
    && forall i | 0 <= i < |log| :: ExecutedAt(states, trace, log, i)
  }

  /** `recover_data` skips wrong-path instructions. */
  ghost function UndoOne(s: Arch, inst: Inst): Arch
    requires ValidRecords(inst.saves)
  {
    if inst.specLevel == 0 then Undo(s, inst.saves) else s
  }

  /** The whole flush, youngest instruction first. */
  ghost function UndoAll(s: Arch, log: seq<Inst>): Arch
    requires forall i | 0 <= i < |log| :: ValidRecords(log[i].saves)
  {
    if log == [] then s else UndoAll(UndoOne(s, log[|log| - 1]), log[..|log| - 1])
  }

  lemma {:induction false} PutAlike(s: Arch, t: Arch, ls: seq<Loc>, vs: seq<int>)
    requires Alike(s, t) && |ls| == |vs|
    ensures Alike(Put(s, ls, vs), Put(t, ls, vs))
  {
    if ls != [] { PutAlike(s, t, ls[..|ls| - 1], vs[..|ls| - 1]); }
  }

  lemma {:induction false} UndoAlike(s: Arch, t: Arch, recs: seq<Record>)
    requires Alike(s, t) && ValidRecords(recs)
    ensures Alike(Undo(s, recs), Undo(t, recs))
  {
    if recs != [] {
      var n := |recs| - 1;
      UndoAlike(s, t, recs[..n]);
      PutAlike(Undo(s, recs[..n]), Undo(t, recs[..n]), Saved(recs[n].place), recs[n].saved);
    }
  }

  /** Undoing one instruction steps back over it. */
  lemma UndoOneExact(now: Arch, s: Arch, acts: seq<Action>, inst: Inst, t: Arch)
    requires Executed(s, acts, inst, t) && Alike(now, t) && Undoable(Places(acts))
    ensures ValidRecords(inst.saves) && Alike(UndoOne(now, inst), s)
  {
    UndoAlike(now, t, inst.saves);
    UndoExact(Cleared(s), acts);
  }

  ghost predicate AllUndoable(trace: seq<seq<Action>>)
  {
    trace == [] || (AllUndoable(trace[..|trace| - 1]) && Undoable(Places(trace[|trace| - 1])))
  }

  /** The state is `s` again if all the instructions can be undone. */
  ghost predicate Restored(trace: seq<seq<Action>>, now: Arch, s: Arch)
  {
    AllUndoable(trace) ==> Alike(now, s)
  }

  lemma HistoryPrefix(states: seq<Arch>, trace: seq<seq<Action>>, log: seq<Inst>, n: nat)
    requires History(states, trace, log) && n <= |log|
    ensures History(states[..n + 1], trace[..n], log[..n])
  {
    var states', trace', log' := states[..n + 1], trace[..n], log[..n];
    forall i | 0 <= i < n
      ensures ExecutedAt(states', trace', log', i)
    {
      assert ExecutedAt(states, trace, log, i);
    }
  }

  /** A flush is exact when each instruction is: undoing everything in flight, youngest first, gives
      the state before the oldest instruction, up to register 0, which the next decode clears. */
  lemma {:induction false} FlushExact(now: Arch, states: seq<Arch>, trace: seq<seq<Action>>, log: seq<Inst>)
    requires History(states, trace, log) && AllUndoable(trace) && Alike(now, states[|log|])
    ensures forall i | 0 <= i < |log| :: ValidRecords(log[i].saves)
    ensures Alike(UndoAll(now, log), states[0])
  {
    if log != [] {
      var n := |log| - 1;
      assert ExecutedAt(states, trace, log, n);
      UndoOneExact(now, states[n], trace[n], log[n], states[n + 1]);
      HistoryPrefix(states, trace, log, n);
      FlushExact(UndoOne(now, log[n]), states[..n + 1], trace[..n], log[..n]);
    }
  }

  /** A wrong path leaves no trace in the architectural state. */
  lemma {:induction false} WrongPathAlike(states: seq<Arch>, trace: seq<seq<Action>>, log: seq<Inst>, keep: nat)
    requires History(states, trace, log) && keep <= |log|
    requires forall i | keep <= i < |log| :: log[i].specLevel != 0
    ensures Alike(states[keep], states[|log|])
    decreases |log| - keep
  {
    if keep < |log| {
      assert ExecutedAt(states, trace, log, keep);
      WrongPathAlike(states, trace, log, keep + 1);
    }
  }

  predicate FitsAll(saves: seq<Record>)
  {
    forall j | 0 <= j < |saves| :: Fits(saves[j].place)
  }

  lemma {:induction false} RecordsFit(s: Arch, acts: seq<Action>)
    requires ValidActions(acts) && forall i | 0 <= i < |acts| :: Fits(acts[i].place)
    ensures FitsAll(Records(s, acts))
  {
    if acts != [] { RecordsFit(s, acts[..|acts| - 1]); }
  }

  /** The wrong paths that the trace generator is on started at the places `entries`: an instruction
      has as its level the number of those before it. */
  ghost predicate Marked(log: seq<Inst>, entries: seq<int>)
  {
    && (forall i | 0 <= i < |log| :: log[i].specLevel <= |entries|)
    && (forall i, j | 0 <= i < |log| && 0 <= j < |entries| :: entries[j] <= i <==> j < log[i].specLevel)
    && (forall j | 0 <= j < |entries| :: entries[j] <= |log|)
  }

  /** What holds of the architectural state and the instructions in flight. */
  ghost predicate InFlight(s: Arch, states: seq<Arch>, trace: seq<seq<Action>>, log: seq<Inst>, entries: seq<int>)
  {
    History(states, trace, log) && Alike(s, states[|log|]) && Marked(log, entries)
  }

  lemma HistoryPush(states: seq<Arch>, trace: seq<seq<Action>>, log: seq<Inst>, acts: seq<Action>, inst: Inst, t: Arch)
    requires History(states, trace, log) && Executed(states[|log|], acts, inst, t)
    ensures History(states + [t], trace + [acts], log + [inst])
  {
    forall i | 0 <= i <= |log|
      ensures ExecutedAt(states + [t], trace + [acts], log + [inst], i)
    {
      if i < |log| { assert ExecutedAt(states, trace, log, i); }
    }
  }

  lemma NothingInFlight(s: Arch)
    ensures InFlight(s, [s], [], [], [])
  {
  }

  lemma InFlightPush(s: Arch, states: seq<Arch>, trace: seq<seq<Action>>, log: seq<Inst>, entries: seq<int>,
                     acts: seq<Action>, inst: Inst, t: Arch)
    requires InFlight(s, states, trace, log, entries) && ValidActions(acts)
    requires forall i | 0 <= i < |acts| :: Fits(acts[i].place)
    requires t == Exec(Cleared(s), acts) && inst == Inst(|entries|, Records(Cleared(s), acts))
    requires entries != [] ==> acts == []
    ensures InFlight(t, states + [t], trace + [acts], log + [inst], entries)
  {
    AlikeCleared(s, states[|log|]);
    RecordsFit(Cleared(s), acts);
    HistoryPush(states, trace, log, acts, inst, t);
  }

  /** The places of the wrong paths after the oldest instruction has left. */
  ghost function Shifted(entries: seq<int>): seq<int>
  {
    seq(|entries|, j requires 0 <= j < |entries| => entries[j] - 1)
  }

  lemma InFlightPop(s: Arch, states: seq<Arch>, trace: seq<seq<Action>>, log: seq<Inst>, entries: seq<int>)
    requires InFlight(s, states, trace, log, entries) && log != []
    ensures InFlight(s, states[1..], trace[1..], log[1..], Shifted(entries))
  {
    var states', trace', log' := states[1..], trace[1..], log[1..];
    forall i | 0 <= i < |log'|
      ensures ExecutedAt(states', trace', log', i)
    {
      assert ExecutedAt(states, trace, log, i + 1);
    }
  }

  // ---------------------------------------------------------------- the register files and memory

  /** `regs` and the simulated memory. */
  class RegisterFile {
    const r: array<int>
    const f: array<int>
    var hi: int
    var lo: int
    var fcc: int
    var mem: map<nat, int>

    ghost predicate Valid()
    {
      r.Length == 32 && f.Length == 32 && r != f
    }

    /** The value of a location; memory that was never written reads as zero. */
    function At(l: Loc): int
      requires Valid()
      reads this, r, f
    {
      match l
      case Gpr(n) => if n < 32 then r[n] else 0
      case Fp(n) => if n < 32 then f[n] else 0
      case Hi => hi
      case Lo => lo
      case Fcc => fcc
      case Mem(a) => if a in mem then mem[a] else 0
    }

    ghost function State(): Arch
      requires Valid()
      reads this, r, f
    {
      imap l: Loc {:trigger At(l)} | true :: At(l)
    }

    constructor ()
      ensures Valid() && fresh(r) && fresh(f)
    {
      r := new int[32](_ => 0);
      f := new int[32](_ => 0);
      hi, lo, fcc, mem := 0, 0, 0, map[];
    }

    method Assign(l: Loc, v: int)
      requires Valid() && InFile(l)
      modifies this, r, f
      ensures State() == old(State())[l := v]
    {
      match l
      case Gpr(n) => r[n] := v;
      case Fp(n) => f[n] := v;
      case Hi => hi := v;
      case Lo => lo := v;
      case Fcc => fcc := v;
      case Mem(a) => mem := mem[a := v];
      assert forall k: Loc :: At(k) == if k == l then v else old(At(k));
    }

    method AssignAll(ls: seq<Loc>, vs: seq<int>)
      requires Valid() && |ls| == |vs| && forall i | 0 <= i < |ls| :: InFile(ls[i])
      modifies this, r, f
      ensures State() == Put(old(State()), ls, vs)
    {
      for i := 0 to |ls|
        invariant State() == Put(old(State()), ls[..i], vs[..i])
      {
        Assign(ls[i], vs[i]);
        assert ls[..i + 1][..i] == ls[..i] && vs[..i + 1][..i] == vs[..i];
      }
      assert ls[..|ls|] == ls && vs[..|ls|] == vs;
    }

    /** `SAVE_OLD`. */
    method SaveOld(p: Place) returns (rec: Record)
      requires Valid()
      ensures rec == Record(p, Look(State(), Saved(p)))
    {
      var ls := Saved(p);
      rec := Record(p, seq(|ls|, i requires 0 <= i < |ls| reads this, r, f => At(ls[i])));
      assert rec.saved == Look(State(), ls);
    }

    /** One instruction is executed: every macro saves, then writes. */
    method Execute(acts: seq<Action>) returns (saves: seq<Record>)
      requires Valid() && ValidActions(acts) && forall i | 0 <= i < |acts| :: Fits(acts[i].place)
      modifies this, r, f
      ensures ValidRecords(saves)
      ensures State() == Exec(old(Cleared(State())), acts)
      ensures saves == Records(old(Cleared(State())), acts)
    {
      Assign(Gpr(0), 0);
      ghost var s := State();
      saves := [];
      for i := 0 to |acts|
        invariant State() == Exec(s, acts[..i])
        invariant saves == Records(s, acts[..i])
      {
        var rec := SaveOld(acts[i].place);
        FitsWritten(acts[i].place);
        AssignAll(Written(acts[i].place), acts[i].value);
        saves := saves + [rec];
        assert acts[..i + 1][..i] == acts[..i];
      }
      assert acts[..|acts|] == acts;
    }

    /** `recover_data`. */
    method RecoverData(specLevel: nat, saves: seq<Record>)
      requires Valid() && ValidRecords(saves) && forall i | 0 <= i < |saves| :: Fits(saves[i].place)
      modifies this, r, f
      ensures State() == if specLevel == 0 then Undo(old(State()), saves) else old(State())
    {
      if specLevel != 0 {
        return;
      }
      for i := 0 to |saves|
        invariant State() == Undo(old(State()), saves[..i])
      {
        FitsWritten(saves[i].place);
        AssignAll(Saved(saves[i].place), saves[i].saved);
        assert saves[..i + 1][..i] == saves[..i];
      }
      assert saves[..|saves|] == saves;
    }
  }

  predicate InFile(l: Loc)
  {
    (l.Gpr? ==> l.n < 32) && (l.Fp? ==> l.n < 32)
  }

  /** The register numbers of an instruction. */
  predicate Fits(p: Place)
  {
    match p
    case Fix(n) => n < 32
    case Single(n) => n < 32
    case Double(n) => n < 16
    case _ => true
  }

  lemma FitsWritten(p: Place)
    requires Fits(p)
    ensures forall i | 0 <= i < |Written(p)| :: InFile(Written(p)[i])
    ensures forall i | 0 <= i < |Saved(p)| :: InFile(Saved(p)[i])
  {
  }

  // ---------------------------------------------------------------- the tracer

  class Tracer {
    const regs: RegisterFile
    const decode: RingBuffer<Inst>   // decode_data
    const roq: RingBuffer<Inst>
    var specLevel: nat
    /** The state before each instruction in flight and the present one, and what those in flight
        wrote. */
    ghost var states: seq<Arch>
    ghost var trace: seq<seq<Action>>
    /** Where in the queues the present wrong paths start. */
    ghost var entries: seq<int>

    /** Everything in flight, oldest first. */
    ghost function Log(): seq<Inst>
      requires roq.Valid() && decode.Valid()
      reads roq, roq.slots, decode, decode.slots
    {
      roq.Contents() + decode.Contents()
    }

    ghost predicate Valid()
      reads this, regs, regs.r, regs.f, roq, roq.slots, decode, decode.slots
    {
      && roq != decode && roq.slots != decode.slots && roq.Valid() && decode.Valid()
      && regs.Valid() && Separate()
      && InFlight(regs.State(), states, trace, Log(), entries) && specLevel == |entries|
    }

    ghost predicate Separate()
    {
      {roq.slots as object, decode.slots as object} !! {regs.r as object, regs.f as object}
    }

    constructor (regs: RegisterFile, decodeSize: nat, roqSize: nat)
      requires regs.Valid() && 0 < decodeSize && 0 < roqSize
      ensures Valid() && this.regs == regs && Log() == []
      ensures states == [regs.State()] && specLevel == 0 && entries == []
    {
      this.regs := regs;
      decode := new RingBuffer(decodeSize, Inst(0, []));
      roq := new RingBuffer(roqSize, Inst(0, []));
      specLevel := 0;
      states, trace, entries := [regs.State()], [], [];
    }

    method ExecuteAndPush(acts: seq<Action>) returns (inst: Inst)
      requires roq != decode && roq.slots != decode.slots && roq.Valid() && decode.Valid() && regs.Valid() && Separate()
      requires decode.num < decode.slots.Length
      requires ValidActions(acts) && forall i | 0 <= i < |acts| :: Fits(acts[i].place)
      modifies decode, decode.slots, regs, regs.r, regs.f
      ensures roq.Valid() && decode.Valid() && Log() == old(Log()) + [inst]
      ensures regs.State() == Exec(Cleared(old(regs.State())), acts)
      ensures inst == Inst(specLevel, Records(Cleared(old(regs.State())), acts))
    {
      var saves := regs.Execute(acts);
      inst := Inst(specLevel, saves);
      decode.Push(inst);
      assert Log() == old(Log()) + [inst];
    }

    /** The last part of `decode_stage`: the instruction executes and joins the queue.  On a wrong
        path the architectural state is not written. */
    method Decode(acts: seq<Action>) returns (inst: Inst)
      requires Valid() && decode.num < decode.slots.Length
      requires ValidActions(acts) && forall i | 0 <= i < |acts| :: Fits(acts[i].place)
      modifies this`states, this`trace, decode, decode.slots, regs, regs.r, regs.f
      ensures Valid()
      ensures trace == old(trace) + [if specLevel == 0 then acts else []]
      ensures Log() == old(Log()) + [inst] && inst.specLevel == specLevel
      ensures regs.State() == Exec(Cleared(old(regs.State())), if specLevel == 0 then acts else [])
    {
      var executed := if specLevel == 0 then acts else [];
      ghost var s, log := regs.State(), Log();
      inst := ExecuteAndPush(executed);
      InFlightPush(s, states, trace, log, entries, executed, inst, regs.State());
      states, trace := states + [regs.State()], trace + [executed];
    }

    /** A mispredicted branch was decoded: what follows its delay slot is a wrong path. */
    method EnterSpeculation()
      requires Valid()
      modifies this`specLevel, this`entries
      ensures Valid() && specLevel == old(specLevel) + 1 && entries == old(entries) + [|Log()|]
    {
      specLevel := specLevel + 1;
      entries := entries + [|Log()|];
    }

    /** `map_stage`: the oldest decoded instruction moves to the reorder queue. */
    method Map()
      requires Valid() && 0 < decode.num && roq.num < roq.slots.Length
      modifies decode, roq, roq.slots
      ensures Valid() && Log() == old(Log())
      ensures decode.num == old(decode.num) - 1 && roq.num == old(roq.num) + 1
    {
      var inst := decode.Pop();
      roq.Push(inst);
      assert Log() == old(Log());
    }

    /** `commit_stage`: the head leaves.  The state that a flush would restore is now the one after
        it. */
    method Commit()
      requires Valid() && 0 < roq.num
      modifies this`states, this`trace, this`entries, roq
      ensures Valid() && Log() == old(Log())[1..] && entries == Shifted(old(entries))
      ensures states == old(states)[1..] && trace == old(trace)[1..]
    {
      ghost var log, s := Log(), regs.State();
      InFlightPop(s, states, trace, log, entries);
      var inst := roq.Pop();
      states, trace, entries := states[1..], trace[1..], Shifted(entries);
      assert Log() == log[1..] && regs.State() == s;
    }

    /** The loop of `tracer_recover` over the decode queue and that of `pipeline_flush` over the
        reorder queue: youngest first. */
    method Recover(q: RingBuffer<Inst>)
      requires q.Valid() && regs.Valid() && q.slots as object != regs.r && q.slots as object != regs.f
      requires Recoverable(q.Contents())
      modifies q, regs, regs.r, regs.f
      ensures q.Valid() && q.Contents() == []
      ensures regs.State() == UndoAll(old(regs.State()), old(q.Contents()))
    {
      ghost var restored := UndoAll(regs.State(), q.Contents());
      while q.num > 0
        invariant q.Valid() && Recoverable(q.Contents()) && UndoAll(regs.State(), q.Contents()) == restored
        decreases q.num
      {
        ghost var s, log := regs.State(), q.Contents();
        var inst := q.Drop();
        regs.RecoverData(inst.specLevel, inst.saves);
        assert q.Contents() == log[..|log| - 1] && regs.State() == UndoOne(s, inst);
      }
    }

    /** `tracer_recover`: the decode queue is emptied and the trace generator is back at `level`. */
    method TracerRecover(level: nat)
      requires roq != decode && roq.slots != decode.slots && decode.Valid() && regs.Valid() && Separate()
      requires Recoverable(decode.Contents())
      modifies this`specLevel, decode, regs, regs.r, regs.f
      ensures decode.Valid() && decode.Contents() == [] && specLevel == level
      ensures regs.State() == UndoAll(old(regs.State()), old(decode.Contents()))
    {
      specLevel := level;
      Recover(decode);
    }

    /** The decode queue, then the reorder queue. */
    method RecoverBoth()
      requires roq != decode && roq.slots != decode.slots && decode.Valid() && roq.Valid() && regs.Valid() && Separate()
      requires Recoverable(decode.Contents()) && Recoverable(roq.Contents())
      modifies this`specLevel, decode, roq, regs, regs.r, regs.f
      ensures decode.Valid() && roq.Valid() && Log() == [] && specLevel == 0
      ensures regs.State() == UndoAll(UndoAll(old(regs.State()), old(decode.Contents())), old(roq.Contents()))
    {
      TracerRecover(0);
      Recover(roq);
    }

    method FlushQueues(ghost states: seq<Arch>, ghost trace: seq<seq<Action>>, ghost entries: seq<int>)
      requires roq != decode && roq.slots != decode.slots && decode.Valid() && roq.Valid() && regs.Valid() && Separate()
      requires InFlight(regs.State(), states, trace, Log(), entries)
      modifies this`specLevel, decode, roq, regs, regs.r, regs.f
      ensures decode.Valid() && roq.Valid() && Log() == [] && specLevel == 0
      ensures states != [] && Restored(trace, regs.State(), states[0])
    {
      FlushBoth(regs.State(), states, trace, roq.Contents(), decode.Contents(), entries);
      RecoverBoth();
    }

    /** `pipeline_flush`: first the decode queue, then the reorder queue, each youngest first.  If what
        each instruction in flight wrote can be undone, the architectural state is again the one
        before the oldest of them. */
    method PipelineFlush()
      requires Valid()
      modifies this, decode, roq, regs, regs.r, regs.f
      ensures Valid() && Log() == [] && specLevel == 0
      ensures Restored(old(trace), regs.State(), old(states)[0])
      ensures states == [regs.State()] && entries == []
    {
      FlushQueues(states, trace, entries);
      ghost var s := regs.State();
      NothingInFlight(s);
      states, trace, entries := [s], [], [];
      assert regs.State() == s;
    }

    /** The reorder queue down to `keep` and the whole decode queue. */
    method SquashDownTo(keep: nat) returns (level: nat)
      requires roq != decode && roq.slots != decode.slots && decode.Valid() && roq.Valid() && regs.Valid() && Separate()
      requires Recoverable(decode.Contents()) && keep < roq.num
      modifies this`specLevel, decode, roq, regs, regs.r, regs.f
      ensures decode.Valid() && roq.Valid() && Log() == old(roq.Contents())[..keep + 1]
      ensures specLevel == level == old(roq.Contents())[keep].specLevel
      ensures regs.State() == UndoAll(old(regs.State()), old(decode.Contents()))
    {
      level := roq.Get(keep).specLevel;
      roq.Truncate(keep + 1);
      TracerRecover(level);
    }

    /** `brerr_recover`: everything younger than `keep`, the mispredicted branch or its delay slot,
        is squashed.  A wrong path was entered just after it, so all of that is of a wrong path, and
        the architectural state stays. */
    method BrerrRecover(keep: nat)
      requires Valid() && keep < roq.num && keep + 1 in entries
      modifies this, decode, roq, regs, regs.r, regs.f
      ensures Valid() && Log() == old(Log())[..keep + 1] && specLevel == old(Log())[keep].specLevel
      ensures specLevel < old(specLevel) && entries == old(entries)[..specLevel]
      ensures regs.State() == old(regs.State())
      ensures states == old(states)[..keep + 2] && trace == old(trace)[..keep + 1]
    {
      EnteredAfter(Log(), entries, keep);
      InFlightPrefix(regs.State(), states, trace, Log(), entries, keep);
      SquashWrongPath(regs.State(), states, trace, roq.Contents(), decode.Contents(), keep);
      var level := SquashDownTo(keep);
      states, trace, entries := states[..keep + 2], trace[..keep + 1], entries[..level];
      assert Log() == old(Log())[..keep + 1];
    }
  }

  lemma FlushBoth(now: Arch, states: seq<Arch>, trace: seq<seq<Action>>, mapped: seq<Inst>, decoded: seq<Inst>,
                  entries: seq<int>)
    requires InFlight(now, states, trace, mapped + decoded, entries)
    ensures Recoverable(mapped) && Recoverable(decoded)
    ensures Restored(trace, UndoAll(UndoAll(now, decoded), mapped), states[0])
  {
    HistoryRecoverable(states, trace, mapped + decoded);
    UndoAllSplit(now, mapped, decoded);
    if AllUndoable(trace) {
      FlushExact(now, states, trace, mapped + decoded);
    }
  }

  /** Everything after `keep` is of a wrong path that started there. */
  predicate WrongPathAfter(log: seq<Inst>, keep: nat)
    requires keep < |log|
  {
    forall i | keep < i < |log| :: log[keep].specLevel < log[i].specLevel
  }

  /** What was decoded after a wrong path had been entered is of that path. */
  lemma EnteredAfter(log: seq<Inst>, entries: seq<int>, keep: nat)
    requires Marked(log, entries) && keep < |log| && keep + 1 in entries
    ensures WrongPathAfter(log, keep) && log[keep].specLevel < |entries|
  {
    var j :| 0 <= j < |entries| && entries[j] == keep + 1;
    assert log[keep].specLevel <= j;
    assert forall i | keep < i < |log| :: j < log[i].specLevel;
  }

  lemma InFlightPrefix(now: Arch, states: seq<Arch>, trace: seq<seq<Action>>, log: seq<Inst>, entries: seq<int>,
                       keep: nat)
    requires InFlight(now, states, trace, log, entries) && keep < |log| && WrongPathAfter(log, keep)
    ensures InFlight(now, states[..keep + 2], trace[..keep + 1], log[..keep + 1], entries[..log[keep].specLevel])
  {
    WrongPathAlike(states, trace, log, keep + 1);
    var level := log[keep].specLevel;
    forall i | 0 <= i <= keep
      ensures log[i].specLevel <= level
    {
      if level < |entries| {
        assert !(entries[level] <= keep);
      }
    }
    assert Marked(log[..keep + 1], entries[..level]);
    HistoryPrefix(states, trace, log, keep + 1);
  }

  lemma SquashWrongPath(now: Arch, states: seq<Arch>, trace: seq<seq<Action>>, mapped: seq<Inst>, decoded: seq<Inst>,
                        keep: nat)
    requires History(states, trace, mapped + decoded) && keep < |mapped| && WrongPathAfter(mapped + decoded, keep)
    ensures Recoverable(decoded) && UndoAll(now, decoded) == now
    ensures (mapped + decoded)[keep] == mapped[keep] && (mapped + decoded)[..keep + 1] == mapped[..keep + 1]
  {
    var log := mapped + decoded;
    HistoryRecoverable(states, trace, log);
    forall i | 0 <= i < |decoded|
      ensures ValidRecords(decoded[i].saves) && FitsAll(decoded[i].saves) && decoded[i].specLevel != 0
    {
      assert log[|mapped| + i] == decoded[i];
    }
    UndoWrongPath(now, decoded);
  }

  predicate Recoverable(log: seq<Inst>)
  {
    forall i | 0 <= i < |log| :: ValidRecords(log[i].saves) && FitsAll(log[i].saves)
  }

  lemma HistoryRecoverable(states: seq<Arch>, trace: seq<seq<Action>>, log: seq<Inst>)
    requires History(states, trace, log)
    ensures Recoverable(log)
  {
    assert forall i | 0 <= i < |log| :: ExecutedAt(states, trace, log, i) ==> ValidRecords(log[i].saves);
  }

  lemma {:induction false} UndoAllSplit(s: Arch, older: seq<Inst>, younger: seq<Inst>)
    requires Recoverable(older + younger)
    ensures Recoverable(older) && Recoverable(younger)
    ensures UndoAll(s, older + younger) == UndoAll(UndoAll(s, younger), older)
    decreases |younger|
  {
    assert forall i | 0 <= i < |older| :: (older + younger)[i] == older[i];
    assert forall i | 0 <= i < |younger| :: (older + younger)[|older| + i] == younger[i];
    if younger == [] {
      assert older + younger == older;
    } else {
      var n := |younger| - 1;
      assert (older + younger)[..|older| + n] == older + younger[..n];
      UndoAllSplit(UndoOne(s, younger[n]), older, younger[..n]);
    }
  }

  lemma {:induction false} UndoWrongPath(s: Arch, log: seq<Inst>)
    requires Recoverable(log) && forall i | 0 <= i < |log| :: log[i].specLevel != 0
    ensures UndoAll(s, log) == s
  {
    if log != [] { UndoWrongPath(s, log[..|log| - 1]); }
  }
}
