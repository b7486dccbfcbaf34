/** What a flush restarts.  `pipeline_flush` restores the state before the head of the reorder queue
    and fetches from its address, or from the branch before it when the head is a delay slot. */
module Replay {
  import opened UndoLog
  import P = PreciseState

  /** An instruction is what its implementation in `mips.def` makes of the state.  A branch writes
      its link register first and reads its operands afterwards; `likely` branches skip the delay
      slot when they are not taken. */
  datatype Op =
    | Plain(effect: Arch -> seq<Action>)
    | Branch(link: Target, target: Arch -> Target, likely: bool)

  datatype Target = None | At(n: nat)

  /** The instruction to be executed next and the one after it; `bd` marks a delay slot. */
  datatype Config = Config(pc: nat, npc: nat, bd: bool, s: Arch)

  ghost predicate ValidProgram(fetch: nat -> Op)
  {
    forall pc: nat, s: Arch | fetch(pc).Plain? :: ValidActions(fetch(pc).effect(s))
  }

  /** The state after the link register of a branch at `pc` is written. */
  ghost function Linked(s: Arch, op: Op, pc: nat): Arch
    requires op.Branch?
  {
    if op.link.None? then Cleared(s) else Cleared(s)[Gpr(op.link.n) := pc + 8]
  }

  /** Execution in program order. */
  ghost function Step(fetch: nat -> Op, c: Config): Config
    requires ValidProgram(fetch)
  {
    match fetch(c.pc)
    case Plain(effect) => Config(c.npc, c.npc + 4, false, Exec(Cleared(c.s), effect(Cleared(c.s))))
    case Branch(link, target, likely) =>
      var s := Linked(c.s, fetch(c.pc), c.pc);
      match target(s)
      case At(t) => Config(c.npc, t, true, s)
      case None => if likely then Config(c.npc + 4, c.npc + 8, false, s) else Config(c.npc, c.npc + 4, true, s)
  }

  ghost function Steps(fetch: nat -> Op, c: Config, n: nat): Config
    requires ValidProgram(fetch)
  {
    if n == 0 then c else Step(fetch, Steps(fetch, c, n - 1))
  }

  /** No branch stands in a delay slot (`decode_stage` stops on one). */
  ghost predicate NoBranchInSlot(fetch: nat -> Op, c: Config, n: nat)
    requires ValidProgram(fetch)
  {
    forall k | 0 <= k < n :: Steps(fetch, c, k).bd ==> fetch(Steps(fetch, c, k).pc).Plain?
  }

  /** Where `pipeline_flush` restarts when the head is at `c` and the restored state is `s`. */
  ghost function Restart(c: Config, s: Arch): Config
  {
    var pc := if c.bd && 4 <= c.pc then c.pc - 4 else c.pc;
    Config(pc, pc + 4, false, s)
  }

  /** Outside a delay slot the two addresses are adjacent; in one, the branch is just before and,
      executed again on its own result, leads to the same configuration. */
  ghost predicate Reachable(fetch: nat -> Op, c: Config)
    requires ValidProgram(fetch)
  {
    if !c.bd then c.npc == c.pc + 4
    else
      && 4 <= c.pc && fetch(c.pc - 4).Branch?
      && Linked(c.s, fetch(c.pc - 4), c.pc - 4) == c.s
      && (match fetch(c.pc - 4).target(c.s)
          case At(t) => c.npc == t
          case None => !fetch(c.pc - 4).likely && c.npc == c.pc + 4)
  }

  lemma {:induction false} StepsReachable(fetch: nat -> Op, c: Config, n: nat)
    requires ValidProgram(fetch) && Reachable(fetch, c) && NoBranchInSlot(fetch, c, n)
    ensures Reachable(fetch, Steps(fetch, c, n))
  {
  }

  /** The first instruction after a restart: the branch leads back to `c`, and any other instruction
      is the one at `c`. */
  lemma RestartStep(fetch: nat -> Op, c: Config, s: Arch)
    requires ValidProgram(fetch) && Reachable(fetch, c) && Alike(s, c.s)
    ensures Step(fetch, Restart(c, s)) == if c.bd then c else Step(fetch, c)
  {
    AlikeCleared(s, c.s);
  }

  /** Replay is exact.  A program runs from its start to a configuration `c`, whose instruction is at
      the head of the reorder queue, and on for `n` instructions; a flush restores a state that is
      like that of `c`.  Restarting there and running those `n` instructions again, with the branch
      first when `c` is a delay slot, ends in the same configuration. */
  lemma {:induction false} ReplayExact(fetch: nat -> Op, start: Config, k: nat, s: Arch, n: nat)
    requires ValidProgram(fetch) && !start.bd && start.npc == start.pc + 4
    requires NoBranchInSlot(fetch, start, k) && 0 < n
    requires Alike(s, Steps(fetch, start, k).s)
    ensures var c := Steps(fetch, start, k);
            Steps(fetch, Restart(c, s), if c.bd then n + 1 else n) == Steps(fetch, c, n)
  {
    var c := Steps(fetch, start, k);
    var r := Restart(c, s);
    StepsReachable(fetch, start, k);
    RestartStep(fetch, c, s);
    if c.bd {
      StepAhead(fetch, r, c, n);
    } else {
      SameStep(fetch, r, c, n);
    }
  }

  lemma {:induction false} StepAhead(fetch: nat -> Op, r: Config, c: Config, n: nat)
    requires ValidProgram(fetch) && Step(fetch, r) == c
    ensures Steps(fetch, r, n + 1) == Steps(fetch, c, n)
  {
    if n == 0 {
      assert Steps(fetch, r, 0) == r;
    } else {
      StepAhead(fetch, r, c, n - 1);
      assert Steps(fetch, r, n + 1) == Step(fetch, Steps(fetch, r, n));
    }
  }

  lemma {:induction false} SameStep(fetch: nat -> Op, r: Config, c: Config, n: nat)
    requires ValidProgram(fetch) && Step(fetch, r) == Step(fetch, c) && 0 < n
    ensures Steps(fetch, r, n) == Steps(fetch, c, n)
  {
    if n == 1 {
      assert Steps(fetch, r, 0) == r && Steps(fetch, c, 0) == c;
    } else {
      SameStep(fetch, r, c, n - 1);
    }
  }

  // ---------------------------------------------------------------- flush and replay

  /** What the instruction at `c` writes. */
  ghost function Acts(fetch: nat -> Op, c: Config): (acts: seq<Action>)
    requires ValidProgram(fetch)
    ensures ValidActions(acts)
  {
    match fetch(c.pc)
    case Plain(effect) => effect(Cleared(c.s))
    case Branch(link, _, _) => if link.None? then [] else [Action(Fix(link.n), [c.pc + 8])]
  }

  lemma StepActs(fetch: nat -> Op, c: Config)
    requires ValidProgram(fetch)
    ensures Step(fetch, c).s == Exec(Cleared(c.s), Acts(fetch, c))
  {
    var op, s := fetch(c.pc), Cleared(c.s);
    if op.Branch? && op.link.At? {
      var acts := Acts(fetch, c);
      assert acts[..0] == [] && Exec(s, acts[..0]) == s;
      assert Put(s, [Gpr(op.link.n)], [c.pc + 8]) == s[Gpr(op.link.n) := c.pc + 8] by {
        assert Put(s, [Gpr(op.link.n)][..0], [c.pc + 8][..0]) == s;
      }
    }
  }

  /** The program writes to registers that there are. */
  ghost predicate FittingProgram(fetch: nat -> Op)
    requires ValidProgram(fetch)
  {
    forall c: Config :: AllFit(Acts(fetch, c))
  }

  /** The program writes only what can be undone. */
  ghost predicate UndoableProgram(fetch: nat -> Op)
    requires ValidProgram(fetch)
  {
    forall c: Config :: Undoable(Places(Acts(fetch, c)))
  }

  predicate AllFit(acts: seq<Action>)
  {
    forall i | 0 <= i < |acts| :: P.Fits(acts[i].place)
  }

  /** What the instruction at `c` saves. */
  ghost function Entry(fetch: nat -> Op, c: Config): P.Inst
    requires ValidProgram(fetch)
  {
    P.Inst(0, Records(Cleared(c.s), Acts(fetch, c)))
  }

  lemma StepExecuted(fetch: nat -> Op, c: Config)
    requires ValidProgram(fetch) && FittingProgram(fetch)
    ensures P.Executed(c.s, Acts(fetch, c), Entry(fetch, c), Step(fetch, c).s)
  {
    StepActs(fetch, c);
    P.RecordsFit(Cleared(c.s), Acts(fetch, c));
  }

  /** The states before, between and after the `n` instructions from `c` on, what they write, and the
      entries that they leave in the queues. */
  ghost function StatesOf(fetch: nat -> Op, c: Config, n: nat): (states: seq<Arch>)
    requires ValidProgram(fetch)
    ensures |states| == n + 1 && states[n] == Steps(fetch, c, n).s && states[0] == c.s
  {
    if n == 0 then [c.s] else StatesOf(fetch, c, n - 1) + [Steps(fetch, c, n).s]
  }

  ghost function TraceOf(fetch: nat -> Op, c: Config, n: nat): (trace: seq<seq<Action>>)
    requires ValidProgram(fetch)
    ensures |trace| == n
  {
    if n == 0 then [] else TraceOf(fetch, c, n - 1) + [Acts(fetch, Steps(fetch, c, n - 1))]
  }

  ghost function LogOf(fetch: nat -> Op, c: Config, n: nat): (log: seq<P.Inst>)
    requires ValidProgram(fetch)
    ensures |log| == n
  {
    if n == 0 then [] else LogOf(fetch, c, n - 1) + [Entry(fetch, Steps(fetch, c, n - 1))]
  }

  lemma LogStep(fetch: nat -> Op, d: Config, states: seq<Arch>, trace: seq<seq<Action>>, log: seq<P.Inst>)
    requires ValidProgram(fetch) && FittingProgram(fetch)
    requires P.History(states, trace, log) && states[|log|] == d.s
    ensures P.History(states + [Step(fetch, d).s], trace + [Acts(fetch, d)], log + [Entry(fetch, d)])
  {
    StepExecuted(fetch, d);
    P.HistoryPush(states, trace, log, Acts(fetch, d), Entry(fetch, d), Step(fetch, d).s);
  }

  lemma {:induction false} LogHistory(fetch: nat -> Op, c: Config, n: nat)
    requires ValidProgram(fetch) && FittingProgram(fetch)
    ensures P.History(StatesOf(fetch, c, n), TraceOf(fetch, c, n), LogOf(fetch, c, n))
  {
    if n == 0 {
      assert P.History([c.s], [], []);
    } else {
      LogHistory(fetch, c, n - 1);
      LogStep(fetch, Steps(fetch, c, n - 1),
              StatesOf(fetch, c, n - 1), TraceOf(fetch, c, n - 1), LogOf(fetch, c, n - 1));
    }
  }

  lemma {:induction false} TraceUndoable(fetch: nat -> Op, c: Config, n: nat)
    requires ValidProgram(fetch) && UndoableProgram(fetch)
    ensures P.AllUndoable(TraceOf(fetch, c, n))
  {
    if n > 0 { TraceUndoable(fetch, c, n - 1); }
  }

  /** Flush and replay together.  A program has run to `c` and on for `n` instructions, whose saves are
      in the queues, followed by those of wrong paths; the state now is that after the `n`
      instructions.  A flush and a restart at `c` lead, by way of those instructions and of the branch
      before `c` if `c` is a delay slot, to the same configuration. */
  lemma FlushReplays(fetch: nat -> Op, start: Config, k: nat, n: nat, now: Arch, wrong: seq<P.Inst>)
    requires ValidProgram(fetch) && FittingProgram(fetch) && UndoableProgram(fetch)
    requires !start.bd && start.npc == start.pc + 4
    requires NoBranchInSlot(fetch, start, k) && 0 < n
    requires Alike(now, Steps(fetch, Steps(fetch, start, k), n).s)
    requires forall i | 0 <= i < |wrong| :: wrong[i].specLevel != 0 && wrong[i].saves == []
    ensures var c := Steps(fetch, start, k);
            var log := LogOf(fetch, c, n) + wrong;
            && P.Recoverable(log)
            && var s := P.UndoAll(now, log);
            Steps(fetch, Restart(c, s), if c.bd then n + 1 else n) == Steps(fetch, c, n)
  {
    var c := Steps(fetch, start, k);
    var log := LogOf(fetch, c, n);
    LogHistory(fetch, c, n);
    TraceUndoable(fetch, c, n);
    P.HistoryRecoverable(StatesOf(fetch, c, n), TraceOf(fetch, c, n), log);
    P.UndoAllSplit(now, log, wrong);
    P.UndoWrongPath(now, wrong);
    P.FlushExact(now, StatesOf(fetch, c, n), TraceOf(fetch, c, n), log);
    ReplayExact(fetch, start, k, P.UndoAll(now, log + wrong), n);
  }
}
