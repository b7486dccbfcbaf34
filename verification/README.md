# Godson-2 multi-core simulator: a verified model

This project models the parts of the multi-core Godson-2 timing simulator that have to be right
for all runs, and proves that they are: the directory protocol between the L1 caches, the credit
and reservation rules of the queues and the mesh network, the store path into the data cache, the
load/store queue, the undo log of the functional tracer, the resource counters of the pipeline, and
the data structures and arithmetic underneath.

| file | what it models |
|---|---|
| `Coherence.dfy` | the directory protocol for one block, as a state machine over atomic steps |
| `DirtyData.dfy` | what the protocol does with stored data |
| `CoherenceLimits.dfy` | concrete runs that show where the protocol's promises end |
| `L2Set.dfy` | one L2 set with many blocks, which refines the one-block protocol |
| `HomeDirectory.dfy` | the home's loops over its directory arrays, which perform the protocol's home steps |
| `MissQueue.dfy` | the miss queue and writeback queue of a processor: credits, serialization, reservation |
| `Mesh.dfy`, `InputBuffers.dfy` | the mesh of routers for one channel type, and its input buffers |
| `StorePipeline.dfy` | the three-stage path of replacements, refills, interventions and stores into the data cache |
| `Forwarding.dfy`, `LoadStoreQueue.dfy` | byte forwarding between loads and stores |
| `UndoLog.dfy`, `PreciseState.dfy`, `Replay.dfy` | saving, undoing and replaying architectural state |
| `Resources.dfy` | the counters of the reorder, branch, issue, rename and load/store resources |
| `ReadyQueue.dfy`, `CreateVector.dfy`, `Writeback.dfy`, `Scheduler.dfy` | ready queues, event queue, dependence chains and create vectors of a processor, over one pool of links |
| `EventQueue.dfy` | the global event queue |
| `Chains.dfy`, `LinkPools.dfy` | linked lists with free lists |
| `PageTable.dfy` | the inverted page table |
| `PrintParse.dfy`, `Crc.dfy` | 64-bit printing and parsing, the table-driven checksum |
| `Rings.dfy` | circular buffers |

Where the model speaks of any number of processors, entries, ways or instructions, the number is a
parameter. A step of a state machine happens at any time it is enabled, so the proofs cover every
interleaving. The source's `assert` and `panic` calls are preconditions of a step or a method (the
simulator stops there); where the model can show that one cannot fail, it does.

## What the proofs found

- The two promises of the protocol, single writer and directory coverage, do not hold in all runs.
  They hold throughout the runs without four kinds of stray steps, and after any stray step ordinary
  steps can break a promise (`Coherence.StrayIff`, `Coherence.CoherenceIff`; for a whole L2 set
  `L2Set.SetStrayIff`). The steps are: the refill of an upgrade over the SHARED copy that is
  still in the L1, where `replace_block` writes that copy back; the replacement of that copy when the
  grant is on its way; the grant of an upgrade whose processor has replaced its copy since, for which
  `scache_probe` does not look at the requester's directory bit; and the completion of a request while
  the other cache of the same processor holds the block, whose bit is dropped. Each kind occurs
  (`CoherenceLimits.StrayRefillOccurs`, `StrayGrantOccurs`, `StrayFetchOccurs`), and the first leads
  to two writers (`CoherenceLimits.UpgradeReachesTwoWriters`).
- A stored block can be lost: the home's writeback queue does not set the dirty flag when the
  writeback meets an entry that is modifying or draining the block. It is lost exactly there, when
  no other copy of the data is left (`DirtyData.LossyIff`, `CoherenceLimits.LostWriteOccurs`).
- An INTERVENTION_SHD that meets an owner's block in the writeback queue leaves it there, and a later
  INVALIDATE can make the assertion in `home_enter` fail (`CoherenceLimits.AckAssertionReachable`).
- `recover_data` restores oldest first within an instruction; it is exact if and only if no location
  is saved again after it was written (`UndoLog.UndoExactIff`). The instructions with fast shifts meet
  that, the slow arithmetic shift does not.
- The admission test for the branch queue is enough for groups of at most four instructions
  (`Resources.BranchRoomIff`); for wider ones the branches of the group must fit, which nothing checks.
  The tests for the other queues are enough at any width, that for rename registers because no
  instruction of the table has two results.
- Reading back the most negative number gives the right value but reports a range error
  (`PrintParse.SignedRoundTrip`).

## Model

| member | source | states |
|---|---|---|
| Coherence.InvSafe | cache2mem.c:188-267 | An invariant state has a single writer or only readers, and every copy, grant and writeback in flight of a data or instruction cache has its directory bit set while the L2 line is valid. |
| Coherence.LocalStepInv | cache2mem.c:903-949 | Issuing a miss, an L1 answering an intervention (from the cache or from the writeback queue), refill, store hit, eviction and sending a writeback keep the invariant, unless the step is stray. |
| Coherence.TransactionStepInv | cache2mem.c:274-601 | The L2 probe, the start and end of an L2 victim's drain, a completion that is not stray and the L2 refill keep the invariant. |
| Coherence.MessageStepInv | noc.c:146-226 | Sending an intervention, receiving an answer (accepted or retried) and a writeback's arrival keep the invariant. |
| Coherence.StrayIff | cache.c:648-697 | A step from an invariant state is stray if and only if some continuation of enabled steps, none of them stray, ends in a state that breaks single writer or coverage; and exactly the other steps keep the invariant. |
| Coherence.StrayBreaks | cache2mem.c:454-473 | Every stray step, whatever the home is doing, has such a continuation: a refill or replacement of the live SHARED copy of an owner-to-be, the grant of an upgrade whose processor has the block in a writeback, a completion while the requester's other cache holds the block. |
| Coherence.ArrivalClearsBit | cache2mem.c:580-601 | The arrival of a writeback takes the sender out of the directory, unless it is a cache of the processor whose request is modifying the block. |
| Coherence.CoherenceTheorem | cache2mem.c:188-601 | Over every run without stray steps, with any number of processors and any order of messages: single writer, many readers, and directory coverage. |
| Coherence.CoherenceIff | cache2mem.c:188-601 | A run is free of stray steps if and only if no state of it can be continued without stray steps to one that breaks a promise. |
| Coherence.ExclusiveLineTheorem | cache2mem.c:1013-1026 | In every run, with stray steps or not, an EXCLUSIVE L2 line has at most one data bit and no instruction bit. |
| Coherence.CompletionTheorem | cache2mem.c:974-1036 | When an entry leaves MQ_MODIFY_L1 nothing is unanswered, and every data or instruction cache named by the directory has given an accepted answer or holds nothing; an exclusive request leaves no other processor with anything of the block, a shared one leaves no owner at another processor. |
| Coherence.DrainTheorem | cache2mem.c:1044-1083 | A drained L2 victim is gone from every L1 and every channel. |
| Coherence.InvalidateNeverMeetsOwner | cache2mem.c:246-267 | In a clean run the assertion of `invalidate`, that it meets no owner, holds. |
| Coherence.InstAnswersShared | cache2mem.c:962-970 | An instruction cache is asked, and answers, only while the line is SHARED and never for an INTERVENTION_SHD. |
| Coherence.AckAssertsIff | noc.c:154-219 | The assertions on the status in an answer fail exactly when an owner's status answers for a line that is already SHARED. |
| CoherenceLimits.UpgradeReachesTwoWriters | cache.c:648-697 | An ordinary upgrade over a live SHARED copy leads to a reachable state with two writers. |
| CoherenceLimits.StrayRefillOccurs | cache.c:648-697 | Some clean run ends where the refill of an upgrade over the live SHARED copy, and the replacement of that copy, are next and stray. |
| CoherenceLimits.StrayGrantOccurs | cache2mem.c:454-473 | Some clean run ends where an upgrade is granted whose processor has replaced its copy since. |
| CoherenceLimits.StrayFetchOccurs | cache2mem.c:293-326 | Some clean run ends where an instruction fetch completes and drops the directory bit of the MODIFIED copy in the data cache of the same processor. |
| CoherenceLimits.AckAssertionReachable | cache2mem.c:929-949 | Even a run without stray steps reaches an answer on which the source's assertion fails, because an INTERVENTION_SHD leaves the entry it met in the writeback queue. |
| CoherenceLimits.LostWriteOccurs | cache2mem.c:1195-1222 | A run reaches a state in which the data of a store is nowhere. |
| DirtyData.LossyIff | cache2mem.c:1195-1222 | Of the steps that are not stray exactly these lose a store: a MODIFIED writeback, the only copy of the data, arrives while the home modifies or drains the L1 copies, where the dirty flag is not set. |
| DirtyData.DrainedWrites | cache2mem.c:1113-1122 | When the drain of a victim ends, a block that was stored to is marked dirty, so it is written to memory. |
| DirtyData.NoLostWrites | cache2mem.c:580-601 | Over every run without stray and lossy steps stored data is in a dirty L2 line, in an L1 or on its way home, and in the dirty line when the L2 lets the block go. |
| L2Set.StepRefines | cache2mem.c:274-601 | Each step of an L2 set with several ways and blocks is, for every block, a step of the one-block protocol or leaves it alone. |
| L2Set.ProbeMissRefines | cache2mem.c:480-511 | An L2 miss that picks a victim is a fetch for one block and the start of a drain for the other. |
| L2Set.RefillRefines | cache2mem.c:515-576 | The L2 refill is a refill for its block and changes no other block. |
| L2Set.SetStepInv | cache2mem.c:480-601 | The set invariant is kept by every step that is stray for no block. |
| L2Set.SetStrayIff | cache2mem.c:480-601 | For a whole L2 set too a step is stray if and only if some clean continuation ends with a broken promise for some block; the pending probe of another block, hit or miss, cannot prevent it. |
| L2Set.SetCoherenceTheorem | cache2mem.c:274-601 | Over every clean run of a whole L2 set: single writer and coverage for every block, and whatever an L1 or a channel holds is held by a way of the set. |
| HomeDirectory.MembersUpdate | cache2mem.c:591-598 | Writing one directory flag adds or removes exactly that processor. |
| HomeDirectory.HomeSlot.ScacheProbe | cache2mem.c:274-478 | The probe, for a data or an instruction request, with its loops over both directory arrays, leaves the home in the state that the protocol's probe step prescribes and grants exactly when that does. |
| HomeDirectory.HomeSlot.BeginDrain | cache2mem.c:496-511 | The victim's data and instruction flags are copied to the entry and its answer flags are cleared. |
| HomeDirectory.HomeSlot.SendIntervention | cache2mem.c:951-972 | The first remote cache with a directory bit and no intervention sent is chosen, the data cache of a processor before its instruction cache and that only for a SHARED line, if there is one and the router has room. |
| HomeDirectory.HomeSlot.AllAcksReceived | cache2mem.c:974-983 | The loop reports true exactly when all tracked data and instruction caches have answered and nothing sent is unanswered. |
| HomeDirectory.HomeSlot.CompleteModify | cache2mem.c:985-1036 | Completion sets status, data and instruction flags as the protocol's completion step prescribes. |
| HomeDirectory.HomeSlot.ReceiveAck | noc.c:146-226 | An answer of a data or instruction cache is booked, or the sent flag cleared for a retry, and the dirty flag is set, as the protocol prescribes; answers to an INTERVENTION_SHD are booked for the data cache. |
| HomeDirectory.HomeSlot.IssueWriteback | cache2mem.c:1165-1259 | A writeback clears the bit in the active entry, or in the L2 line with the dirty flag if the line is valid, wakes a waiting request of the same processor, and waits while the line is being read; the answer of the home's own instruction cache is booked by its status. |
| MissQueue.UpdateOk | cache2mem.c:1690-1702 | An entry may change in any way that makes no request active and no new miss of its own: serialization and the bound on own misses stay. |
| MissQueue.WritebackMatchesOne | cache2mem.c:1165-1226 | A writeback finds at most one active transaction at its home. |
| MissQueue.EnteredOk | cache2mem.c:754-816 | A data miss that passed the screening keeps the queue's invariants. |
| MissQueue.MissUnit.constructor | noc.c:285-319 | The initial credits are the sizes of the queues. |
| MissQueue.MissUnit.FindEmptyEntry | cache2mem.c:605-640 | The circular search finds an empty entry if and only if not all are in use. |
| MissQueue.MissUnit.ChangeState | cache2mem.c:1690-1702 | Leaving MQ_EMPTY takes one credit of both request channels, entering it clears the entry. |
| MissQueue.MissUnit.EnterRequest | noc.c:92-113 | A request that the router let in always finds an entry, and the credits and counts move together. |
| MissQueue.MissUnit.EnterIntervention | noc.c:124-144 | The same for an intervention, for which one credit is enough. |
| MissQueue.MissUnit.AcceptInstMiss | cache2mem.c:817-842 | An instruction miss takes an empty entry and keeps every invariant; the assertions on the request credits hold, since no credit is owed at that point of a turn. |
| MissQueue.MissUnit.ScreenDataMiss | cache2mem.c:757-793 | A data miss enters if and only if every entry for its block is an issued READ_SHD and it wants to own the block; then it becomes an UPGRADE. |
| MissQueue.MissUnit.AcceptDataMiss | cache2mem.c:754-816 | A data miss enters, turns a waiting READ_SHD into a READ_EX, or is dropped; the whole new state is given in each case, and the credit assertions hold. |
| MissQueue.MissUnit.IssueMiss | cache2mem.c:845-888 | A miss that is not held back leaves MQ_L1_MISS if and only if no other entry is active on its L2 set and no READ_SHD is ahead of an UPGRADE; active requests of one set stay unique. |
| MissQueue.MissUnit.Advance | cache2mem.c:903-1036 | The moves of an active entry keep credits, counts and serialization. |
| MissQueue.MissUnit.MissL2 | cache2mem.c:480-511 | An L2 miss records a victim of its own set and keeps the invariants. |
| MissQueue.MissUnit.Respond | cache2mem.c:1288-1336 | A response empties its entry and owes one credit. |
| MissQueue.MissUnit.TickDelays | cache2mem.c:1567-1580 | One pass moves every delayed entry one step; the entries freed and the credits owed balance. |
| MissQueue.MissUnit.UpdateCredit | noc.c:247-264 | A credit event returns the credit; the two request credits stay equal and no credit exceeds its queue. |
| MissQueue.MissUnit.WtbkqEnter | cache2mem.c:1587-1620 | With a reserved slot the circular search always ends at a free one. |
| MissQueue.MissUnit.EnterWriteback | noc.c:115-123 | A writeback from the network uses a slot and a credit. |
| MissQueue.MissUnit.ReserveReplace | cache2mem.c:1484-1529 | A replacement is handed to the data cache if and only if two slots were free, and reserves one, for which there is credit. |
| MissQueue.MissUnit.CheckRoom | cache2mem.c:1154-1155 | When two slots are free after at most one writeback has answered an intervention, a credit of the writeback channel is left. |
| MissQueue.MissUnit.SendOther | cache2mem.c:1407-1420 | An intervention or a refill word takes the bus and reserves nothing. |
| MissQueue.MissUnit.ReplaceInst | cache.c:672-697 | The instruction cache reserves a slot, for which there is credit, and uses it at once, or gives it back. |
| MissQueue.MissUnit.DcacheStage | cache.c:672-697 | The replacement in the data-cache stage uses the reserved slot, or gives it back when the way was empty. |
| MissQueue.MissUnit.TakeWriteback | cache2mem.c:1138-1284 | A writeback that leaves frees its slot and owes one credit. |
| Mesh.GrantStaysInMesh | noc_rr.c:77-193 | A granted packet makes no U-turn, does not leave the mesh, and is delivered only at its destination. |
| Mesh.StepInv | noc.c:322-633 | Every step keeps, for every link: upstream credit, flits in flight, occupied slots and credits in flight sum to the buffer size, and packets are on their route. |
| Mesh.StepConserves | noc.c:373-633 | No step loses or duplicates a packet. |
| Mesh.MeshTheorem | noc.c:285-633 | Over every run: link conservation, an arriving flit always finds a free slot, and what was sent is in the network or delivered. |
| Mesh.RouteGetsCloser | noc_rr.c:98-181 | Each hop of the dimension-order route brings a packet one step closer. |
| Mesh.RoundRobinServes | noc_rr.c:105-112 | The round robin grants an input if and only if one requests, and the first one after the last grant. |
| InputBuffers.InputBuffer.Place | noc.c:373-406 | The search for a free slot puts a packet at the end of the queue. |
| InputBuffers.InputBuffer.NocRequest | noc.c:322-371 | A local request is taken if and only if the buffer is not full. |
| InputBuffers.InputBuffer.Depart | noc.c:409-458 | The head leaves and the search for the next head keeps the order of the queue. |
| InputBuffers.GrantInput | noc_rr.c:105-112 | The arbiter's loop is the round robin of the mesh. |
| StorePipeline.MarkValidProper | cache.c:742-745 | `mark_valid` gives SHARED, EXCLUSIVE or MODIFIED, never the undefined code 6. |
| StorePipeline.DirtyKeepsLinesOk | lsq.c:193-211 | Setting the dirty bit of an owned block gives MODIFIED, or DIRTY_INVALID on the block under exclusive refill. |
| StorePipeline.CompareArms | lsq.c:214-374 | What the tag-compare stage tells the queue leaves every ready store pointing at an owned block. |
| StorePipeline.ReplaceKeepsSlots | cache.c:627-739 | After a replacement every ready store points at an owned block or is about to be told. |
| StorePipeline.IntervenesKeepsSlots | cache2mem.c:188-267 | The same after an intervention. |
| StorePipeline.FillKeepsSlots | lsq.c:544-560 | The same after a refill word and after the block becomes valid. |
| StorePipeline.ProbeKeepsSlots | cache.c:474-590 | A probed store that hits points at an owned block. |
| StorePipeline.Unit.DcacheWrite | lsq.c:193-211 | A retiring store writes only a block that is held exclusively or under exclusive refill; it never dirties a shared block. |
| StorePipeline.Unit.Dtagcmp | lsq.c:214-398 | Every slot of the queue becomes what the packet or the probe prescribes. |
| StorePipeline.Unit.DcacheReplace | cache.c:627-739 | The line that is taken is the last shared copy of the block or the given way, and is never under refill, as the source asserts. |
| StorePipeline.Unit.DcacheIntervene | cache2mem.c:188-267 | The first line that holds the block becomes SHARED or INVALID, and no other line changes. |
| StorePipeline.Unit.DcacheFill | lsq.c:544-560 | Each word is recorded; the fourth makes the block valid and keeps a store that came before it. |
| StorePipeline.Unit.DcacheStore | cache.c:474-590 | A probe hits an owned block or a refilled word of an exclusive refill, and makes an EXCLUSIVE block MODIFIED. |
| StorePipeline.Unit.LsqStage | lsq.c:151-612 | A whole cycle, for any packet, store and way, keeps the invariant. |
| Forwarding.BytemaskExact | lsq.c:97-145 | The mask of an access has exactly the bytes that it touches. |
| Forwarding.CoverExact | lsq.c:86-94 | A byte is covered if and only if some matching store in the range writes it. |
| Forwarding.LoadReadyExact | lsq.c:401-452 | A byte of a missing load is outstanding if and only if the load needs it and no older matching store covers it. |
| Forwarding.GivenExact | lsq.c:453-474 | An arriving store gives a younger load exactly the bytes that no closer store covers. |
| Forwarding.YoungestAfterArrival | lsq.c:453-474 | The arriving store becomes the youngest supplier of exactly the bytes that it gives. |
| LoadStoreQueue.QueueOkLoad | lsq.c:401-452 | The arrival of a load keeps: an unmarked load looks at the youngest arrived store for each byte. |
| LoadStoreQueue.QueueOkStore | lsq.c:453-486 | The arrival of a store keeps that and marks every load that had already taken other bytes. |
| LoadStoreQueue.QueueOkPop | lsq.c:493-504 | So does the departure of the oldest entry, whose bytes are then in the cache. |
| LoadStoreQueue.CommittedReadsInOrder | commit.c:433-442 | A load that commits unmarked took every byte from the youngest older store that writes it, arrived or not at the time. |
| LoadStoreQueue.Lsq.ScanBack | lsq.c:401-422 | The circular scan with its early exit finds the bytes that older stores cover. |
| LoadStoreQueue.Lsq.ScanForward | lsq.c:453-474 | The circular scan with its early exit changes exactly the loads that the store gives bytes to. |
| LoadStoreQueue.Lsq.ArriveLoad | lsq.c:376-452 | The new `byterdy`, and where the bytes come from. |
| LoadStoreQueue.Lsq.ArriveStore | lsq.c:376-486 | The new queue, and where the bytes of the younger loads come from. |
| LoadStoreQueue.Lsq.SelectWriteback | lsq.c:162-176 | The oldest entry that has all its bytes, other than the last one selected, is selected; none if and only if there is none. |
| LoadStoreQueue.Lsq.SelectMiss | lsq.c:178-191 | The oldest entry that needs a miss request is found, and none if and only if there is none. |
| LoadStoreQueue.Lsq.Commit | commit.c:433-442 | A commit without the exception flag reads in program order. |
| LoadStoreQueue.Lsq.Cancel | lsq.c:614-625 | Squashing the youngest entry keeps the invariant. |
| UndoLog.UndoAt | commit.c:217-258 | Restoring the saves gives a location the value it had at its youngest save. |
| UndoLog.UndoExact | commit.c:211-261 | An instruction whose written locations are saved in time is undone exactly, whatever it writes. |
| UndoLog.UndoInexact | commit.c:211-261 | For any other list of places there are values for which the restored state is wrong. |
| UndoLog.UndoExactIff | decode.c:434-557 | `recover_data` is exact for all states and values if and only if each written location is saved no later than it is written and not saved again. |
| UndoLog.InstructionsUndoable | mips.def:615-1590 | The places of the instructions with fast shifts meet that condition. |
| UndoLog.NotUndoable | mips.def:1005-1036 | The slow arithmetic shift, which saves its register in a loop, and a doubleword store do not. |
| PreciseState.UndoOneExact | commit.c:211-261 | Undoing one instruction steps back over it. |
| PreciseState.FlushExact | commit.c:264-368 | If what each instruction in flight wrote can be undone, undoing all of them, youngest first, restores the state before the oldest instruction. |
| PreciseState.WrongPathAlike | writeback.c:191-297 | A wrong path leaves the architectural state alone. |
| PreciseState.EnteredAfter | decode.c:1252-1278 | Everything decoded after a wrong path was entered is of that path. |
| PreciseState.RegisterFile.Execute | decode.c:434-557 | An executed instruction saves, then writes, macro by macro. |
| PreciseState.RegisterFile.RecoverData | commit.c:211-261 | The loop restores the saves oldest first, and skips wrong-path instructions. |
| PreciseState.Tracer.Decode | decode.c:915-924 | Any decoded instruction joins the log of what is in flight; on a wrong path nothing is written. |
| PreciseState.Tracer.EnterSpeculation | decode.c:1252-1278 | A wrong path starts at the present end of the queues, and nothing in flight changes its level. |
| PreciseState.Tracer.Map | map.c:156-215 | Mapping moves an instruction between the queues and leaves the log as it is. |
| PreciseState.Tracer.Commit | commit.c:444-475 | A commit moves the state to which a flush returns past one instruction. |
| PreciseState.Tracer.TracerRecover | decode.c:81-169 | The decode queue is undone, youngest first. |
| PreciseState.Tracer.PipelineFlush | commit.c:264-368 | A flush empties both queues and, if what the instructions in flight wrote can be undone, restores the state before the reorder-queue head. |
| PreciseState.Tracer.BrerrRecover | writeback.c:191-297 | Where a wrong path was entered just after an instruction, cancelling all that is younger keeps the state and everything up to that instruction. |
| Replay.StepsReachable | mips.def:1465-1493 | A branch writes its link register first and reads afterwards, so executing it again on its own result leads to the same place. |
| Replay.ReplayExact | commit.c:264-274 | Replay from the flush address, or from the branch before a delay slot, reaches the same configuration as the run without the flush. |
| Replay.FlushReplays | commit.c:264-368 | Flush and replay together: a program runs on for some instructions, wrong paths follow, the saves in the queues are undone youngest first and the program restarts; it reaches the configuration it had before the flush. |
| Resources.LedgerPop | commit.c:444-475 | Retiring the oldest instruction takes what it held from every total, and its branch from the front. |
| Resources.BranchRoomIff | map.c:128-130 | The two entries that the admission test leaves in the branch queue are enough for every group if and only if a group has at most four instructions. |
| Resources.AlternatingBranches | decode.c:871-886 | With delay slots at most every second instruction is a branch. |
| Resources.BackEnd.MapOne | map.c:156-262 | Mapping one instruction keeps all counters equal to what the reorder queue holds. |
| Resources.BackEnd.MapStage | map.c:121-273 | A group is mapped only when every queue has room; no queue overflows, rename registers included, and all counters stay exact; the branches of the group must fit the branch queue. |
| Resources.BackEnd.SmallGroupsFit | map.c:128-130 | When the admission test passes, the branches of a group of at most four instructions fit. |
| Resources.BackEnd.Issue | issue.c:368-481 | Issuing gives back one place of the right issue queue. |
| Resources.BackEnd.Commit | commit.c:433-475 | Retirement keeps the counters exact, and a retiring branch is the head of the branch queue, as the source asserts. |
| Resources.BackEnd.LsqFree | lsq.c:493-504 | A committed entry leaves the load/store queue, whose counter stays within its size. |
| Resources.BackEnd.Squash | commit.c:300-356 | Squashing the youngest instruction gives everything back. |
| Resources.BackEnd.SquashDownTo | writeback.c:217-288 | A cancelled wrong path gives everything back down to the branch. |
| Resources.BackEnd.Flush | commit.c:264-368 | After a flush nothing is held but by committed loads and stores. |
| LinkPools.LinkPool.NoSharing | map.c:70-90 | No link is in two lists, twice in one, or in a list and free. |
| LinkPools.LinkPool.constructor | map.c:70-90 | All links of the pool are free at first. |
| LinkPools.LinkPool.InsertNew | godson2_cpu.h:346-355 | A free link is filled and spliced into one list; the other lists stay as they are, and all lists and the free list together keep the number of links. |
| LinkPools.LinkPool.Remove | godson2_cpu.h:358-363 | A link is spliced out of its list and becomes free, with the same conservation. |
| LinkPools.LinkPool.FreeList | godson2_cpu.h:365-374 | A whole list goes to the free list. |
| ReadyQueue.SplicedSorted | issue.c:103-132 | Insertion keeps program order. |
| ReadyQueue.FirstLiveOldest | issue.c:246-267 | The first unsquashed link is the oldest unsquashed one. |
| ReadyQueue.ReadyOnce | writeback.c:397-424 | An instruction that can issue has exactly one live link in the ready queues, in that of its unit. |
| ReadyQueue.ReadyOnly | issue.c:350-361 | A live link in a ready queue belongs to a mapped and queued instruction with all operands ready that has neither been issued nor completed: the panic of the issue stage cannot happen. |
| ReadyQueue.EventOnly | writeback.c:320-324 | A live link in the event queue belongs to an instruction with all operands ready that has been issued, is not queued and has not completed, and is the only one: the first panic of the write-back stage cannot happen. |
| ReadyQueue.EventOnce | issue.c:440-455 | An instruction that executes, and is no memory operation, has exactly one live event. |
| ReadyQueue.WaitsOnce | decode.c:636-680 | An operand that is not ready has exactly one live link in the chains, in one of an older instruction that is still there. |
| ReadyQueue.WakeGood | writeback.c:397-431 | Following a link of a chain finds its operand not ready, as the source checks, and keeps all of this. |
| ReadyQueue.YoungestChainsDead | commit.c:289-356 | The youngest instruction has no live dependants, so the flush, which takes the youngest first, frees only dead links. |
| ReadyQueue.CutGood | writeback.c:229-234 | While everything younger than an instruction is cancelled, freeing the chains of one that goes, with the live links of others that are to go after it, takes nothing from those that stay. |
| ReadyQueue.CancelGood | writeback.c:236-262 | Changing the tag of an instruction that is cancelled takes nothing from those that stay. |
| CreateVector.Inherited | decode.c:712-715 | An entry of a create vector stands in all levels from that of its instruction on. |
| CreateVector.ClearedForgotten | decode.c:717-746 | Clearing one register from the level of the instruction on, up to the first entry that is another one, clears every entry for the result in all levels. |
| CreateVector.NothingToName | decode.c:717-746 | No create vector names an instruction that has completed. |
| CreateVector.InstalledTraced | decode.c:682-710 | Entering a result keeps program order, levels and create vectors right. |
| CreateVector.LevelCopied | decode.c:712-715 | The copy of the vector for a new level is right. |
| CreateVector.OpenIdle | commit.c:523-528 | An instruction that has completed, or a record that is not in use, has no dependants, and can go or be used. |
| CreateVector.TracedCut | decode.c:96 | When the instructions of all deeper levels have gone, the create vectors of the levels that are left name only instructions that are still there, and are right. |
| Writeback.ProgressTwice | writeback.c:311-436 | Through any number of events a live link leaves a chain only when its operand is ready, and the event queue only when its instruction has completed. |
| Scheduling.Scheduler.InsertSorted | issue.c:103-132 | A link is put at its place in a ready queue or in the event queue. |
| Scheduling.Scheduler.NextValid | issue.c:246-267 | Exactly the squashed links before the oldest live one are freed. |
| Scheduling.Scheduler.Delete | issue.c:271-293 | The link is found and freed. |
| Scheduling.Scheduler.LinkOperand | decode.c:636-680 | An operand whose value the create vector of the present level says is to come gets a link at the front of its creator's chain, and is ready otherwise; the creator is an older instruction that has not completed. |
| Scheduling.Scheduler.InstallResult | decode.c:682-710 | A result is entered in the create vector of the present level; its chain is empty, so that setting it to NULL loses no link. |
| Scheduling.Scheduler.Decode | decode.c:1025-1034 | Exactly the operands whose values are to come are not ready and wait in the chains of their creators, and the results are entered after that. |
| Scheduling.Scheduler.EnterSpeculation | decode.c:198-214 | A new level begins with the create vector of the level before. |
| Scheduling.Scheduler.Map | map.c:225-270 | A mapped instruction is queued at its unit at once if and only if nothing is missing. |
| Scheduling.Scheduler.IssueUnit | issue.c:335-495 | One unit issues the link chosen in the cycle before if it is still live and the unit free, and then the oldest live link is chosen; with bypass the oldest live link is issued. |
| Scheduling.Scheduler.IssueStage | issue.c:335-495 | Over all units: exactly the issued instructions change, each was ready and not issued before, and its unit was free. |
| Scheduling.Scheduler.QueueEvent | writeback.c:94-128 | The event of a memory operation that has been issued is linked in at its time. |
| Scheduling.Scheduler.NextEvent | writeback.c:131-169 | Events that are due are taken off until one belongs to an instruction that is still there, which was executing and has now completed; if none is returned none is due. |
| Scheduling.Scheduler.WakeChain | writeback.c:397-431 | Every operand that waited for the result becomes ready and the chain is freed. |
| Scheduling.Scheduler.UpdateCreateVector | decode.c:717-746 | The entries of all levels that name the instruction are cleared, and no others. |
| Scheduling.Scheduler.Broadcast | writeback.c:382-433 | A completed instruction is left without dependants and without entries in the create vectors. |
| Scheduling.Scheduler.WritebackStage | writeback.c:311-436 | Every event that was due has completed its instruction if it was still there, and every operand that waited for a completed instruction is ready; no instruction loses an operand that it had. |
| Scheduling.Scheduler.ResolveBranch | writeback.c:462-469 | A branch that has been written back is completed. |
| Scheduling.Scheduler.BrerrRecover | writeback.c:191-297 | Everything younger than the instruction that is kept last is squashed, the reorder queue first and the decode queue after it; all older instructions are unchanged, no list but chains of squashed instructions loses a link, the create vectors of the levels that are left are as they were, and every invariant holds again. |
| Scheduling.Scheduler.TracerRecover | decode.c:139-163 | The decode queue is emptied, youngest first. |
| Scheduling.Scheduler.Squash | commit.c:289-356 | One turn of the flush squashes the youngest instruction, frees its chains, in which no link is live, and changes its tag; links, queues and the instructions that stay are as before. |
| Scheduling.Scheduler.Flush | commit.c:264-368 | All instructions are squashed, those of the decode queue first, both queues and the create vector are empty, and every invariant holds again. |
| Scheduling.Scheduler.Retire | commit.c:405-528 | The oldest instruction goes when it has completed; its chains are empty, so that the panic cannot happen, and everything else stays as it is. |
| EventQueue.InsertedSorted | eventq.c:122-156 | An inserted event keeps the list sorted by time, with `cpu_execute` events last at equal times. |
| EventQueue.EventQueue.Queue | eventq.c:122-156 | The event is linked in at its place, in a record from the free list or a new one. |
| EventQueue.EventQueue.Remove | eventq.c:561-591 | The event with a number is removed if there is one, and its record freed. |
| EventQueue.EventQueue.ServiceNext | eventq.c:635-647 | The first event is taken, the clock set to its time, and its record freed. |
| EventQueue.TurnOk | eventq.c:635-647 | The clock does not go back; it never will if and only if no handler queues an event for the past; a `cpu_execute` event runs only when no other event of its tick is pending. |
| EventQueue.ServiceOk | eventq.c:635-647 | Over a whole run events are performed in order of time, each once. |
| EventQueue.ServiceCpuLast | eventq.c:122-156 | Over a whole run, an ordinary event that is performed after a `cpu_execute` event of the same tick was queued by the handler of that event or of a later one. |
| PageTable.PteAddrExact | memory.h:154-164 | Set and tag give the address of the page back. |
| PageTable.ToFrontSame | memory.c:91-107 | Moving an entry to the front changes no byte of memory. |
| PageTable.AcceptedWithinPage | memory.c:156-164 | An accepted access stays within one page. |
| PageTable.MaskCheckExact | memory.c:155-164 | The mask tests of the source, for every signed size, accept exactly the sizes zero and powers of two up to a page at multiples of the size, and the most negative number, and tell the two faults apart. |
| PageTable.Memory.Translate | memory.c:82-111 | A page that exists is found and moved to the front of its bucket; memory does not change. |
| PageTable.Memory.NewPage | memory.c:114-138 | A new page reads as before. |
| PageTable.Memory.ReadByte | memory.h:167-202 | A byte is read as a flat memory that is zero at first would give it. |
| PageTable.Memory.WriteByte | memory.h:181-212 | A written byte changes at its address and nowhere else. |
| PageTable.Memory.Read | memory.c:144-190 | An accepted read of a positive size returns the bytes of the flat memory, one of another size nothing, a refused one the right fault. |
| PageTable.Memory.Write | memory.c:144-200 | An accepted write changes exactly its bytes, a refused one none. |
| PrintParse.NumeralValue | misc.c:611-627 | A numeral stands for the number it was made from. |
| PrintParse.TruncatedDigit | misc.c:618-624 | The digit computed from numbers truncated to 32 bits is the right one. |
| PrintParse.LowDigit | misc.c:439-452 | The last digit and the rest of a number whose high bit is set. |
| PrintParse.Decimal | misc.c:611-628 | The backward loop stores the decimal numeral. |
| PrintParse.PrintSigned | misc.c:586-628 | `%ld` prints sign and numeral, also of the most negative number. |
| PrintParse.PrintUnsigned | misc.c:630-640 | `%lu` prints the numeral, also with the high bit set. |
| PrintParse.PrintHex | misc.c:654-686 | `%lx` prints the hexadecimal numeral. |
| PrintParse.Accumulate | misc.c:878-902 | The digit loop saturates if and only if the whole number is beyond the limit. |
| PrintParse.Atosq | misc.c:827-931 | The signed parser returns what the text stands for. |
| PrintParse.Atoq | misc.c:934-1024 | The unsigned parser returns what the text stands for. |
| PrintParse.SignedRoundTrip | misc.c:827-931 | Every signed value is read back, and a range error is reported for the most negative one and only for it. |
| PrintParse.UnsignedRoundTrip | misc.c:934-1024 | Every unsigned value is read back in base 10 and 16 without an error. |
| PrintParse.DigitsFit | misc.c:488-500 | The digits fit the buffer. |
| Crc.ShiftNLinear | misc.c:1198-1204 | Shifting with reduction is linear over exclusive or. |
| Crc.LookupDivides | misc.c:1222-1226 | One table lookup divides eight bits. |
| Crc.DivideIsRemainder | misc.c:1178-1181 | Bit-serial division leaves the remainder of the message polynomial. |
| Crc.Checksum.GenTab | misc.c:1190-1208 | The table holds the remainders of all bytes. |
| Crc.Checksum.Crc | misc.c:1211-1228 | A word's four bytes, the lowest first, are divided. |
| Crc.Checksum.CrcRegs | mips.c:593-612 | The register checksum is the division of the whole list of registers. |

## Left out

- Coherence.CoherenceTheorem: says nothing about runs with stray steps, because the promise fails there; liveness and freedom from deadlock are not claimed.
- Mesh.MeshTheorem: models one channel type, because the types share no state in the routers but the arbiter's order; wire and queue delays are any delays.
- Resources.BackEnd.MapStage: requires that the branches of the group fit the branch queue; the source does not check it and would overwrite entries, which cannot happen for groups of at most four, the default width.
- PreciseState.Tracer.Decode: takes an instruction as the list of its saved writes; the arithmetic of `mips.def` is not modelled, and system calls, which write without saving, are left out.
- LoadStoreQueue.CommittedReadsInOrder: a byte counts as taken when the load is written back, and a `byterdy` that a replacement or an intervention has cleared is not told apart from one that was never set.
- LoadStoreQueue.Lsq.Move: the consistency flags between loads (`loadspec`) and the resets by replacements and interventions only mark loads or clear `byterdy`, and are not told apart.
- StorePipeline.Unit.DcacheReplace: any way of the cache may be the victim, which includes the source's choice by the cycle counter.
- EventQueue.EventQueue.Remove: `eventq_execute`, which performs the event before it frees the record, is not modelled.
- EventQueue.EventQueue.Queue: the number of an event does not wrap around.
- The `MESI` build, `SYNC_DVFS`, `ASYNC_DVFS` and `ROUTER_SPLIT`.
- The release of instruction-side conflicts (cache2mem.c:1438-1450), which does not look at the entry's state again.
- MissQueue.MissUnit.BeginTurn: requires that the `update_credit` events of the processor's earlier turns have been performed; they are queued for the same tick and the event queue performs them before the next turn.
- Scheduling.Scheduler.QueueEvent: that the load/store queue reports a memory operation once, after it has been issued, is required.
- Scheduling.Scheduler.BrerrRecover: that what follows the last instruction kept (the delay slot, or the likely branch itself) is of a deeper level is required; `decode_stage` sees to it for a mispredicted branch (decode.c:1254-1281).
- Scheduling.Scheduler.Map: instructions that carry a fetch trap, which are never queued.
- Scheduling.Scheduler.WakeChain: the head of a chain moves along with the walk instead of being cleared after it.
- Scheduling.Scheduler.Squash: tags do not wrap around.
- PageTable.MaskCheckExact: the size less one wraps around for the most negative size.
- The data of blocks; the protocol is about who holds a block and whether stored data reaches memory.
- The order of requests of one processor: in the protocol a miss may be issued at any time and of any kind, which includes what the load/store queue does. A response that waits in MQ_EXTRDY is a grant in flight.
- The scan positions that make the miss queue fair; when `wait_for_reissue` is set (it is a parameter of `IssueMiss`).
- The speculative registers and memory of wrong paths, branch prediction and fetch: they do not touch the architectural state.
- The worm-hole and wave-front routers.
- `mem_strcpy`, `mem_bcopy` and `mem_bzero`, which are loops over one-byte accesses.
- Misses to addresses outside the simulated memory (`VALID_PADDR`), which are dropped.
- Padding, octal and floating-point formats of `myvsprintf`.
- Statistics, power counters, timing formulas, TLBs, loader and system calls.
