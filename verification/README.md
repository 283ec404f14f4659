# Proofs about the Intel GPU tools

The project models six pieces of the tool collection whose correctness is not visible from any one
function, and proves what they are for.

**Instruction compaction** (`Digits`, `EuStructs`, `EuCodec`, `EuProgram`, `EuLayout`, `EuCompact`,
`EuProgramStore`, `EuSimulation`, `EuCrossing`, `EuStable`).  The assembler back end rewrites a finished
program in place: each 16-byte instruction that has an 8-byte form gets it, end-of-thread messages are
realigned with NOPs, and every branch distance is corrected.  `EuStructs` has the bit-fields as digits of
dwords, `EuCodec` the index tables and the two encodings, `EuProgram` and `EuLayout` say where everything
is to end up, and `EuCompact` and `EuProgramStore` are the two in-place passes over an array, proved to
produce that layout.  `EuSimulation` executes programs out of the store, before and after; `EuStable`
decodes the result, compacts it again and states in bits what becomes of every instruction.

**Emission of structured flow control** (`EuIr`, `EuPatches`, `EuStacks`, `EuEmit`, `EuPatching`,
`EuDriver`, `EuTargets`, `EuUipJip`, `EuFinished`, `EuSemantics`, `EuRefinement`, `EuMeaning`, `EuBlocks`,
`EuGenerations`).
`EuEmit.Compile` is `struct brw_compile`: the growing store, the IF stack that doubles, the loop stack,
the IF depth of every loop, and the calls that append and back-patch.  `EuIr.Code` is the independent
reference: the code of a structured program with all targets known in advance.  The driver makes the
calls of any structured program and is proved to leave that code.  `EuTargets` and `EuBlocks` say what the
jumps in it reach, `EuUipJip` is the later pass that recovers loops from backward jumps, and
`EuSemantics` to `EuMeaning` run structured and flat programs for a channel and compare them, and
`EuGenerations` compares what different generations get.

**From end to end** (`EuWords`, `EuWhole`).  On gen6 and gen7 the generated code is put into words, ended
with a message and compacted; a channel that runs from the front of the compacted store executes what the
structured program says.

**The hierarchical allocator** (`RallocForest`, `RallocLinks`, `Ralloc`).  Heap objects with parent,
first-child and sibling pointers refine an ordered forest; the operations are the functions
`Allocated`, `Stolen`, `Renamed` and `Freed` of that forest, and lemmas say what these do to its trees.

**The producer and consumer barrier** (`LatencyBarrier`, `LatencyProgress`).  A transition system in which
every access to shared memory is a step, for any number of consumers, with sequentially consistent memory
and threads that may wake from waiting at any time.  `LatencyBarrier` says what always holds,
`LatencyProgress` that rounds are run until the producer is stopped, that nobody is ever stuck, and that
there are runs of any number of rounds.

**The workload interpreter** (`WsimFences`, `WsimQueues`, `WsimLedger`, `Wsim`).  Fence tagging at parse
time, the fence values through all iterations, and the request queues with their throttle; another thread
may stop the workload at any look at the run flag.  `WsimLedger` keeps the books of a run: what is queued,
submitted and waited for, as functions of the steps alone.

**Traces and layout** (`TraceFormat`, `Trace`, `TraceBytes`, `TraceTools`; `Layout`, `Relocation`).  The
tracer's records, byte by byte, and the replayer's walk over them; the assembler driver's instruction
offsets, aligning NOPs and labels, and the distances it stores in branches.

`Options` is the datatype of values that may be missing.

Conventions.  Offsets in the store are counted in 8-byte chunks, as jump distances are.  Disjoint
bit-fields that the code combines with OR are added.  A program is *well formed* for compaction
(`EuLayout.WellFormed`, in bits `EuStable.WellFormedInBits`) if its generation is 6 or 7, message descriptors and the distances of BREAK and
CONTINUE are immediates, branches go to instructions of the program, end-of-thread messages
start 16-byte aligned and there is no JMPI, BRD, IFF, CALL or RET, which the fix-up does not know.

Where the code does less than one would expect, the lemmas say so:

- A NOP inserted in front of an end-of-thread message is not counted when distances are corrected.  A
  branch then arrives at its target, or at the NOP in front of it, if and only if no NOP was inserted
  between the two but that of the target (`EuProgram.BranchArrives`).
  `EuCrossing.CrossedPaddingMisses` is a program whose branch lands inside the message,
  `EuCrossing.CrossedPaddingArrives` one whose branch crosses a NOP and yet arrives.
- Single program flow turns an IF into an ADD by setting the predicate inversion, not by flipping it,
  and leaves an ELSE predicated.  `EuSemantics.ConvertedIf` and `EuSemantics.ConvertedElse` give the
  exact conditions, `EuMeaning.InvertedIfSkipsBranch` a program that skips the branch it should execute,
  `EuMeaning.PredicatedElseFallsThrough` one that executes both branches.
- Single program flow never patches a BREAK or CONTINUE: its distance stays zero
  (`EuMeaning.SpfJumpsUnpatched`).
- Single program flow has no ENDIF, so a conditional modifier that is pending where a block ends goes to a
  different instruction than on gen6: `EuGenerations.PendingModifierDiffers` is a program that ends with
  different traces.  Generations that both have ENDIFs, or both have none, always agree; the others agree if
  the straight-line instructions and jumps have the same heads (`EuGenerations.GenerationsAgree`), which is
  the case if and only if each of them does the same for every flag (`EuGenerations.HeadsExact`), and behind a
  single block if and only if no modifier is pending (`EuGenerations.BlockEndsAgree`).
- The loop stack is grown too late: all stores of a program's calls stay inside it if and only if there is
  room for its loops from the start (`EuDriver.Emit`), in a fresh compilation if and only if they are
  nested at most fifteen deep (`EuMeaning.Generate`, with `EuMeaning.SixteenLoops` for sixteen).
- The pop count of a BREAK or CONTINUE on gen4 and gen5 has four bits: it is the number of open IFs if and
  only if these are fewer than sixteen (`EuTargets.PatchedJumpsOut`, with `EuTargets.SixteenIfs` for sixteen).
- ralloc_steal into the stolen tree itself leaves links that are those of no forest, and only then
  (`Ralloc.StealFits`, with `Ralloc.StealIntoChild` for a block and its child).
- An entry point directly behind another label is misaligned, or shifts all later offsets by one;
  otherwise the layout is right (`Layout.LaidWell`, with `Layout.EntryPointAfterLabel` for a program).
- A resolved distance of zero is not stored, so that a JMPI to itself goes on behind itself
  (`Relocation.OneTargetReached`, with `Relocation.JumpToItselfFalls` for one), and a gen6 branch with two
  targets whose second is itself gets its first distance in the wrong field
  (`Relocation.TwoTargetsReached`, with `Relocation.BreakToItselfLost`).  All other branches reach their
  labels, if and only if their fields hold the distances.
- A trace without events makes the replayer read past its end (`Trace.EventsBack`).
- A software fence that no step depends on fails an assertion (`WsimFences.IterationHolds`, with
  `WsimFences.UnusedFenceFails` for a workload).

## Model

| member | source | states |
|---|---|---|
| EuCodec.FindIndex | assembler/brw_eu_compact.c:331-441 | the search of an index table finds the first position of the value, or none, in spite of duplicate entries |
| EuCodec.UnpackPack | assembler/brw_structs.h:1470-1491 | the fields of a compact instruction are read back as they were written |
| EuCodec.PackUnpack | assembler/brw_structs.h:1470-1491 | the fields of a compact instruction are all of its 64 bits |
| EuCodec.CompactRoundTrip | assembler/brw_eu_compact.c:331-582 | uncompacting an accepted instruction gives its 128 bits back, except that bits 7, 29 and 47 and those from 90 (gen6) or 91 (gen7) to 95 and from 121 on are cleared |
| EuCodec.AcceptedExactly | assembler/brw_eu_compact.c:449-501 | an instruction is accepted if and only if, in its bits, it is none of six flow-control opcodes, has no immediate in either source, and each of its five keys is in the table of the generation |
| EuCodec.CompactBits | assembler/brw_structs.h:1470-1491 | where, in its bits, the compact form of an accepted instruction has each part of it, or the index of the table entry that is that part |
| EuCompact.CompactForm | assembler/brw_eu_compact.c:449-501 | the field-by-field attempt makes the compact form, and gives up on just the instructions that `EuCodec.AcceptedExactly` does not name |
| EuCompact.TryCompactInstruction | assembler/brw_eu_compact.c:449-501 | an accepted instruction becomes the one chunk at the destination; on refusal the store is untouched |
| EuProgram.WriteBehindRead | assembler/brw_eu_compact.c:689-739 | the write offset never passes the read offset, padding included |
| EuProgram.Distances | assembler/brw_eu_compact.c:612-618 | compaction keeps instructions in order, and any two no further apart than before, padding aside |
| EuProgram.DistanceShrinks | assembler/brw_eu_compact.c:612-635 | subtracting the instructions compacted on the way neither flips, zeroes nor lengthens a distance |
| EuProgram.FixedDistance | assembler/brw_eu_compact.c:620-635 | every rewritten field holds the old distance less the instructions compacted on the way, with its sign and no larger, so that 16 bits suffice |
| EuProgram.BranchArrives | assembler/brw_eu_compact.c:717-769 | a rewritten branch arrives at its target, or at the NOP in front of it, if and only if the same number of alignment NOPs is in front of both, or one more in front of a branch back to a target that has been moved on |
| EuCrossing.CrossedPaddingMisses | assembler/brw_eu_compact.c:717-769 | a concrete gen7 program with a branch across an alignment NOP, which lands inside the message before its target |
| EuCrossing.CrossedPaddingArrives | assembler/brw_eu_compact.c:717-769 | a concrete gen7 program with a branch back across an alignment NOP, which arrives at the message behind it |
| EuCompact.PlaceInstruction | assembler/brw_eu_compact.c:689-738 | one step of the first pass overwrites just the write position with the alignment NOP if needed and the compact or moved instruction |
| EuCompact.CompactAndMove | assembler/brw_eu_compact.c:684-741 | the first pass leaves the laid out instructions, the unread source bytes having stayed undisturbed, and correct bookkeeping arrays |
| EuCompact.UpdateUipJip | assembler/brw_eu_compact.c:620-635 | both fields of the dword change by the recorded counts, and nothing else does |
| EuCompact.UpdateJumpCount | assembler/brw_eu_compact.c:760-764 | the gen6 jump count changes by the recorded counts, and nothing else does |
| EuCompact.FixUp | assembler/brw_eu_compact.c:740-776 | the second pass rewrites exactly the distances of the laid out program |
| EuProgramStore.CompactStore | assembler/brw_eu_compact.c:667-790 | the passes and the final NOP leave the output program in the front of the store, of even length, and the rest of the store alone |
| EuProgramStore.ProgramStore.CompactInstructions | assembler/brw_eu_compact.c:667-790 | the store holds the output program, next_insn_offset is sixteen bytes for every counted instruction, and before gen6 nothing happens |
| EuProgramStore.ProgramStore.GetProgram | assembler/brw_eu.c:222-229 | the caller gets the compacted program with its size |
| EuProgramStore.DecodeFlatten | assembler/brw_eu.c:231-267 | walking a store by the compaction flag reads back the instructions laid out in it |
| EuProgramStore.DumpCompile | assembler/brw_eu.c:231-267 | from the start of any instruction on, the dump shows every instruction of the store, uncompacted, in order |
| EuSimulation.CompactionPreservesRuns | assembler/brw_eu_compact.c:667-790 | for all choices at branches, the compacted program executes the same instructions as the original, up to NOPs and the rewritten distances, if every branch arrives |
| EuStable.OutputHolds | assembler/brw_eu_compact.c:717-738 | every instruction is in the output at its place, behind its alignment NOP |
| EuStable.OnlyPaddingAdded | assembler/brw_eu_compact.c:717-790 | every element of the output is an instruction of the program or a padding NOP |
| EuStable.InstructionsKept | assembler/brw_eu_compact.c:667-741 | an instruction that is no branch is in the output with all of its bits if it is refused, and else in a form that uncompacts to it but for the unencoded bits |
| EuStable.ImmediatesKept | assembler/brw_eu_compact.c:470-473 | an instruction with an immediate in either source, unless it is a branch, is in the compacted store with all of its 128 bits |
| EuStable.BranchesRewritten | assembler/brw_eu_compact.c:743-769 | every branch, HALT included, is in the output with the distances in its bits lowered by the instructions compacted on the way, and no other bit changed |
| EuStable.PaddingIsNop | assembler/brw_eu_compact.c:714-790 | whatever else is in the output is a compacted NOP with all other bits zero |
| EuStable.EndOfThreadAligned | assembler/brw_eu_compact.c:714-729 | a SEND or SENDC with bit 127 set is at an even chunk of the output |
| EuStable.EffectBits | assembler/brw_eu_compact.c:743-769 | what counts as the effect of an instruction in the other statements is all of its bits, but for the distances of branches and what an accepted instruction loses |
| EuStable.WellFormedInBits | assembler/brw_eu_compact.c:667-790 | what is asked of each instruction of a program that is compacted, in its bits |
| EuStable.DecodeOutput | assembler/brw_eu_compact.c:667-790 | decoding the compacted store gives the original instructions in order, unchanged in effect, and padding besides |
| EuStable.OutputAligned | assembler/brw_eu_compact.c:714-729 | end-of-thread messages are 16-byte aligned in the output |
| EuStable.OutputWellFormed | assembler/brw_eu_compact.c:778-790 | the output is again a program that compaction is meant for |
| EuStable.CompactionIdempotent | assembler/brw_eu_compact.c:667-790 | compacting the output gives the same program |
| EuEmit.Compile.constructor | assembler/brw_eu.c:181-218 | an empty program outside any block, with room for the initial stacks |
| EuEmit.Compile.NextInsn | assembler/brw_eu_emit.c:750-779 | one instruction with the defaults is appended, the earlier ones stay, also when the store grows; a conditional modifier is used up and turns predication on |
| EuEmit.Compile.Alu | assembler/brw_eu_emit.c:750-779 | a straight-line instruction in the state of the defaults, whose conditional modifier it uses up |
| EuEmit.Compile.PushIfStack | assembler/brw_eu_emit.c:1117-1128 | the open blocks are those before and the new one, also when the stack grows |
| EuEmit.Compile.PopIfStack | assembler/brw_eu_emit.c:1130-1135 | the innermost open block is taken off |
| EuEmit.Compile.PushLoopStack | assembler/brw_eu_emit.c:1137-1151 | a loop is opened with no IF open in it; returns whether both stores stay inside the arrays, for which the depth counted up must be below the size |
| EuEmit.Compile.BrwIF | assembler/brw_eu_emit.c:1172-1211 | an unpatched IF is appended and counted as open in the innermost loop; the IF depths of the loops go on adding up to the IFs on the stack |
| EuEmit.Compile.BrwELSE | assembler/brw_eu_emit.c:1375-1406 | an unpatched ELSE is appended and becomes the innermost open block part; the IF depths go on adding up |
| EuEmit.Compile.BrwENDIF | assembler/brw_eu_emit.c:1408-1485 | the innermost block is closed and its IF and ELSE patched, in the form of the generation, and nothing else; the IF depths go on adding up |
| EuEmit.Compile.BrwBreakOrCont | assembler/brw_eu_emit.c:1487-1539 | an unpatched BREAK or CONTINUE with the number of blocks open in the innermost loop; the IF depths go on adding up |
| EuEmit.Compile.BrwDO | assembler/brw_eu_emit.c:1575-1601 | a loop is opened at the next instruction, with a DO where BREAKs are patched later, unless the loop stack is full; the IF depths go on adding up |
| EuEmit.Compile.PatchBreakCont | assembler/brw_eu_emit.c:1610-1631 | going backwards to the DO patches exactly the BREAKs and CONTINUEs that have no distance yet |
| EuEmit.Compile.BrwWHILE | assembler/brw_eu_emit.c:1633-1695 | the innermost loop is closed by a jump to its first instruction, its jumps are patched where they are, and the outer loop is current again; the IF depths go on adding up if its blocks are closed |
| EuStacks.IfKeepsBalance | assembler/brw_eu_emit.c:1206-1209 | an IF keeps the IF depths of the open loops adding up to the IFs on the IF stack |
| EuStacks.ElseKeepsBalance | assembler/brw_eu_emit.c:1403-1405 | so does an ELSE, which is on the IF stack but no IF |
| EuStacks.BrwEndifKeepsBalance | assembler/brw_eu_emit.c:1440-1455 | so does closing a block, with or without an ELSE, although its IF may change its opcode |
| EuStacks.AppendKeepsBalance | assembler/brw_eu_emit.c:1137-1151 | so do opening a loop and appending any instruction |
| EuStacks.WhileKeepsBalance | assembler/brw_eu_emit.c:1671-1692 | so does closing a loop whose blocks are closed, patching included |
| EuPatching.PatchedCode | assembler/brw_eu_emit.c:1610-1631 | patching a closed loop settles just its own BREAKs and CONTINUEs: those of inner loops have non-zero distances, and are kept |
| EuDriver.Emit | assembler/brw_eu_emit.c:1172-1695 | for every structured program the calls append its reference code and restore both stacks, whatever has been emitted and grown before and with a conditional modifier pending or not, if and only if the loop stack has room for its loops; in between the IF depths always add up |
| EuBlocks.EveryJump | assembler/brw_eu_emit.c:1241-1372 | however deep it is nested, every IF, IFF, ELSE and WHILE and every ADD they become holds the distance to the end of its own block or loop, in the form of the generation, in units of which an instruction has one on gen4 and two from gen5 on; nothing else is such a jump |
| EuBlocks.EveryMate | assembler/brw_eu_emit.c:1408-1485 | the ELSE and the ENDIF of every block and the DO of every loop are where their IF, ELSE or WHILE says, and an ELSE has the same end as its IF |
| EuBlocks.ProgramJumps | assembler/brw_eu_emit.c:1241-1485 | both for every instruction of the finished program, on every generation |
| EuTargets.JumpsOut | assembler/brw_eu_emit.c:1487-1539 | every BREAK and CONTINUE has the distance of the innermost loop around it and pops the blocks open inside that loop |
| EuTargets.PatchedJumpsOut | assembler/brw_eu_emit.c:1487-1631 | on gen4 and gen5 a BREAK goes just past, a CONTINUE to the WHILE of its innermost loop, in units of one and two to an instruction, popping the IFs open in it |
| EuTargets.SixteenIfs | assembler/brw_eu_emit.c:1487-1539 | a BREAK under sixteen IFs in a loop has the pop count zero |
| EuTargets.ScanFindsInnermost | assembler/brw_eu_emit.c:2409-2432 | the first later WHILE that jumps back to the instruction or before it is the one of the innermost loop around it |
| EuUipJip.ScanLoopEnd | assembler/brw_eu_emit.c:2409-2432 | the scan stops at the first enclosing WHILE |
| EuUipJip.ScanBlockEnd | assembler/brw_eu_emit.c:2384-2403 | the scan stops at the first ENDIF, ELSE, WHILE or HALT |
| EuUipJip.SetUipJip | assembler/brw_eu_emit.c:2437-2508 | every BREAK, CONTINUE, ENDIF and HALT gets the distances the scans give on the unfinished program, which are those of `EuUipJip.JipNamesBlockEnd` and `EuFinished.FinishedJumpsOut`, and nothing else changes |
| EuUipJip.JipNamesBlockEnd | assembler/brw_eu_emit.c:2437-2508 | in any code the JIP of a BREAK, CONTINUE, ENDIF or HALT becomes the distance to the first ENDIF, ELSE, WHILE or HALT behind it; without one an ENDIF goes on and a HALT gets its UIP; no other instruction changes |
| EuFinished.EmittedJumpsHaveLoops | assembler/brw_eu_emit.c:2430-2431 | in an emitted program whose jumps are all inside loops, the scan for the loop end always succeeds |
| EuFinished.FinishedJumpsOut | assembler/brw_eu_emit.c:2460-2481 | the UIP of a BREAK names the WHILE of its innermost loop, on gen6 the instruction behind it; that of a CONTINUE names the WHILE |
| EuFinished.FinishedIsSettled | assembler/brw_eu_emit.c:2437-2508 | the finished program is the code with all targets known in advance, but for the JIPs of BREAK, CONTINUE and ENDIF |
| EuSemantics.ConvertedIf | assembler/brw_eu_emit.c:1248-1283 | the ADD for an IF jumps exactly when the branch is to be skipped, for every flag, if and only if the predicate was not inverted |
| EuSemantics.ConvertedElse | assembler/brw_eu_emit.c:1272-1280 | the ADD for an ELSE always jumps if and only if the ELSE was not predicated |
| EuSemantics.WhileStep | assembler/brw_eu_emit.c:1641-1670 | a WHILE that passes goes back to the first instruction of its body, on every generation and in every form of the jump |
| EuRefinement.Simulates | assembler/brw_eu_emit.c:1172-1695 | from the start of any statement the flat program reaches the point and the trace where the structured one leaves it, with a step at least for every loop round |
| EuMeaning.Generate | assembler/brw_eu_emit.c:1172-1695 | a fresh compilation of a structured program leaves its finished code and empty stacks, if and only if its loops are nested at most fifteen deep |
| EuMeaning.SixteenLoops | assembler/brw_eu_emit.c:1137-1151 | with sixteen nested loops a store goes past the end of the loop stack, on every generation |
| EuMeaning.GeneratedHalts | assembler/brw_eu_emit.c:1408-1695 | on gen6 and gen7, and on gen4 and gen5 in single program flow for programs without BREAK, CONTINUE, inverted IFs and predicated ELSEs, the generated code runs to its end with a trace if and only if the structured program does |
| EuMeaning.SpfJumpsUnpatched | assembler/brw_eu_emit.c:1641-1692 | in single program flow the distance of every BREAK and CONTINUE stays zero |
| EuMeaning.GeneratedLoops | assembler/brw_eu_emit.c:1633-1695 | while the structured program is still looping, the generated code is still running, with the same trace |
| EuGenerations.GenerationsAgree | assembler/brw_eu_emit.c:1289-1373 | the code for two of these generations ends with the same traces, if both have ENDIFs or none, or if all straight-line instructions and jumps that may be taken have the same heads |
| EuGenerations.HasHead | assembler/brw_eu_emit.c:750-779 | these heads are those of every straight-line instruction, WHILE, BREAK and CONTINUE that is emitted |
| EuGenerations.HeadsExact | assembler/brw_eu_emit.c:750-779 | the heads are the same if and only if every such instruction of the one program does for every flag what its counterpart in the other does |
| EuGenerations.BlockEndsAgree | assembler/brw_eu_emit.c:1408-1437 | behind a block with an ENDIF and one without the instruction defaults are the same if and only if no conditional modifier was pending |
| EuGenerations.PendingModifierDiffers | assembler/brw_eu_emit.c:1408-1437 | a program with a modifier pending at the end of a block, which executes an instruction in single program flow that it does not execute on gen6 |
| EuMeaning.InvertedIfSkipsBranch | assembler/brw_eu_emit.c:1258-1270 | under an inverted predicate a converted IF skips a branch that is to be executed |
| EuMeaning.PredicatedElseFallsThrough | assembler/brw_eu_emit.c:1272-1280 | a program whose first branch compares, and which then executes the second one too |
| EuWords.JumpOutInside | assembler/brw_eu_emit.c:2437-2481 | the JIP and UIP of every finished BREAK and CONTINUE are distances to instructions of the program, the UIP to the WHILE or just past it |
| EuWords.ProgramJips | assembler/brw_eu_emit.c:2437-2481 | so the JIP of every BREAK, CONTINUE and ENDIF of a finished program is the distance to the first ENDIF, ELSE, WHILE or HALT behind it; only an ENDIF may have none, and then goes on |
| EuWords.HeaderBits | assembler/brw_structs.h:821-843 | opcode, predicate control and its inversion in the bits of a jump's header |
| EuWords.StoredWellFormed | assembler/brw_eu_emit.c:1172-1695 | on gen6 and gen7 the finished code of a structured program in words, with an end-of-thread message behind it, is a program compaction is meant for |
| EuWhole.StoredArrives | assembler/brw_eu_compact.c:717-769 | every branch of such a program arrives after compaction |
| EuWhole.RunFetches | assembler/brw_eu_emit.c:1172-1695 | step by step, the machine that runs the words fetches what a channel of the generated code goes through, and the channel executes of it what its trace says |
| EuWhole.TrailFollows | assembler/brw_eu_compact.c:667-790 | for any number of steps, what a channel fetches from the compacted store has the effects of the instructions of those steps and of the one where they end |
| EuWhole.WholeWay | assembler/brw_eu_compact.c:667-790 | a structured program ends with a trace if and only if a channel that runs from the front of the compacted store reaches the message, having executed just that trace |
| EuWhole.Assemble | assembler/brw_eu.c:222-229 | the calls of a program and of brw_get_program leave its compacted code in the store, if and only if its loops are nested at most fifteen deep |
| RallocForest.PostOrderVisits | assembler/ralloc.c:227-243 | the order of freeing visits exactly the block and its descendants |
| RallocForest.PostOrderOnce | assembler/ralloc.c:227-243 | and each of them once |
| RallocForest.DescendantsFirst | assembler/ralloc.c:227-243 | every block comes behind all of its descendants |
| RallocForest.SiblingsInOrder | assembler/ralloc.c:227-243 | siblings come in order, each with all of its descendants |
| RallocForest.SiblingsApart | assembler/ralloc.c:51-66 | siblings have no descendants in common |
| RallocForest.GraftedTree | assembler/ralloc.c:84-95 | a new first child appears in every tree just below its parent |
| RallocForest.PrunedTree | assembler/ralloc.c:208-225 | unlinking takes one child out of one place of every tree |
| RallocForest.RenamedTree | assembler/ralloc.c:128-156 | moving a block changes its name in every tree and nothing else |
| RallocForest.DroppedTree | assembler/ralloc.c:227-243 | freeing leaves all other trees as they were |
| RallocForest.DetachedTree | assembler/ralloc.c:208-225 | a detached block is a root, with its tree intact |
| RallocForest.DetachedTrees | assembler/ralloc.c:208-225 | every other tree has lost the detached one from the place it was in, if it was a child |
| RallocLinks.AddChildFits | assembler/ralloc.c:84-95 | the stores of add_child leave exactly the links of the forest with the new first child |
| RallocLinks.UnlinkFits | assembler/ralloc.c:208-225 | the stores of unlink_block leave exactly the links of the forest without the child |
| RallocLinks.ResizeFits | assembler/ralloc.c:128-156 | the stores of resize leave exactly the links of the forest with the block renamed |
| Ralloc.Allocator.AddChild | assembler/ralloc.c:84-95 | the stores of add_child; unless the parent is in the tree of the block, the headers stay linked as the forest says, with the block as first child of its parent |
| Ralloc.Allocator.Alloc | assembler/ralloc.c:103-116 | a new block without children is the first child of its context, or a root |
| Ralloc.AllocatedTrees | assembler/ralloc.c:103-116 | a new block is a leaf, the first child of its context or a root, and no other tree changes |
| Ralloc.Allocator.Unlink | assembler/ralloc.c:208-225 | the block becomes a root and everything else stays linked as it was |
| Ralloc.Allocator.UnsafeFree | assembler/ralloc.c:227-243 | the destructors and releases are those of the post-order of the tree, no released block is looked at again, and no block outside the tree is written |
| Ralloc.ReleasesInOrder | assembler/ralloc.c:227-243 | the blocks are released in the order of the tree, none twice and none left out |
| Ralloc.DestroyedJustBefore | assembler/ralloc.c:237-242 | exactly the blocks that have a destructor have it called, directly before they are released |
| Ralloc.Allocator.Free | assembler/ralloc.c:195-206 | exactly the tree of the block goes, in post-order with destructors first, and all other blocks keep their links |
| Ralloc.FreedTrees | assembler/ralloc.c:195-243 | exactly the tree of the block is gone, and every other tree has lost it from the place it was in |
| Ralloc.Allocator.Steal | assembler/ralloc.c:245-259 | the stores of ralloc_steal for any context; the block moves to be the first child of a context outside its tree |
| Ralloc.StealFits | assembler/ralloc.c:245-259 | the links it leaves are those of some forest if and only if the context is outside the stolen tree |
| Ralloc.StealIntoChild | assembler/ralloc.c:245-259 | a block stolen into its only child leaves each as the other's parent, and links of no forest |
| Ralloc.StolenTrees | assembler/ralloc.c:245-259 | a stolen tree is intact, and every tree has lost it where it was and gained it below the new parent |
| Ralloc.Allocator.Parent | assembler/ralloc.c:261-271 | the block whose child it is, or nothing for a root |
| Ralloc.Allocator.SetDestructor | assembler/ralloc.c:291-296 | one destructor changes, and no link |
| Ralloc.Allocator.Resize | assembler/ralloc.c:128-156 | failing and in-place resizing change no link, moving puts the new block in the old one's place |
| LatencyBarrier.StartInv | benchmarks/gem_latency.c:494-508 | the barrier starts with every consumer owing one |
| LatencyBarrier.ConsumerStepInv | benchmarks/gem_latency.c:390-413 | no step of any consumer breaks the barrier's invariant |
| LatencyBarrier.ProducerStepInv | benchmarks/gem_latency.c:320-388 | no step of the start-up handshake or the producer breaks it |
| LatencyBarrier.Always | benchmarks/gem_latency.c:320-413 | it holds in every state of every run, for any number of consumers (and is not empty: `LatencyProgress.AnyNumberOfRounds`) |
| LatencyBarrier.CounterCounts | benchmarks/gem_latency.c:354-403 | the counter is the number of consumers still to be released plus those released but not yet back |
| LatencyBarrier.NobodyMeasuresAtSubmit | benchmarks/gem_latency.c:325-373 | when a batch is submitted every consumer is back, unreleased, and has measured all earlier batches |
| LatencyBarrier.MeasuresNewest | benchmarks/gem_latency.c:404-412 | a consumer that measures, measures the newest batch and has measured each earlier one once |
| LatencyBarrier.ExitsAfterAll | benchmarks/gem_latency.c:374-410 | a consumer that has returned has taken exactly as many measurements as the producer completed rounds |
| LatencyBarrier.MutualExclusion | benchmarks/gem_latency.c:369-407 | at most one thread is between taking and giving back the lock |
| LatencyProgress.FlagDecides | benchmarks/gem_latency.c:326-374 | only a look at the flag that finds it unset leads to a submission, and only one that finds it set to the end of the rounds |
| LatencyProgress.ClosesOnlyIfStopped | benchmarks/gem_latency.c:326-388 | in every run, a producer behind its rounds has been stopped |
| LatencyProgress.SubmitsUnlessStopped | benchmarks/gem_latency.c:326-350 | a producer that submits had not been stopped when it last looked |
| LatencyProgress.UsefulStepsGetCloser | benchmarks/gem_latency.c:320-413 | every step of a thread that is not woken too early lowers a measure of what is left to the next look at the flag, or to the end |
| LatencyProgress.SomeUsefulStep | benchmarks/gem_latency.c:320-413 | in every reachable state but the last some thread can take such a step: there is no deadlock |
| LatencyProgress.CanAlwaysFinish | benchmarks/gem_latency.c:320-413 | every run, wherever it is, can be continued until the producer has ended, having completed just the round it was in, and all consumers have returned |
| LatencyProgress.AnyNumberOfRounds | benchmarks/gem_latency.c:320-413 | for every number of consumers and of rounds there is a run of just these rounds in which every consumer measures each, and all threads end |
| WsimFences.Tag | benchmarks/gem_wsim.c:1305-1330 | parsing accepts exactly the workloads with sound fence targets, and tags exactly the steps others depend on |
| WsimFences.StepHolds | benchmarks/gem_wsim.c:1621-1623 | a step passes its fence assertions if and only if it is not a software fence without dependents |
| WsimFences.IterationHolds | benchmarks/gem_wsim.c:2587-2611 | in an accepted workload no fence assertion fails in an iteration if and only if every software fence has a dependent; then all tagged steps hold fences at its end |
| WsimFences.AcceptedIfPassing | benchmarks/gem_wsim.c:1305-1330 | the parser rejects just what would fail: a workload is accepted and all of its software fences are used if and only if an iteration passes all assertions on fences and signals |
| WsimFences.UnusedFenceFails | benchmarks/gem_wsim.c:2607-2611 | the workload of one software fence is accepted and fails its assertion |
| WsimFences.CleanedUp | benchmarks/gem_wsim.c:2817-2830 | closing the fences brings back the tags of the start |
| WsimQueues.RequeuedFit | benchmarks/gem_wsim.c:2779-2785 | a submission keeps every step in at most one queue, and queues ordered by latest submission |
| WsimQueues.PoppedFit | benchmarks/gem_wsim.c:2793-2806 | so does taking the oldest request off |
| WsimQueues.QueuedOnce | benchmarks/gem_wsim.c:2779-2785 | no step is twice in the queues |
| WsimQueues.LastIsLatest | benchmarks/gem_wsim.c:2833-2839 | the last request of an engine is the latest submission of all steps queued on it |
| WsimLedger.SubmitsBatchesInOrder | benchmarks/gem_wsim.c:2662-2785 | an iteration submits exactly its batches, each once and in order |
| WsimLedger.RunSubmits | benchmarks/gem_wsim.c:2657-2808 | wherever a run is stopped, what it has submitted are the first of the batches of its iterations |
| WsimLedger.LastThrottleSet | benchmarks/gem_wsim.c:2695-2697 | the throttle in force at a step is the last one set in front of it, or the one from before the iteration |
| WsimLedger.BatchThrottled | benchmarks/gem_wsim.c:2774-2807 | a batch becomes the newest of its engine and leaves every other queue; a positive throttle leaves at most that many on the engine, and just the excess is waited for, the oldest first and behind the batch itself if it is synchronous |
| WsimLedger.ThrottleLeaves | benchmarks/gem_wsim.c:2793-2806 | a batch leaves no more requests on its engine than the last throttle in front of it says |
| WsimLedger.OthersKeepRequests | benchmarks/gem_wsim.c:2668-2757 | no other step submits, waits or changes a queue |
| WsimLedger.NothingLaterThanWaited | benchmarks/gem_wsim.c:2833-2839 | in the end, on the engine of every request still queued one at least as late has been waited for |
| WsimLedger.RequeuedIsMoved | benchmarks/gem_wsim.c:2779-2785 | taking a step out of the queue that its request names is taking it out of all queues |
| Wsim.Workload.Enqueue | benchmarks/gem_wsim.c:2779-2785 | the step moves from its old queue to the end of its engine's, and the counts follow |
| Wsim.Workload.Drain | benchmarks/gem_wsim.c:2793-2806 | the oldest requests are waited for in order until at most the throttle is left |
| Wsim.Workload.Execute | benchmarks/gem_wsim.c:2578-2612 | the fence assertions of a batch hold, and it has a new fence exactly if it is tagged |
| Wsim.Workload.DoBatch | benchmarks/gem_wsim.c:2760-2807 | a batch that gets as far as the throttle leaves at most that many requests on its engine, the latest ones, and the books of `WsimLedger` either way |
| Wsim.Workload.DoSteps | benchmarks/gem_wsim.c:2662-2808 | through an iteration no fence assertion fails, and unless stopped every tagged step holds a fence at the end; the books are those of the steps done, up to where it is stopped |
| Wsim.Workload.CleanUp | benchmarks/gem_wsim.c:2817-2830 | unless stopped, all tagged steps are back at -1 |
| Wsim.Workload.SyncLasts | benchmarks/gem_wsim.c:2833-2839 | the last request of every engine that has any is waited for |
| Wsim.Workload.Run | benchmarks/gem_wsim.c:2657-2839 | over all iterations the assertions hold and the queues stay right; unless stopped, the batches of all steps are submitted in order in every iteration, and wherever it is stopped, the first of these |
| TraceFormat.GetPutAll | benchmarks/gem_exec_tracer.c:72-124 | the fields of a packed record are read back as written |
| TraceFormat.PutGetAll | benchmarks/gem_exec_trace.c:49-86 | a packed record is all of its bytes |
| TraceBytes.TraceStarts | benchmarks/gem_exec_tracer.c:70-76 | a trace starts with the bytes ef be ad de 01 00 00 00 |
| TraceBytes.EventStarts | benchmarks/gem_exec_tracer.c:78-126 | every event is the byte of its command and its fields, at their places and lowest byte first |
| TraceBytes.ObjectStarts | benchmarks/gem_exec_tracer.c:104-112 | so is every object, with its relocations behind it |
| TraceBytes.RelocPlace | benchmarks/gem_exec_tracer.c:114-121 | relocation i of an object is its i-th record of 32 bytes, with its fields at their places |
| TraceBytes.ObjectPlace | benchmarks/gem_exec_tracer.c:162-181 | object i of an execution is behind those in front of it |
| TraceBytes.EventPlace | benchmarks/gem_exec_tracer.c:143-223 | event i of a trace is behind those in front of it |
| TraceBytes.FirstFault | benchmarks/gem_exec_trace.c:151-160 | which bytes at the start of a stream are rejected, and as what |
| Trace.EventBack | benchmarks/gem_exec_trace.c:182-302 | one event is read back with all its objects and relocations, and nothing after it is touched |
| Trace.EventsBack | benchmarks/gem_exec_trace.c:182-302 | events are read back in order up to the end of the stream, if there is at least one |
| Trace.TraceBack | benchmarks/gem_exec_tracer.c:143-223 | replaying a trace gives the recorded events, and fails exactly if there are none |
| Trace.TraceAgain | benchmarks/gem_exec_trace.c:151-302 | a stream that is replayed to its end is byte for byte the trace of its events |
| TraceTools.Tracer.Exec | benchmarks/gem_exec_tracer.c:143-188 | an execution is written with all its objects and relocations, or refused for its fences with nothing written |
| TraceTools.Tracer.Log | benchmarks/gem_exec_tracer.c:190-223 | each other event is one record at the end of the file |
| TraceTools.ReplayTrace | benchmarks/gem_exec_trace.c:151-302 | the walk by a moving pointer decodes the stream, or stops at the first fault |
| TraceTools.RecordAndReplay | benchmarks/gem_exec_trace.c:151-302 | recording and replaying gives back exactly the events recorded |
| Layout.Program.SetOffsets | assembler/main.c:392-414 | going along the list gives every entry its offset and inserts the NOPs in front of entry points |
| Layout.LaidKeepsOriginals | assembler/main.c:392-414 | all original entries are kept in order, and only NOPs are added |
| Layout.NopsServeEntryPoints | assembler/main.c:398-408 | NOPs are added only in front of entry points, and no more than three at a place |
| Layout.LaidWell | assembler/main.c:392-414 | every offset counts the instructions before and every entry point is at a multiple of four, if and only if no entry point directly follows another label |
| Layout.EntryPointAfterLabel | assembler/main.c:392-414 | a program with an entry point behind a label, whose offset counts an instruction too many |
| Layout.ExactCounts | assembler/main.c:392-414 | an exact offset is the number of instructions in front of the entry |
| Layout.AddLabels | assembler/main.c:156-167 | the table is that of the labels of the program, which `Layout.LabelTableExact` describes |
| Layout.LabelIndicesExact | assembler/main.c:416-418 | all labels of a program, by their indices, in order |
| Layout.LabelTableExact | assembler/main.c:156-167 | entry k of the table is the name and the offset of the k-th label, for all labels |
| Layout.LabelToAddr | assembler/main.c:169-189 | the first label of the name at or behind the branch, else the first of the name, else an error |
| Layout.PicksNearest | assembler/main.c:169-189 | in a laid out program that is the nearest such label at or behind the branch, else the first in the program |
| Layout.PickedItem | assembler/main.c:169-189 | the label picked is an item of the program: the first of the name at or behind the branch, or if there is none the first of the name |
| Layout.PickedAddress | assembler/main.c:156-189 | in a well-laid program its address is the number of instructions in front of it, and what is put out from there on are the instructions behind the label |
| Layout.InsnAddress | assembler/main.c:392-414 | in a well-laid program the offset of an instruction is its place among those put out |
| Relocation.RelocateAll | assembler/main.c:431-448 | every relocatable entry gets the distances to the labels picked for it, stored as one or two if they are not zero; a missing label is an error |
| Relocation.OneTargetReached | assembler/gram.y:3327-3398 | a branch to one label, with any operands, reaches the address of the label picked, on every generation, if and only if its field holds the distance and it is not a JMPI to itself |
| Relocation.BranchReachesLabel | assembler/main.c:416-448 | so a branch in a well-laid program gets, under the same condition, to the first of the instructions behind its label |
| Relocation.UnitsAgree | assembler/gram.y:3331-3354 | the units are those of the emitter on every generation, except that JMPIs from gen7.5 on count bytes |
| Relocation.OneDistanceStored | assembler/gram.y:3372-3398 | which bits of which dword one distance goes to, by level and branch, and that all others stay |
| Relocation.TwoDistancesStored | assembler/gram.y:3356-3370 | the same for two |
| Relocation.JumpToItselfFalls | assembler/main.c:431-448 | a gen5 JMPI to itself, with the operands the parser gives it, is left as it is and goes on behind itself |
| Relocation.TwoTargetsReached | assembler/gram.y:3356-3398 | from gen6 on, where branches have two, a branch to two labels, with any operands, reaches both, if and only if its fields hold the distances and it is not one of gen6 whose second label is at the branch and whose first is not |
| Relocation.BreakToItselfLost | assembler/gram.y:3372-3398 | a gen6 BREAK whose second label is in front of it gets its first distance in the jump count of other branches |

## Left out

- gen4 and gen5 outside single program flow: the distances and pop counts are proved, but not what the mask stack of the hardware does with them.
- SIMD execution: programs are run for a channel on its own; the predicate of an ELSE is not looked at on gen6 and gen7, and jumps that disable channels go straight to where the channel resumes.
- A conditional modifier on a flow-control instruction is emitted and used up as the code does it, but writes no flag in the model.
- EuGenerations.GenerationsAgree: between single program flow and gen6 or gen7 the heads have to be the same; that programs with different heads end differently is not claimed, since the instruction may never be reached.
- EuUipJip.ScanBlockEnd: that the JIP is the end of the innermost block is not claimed, because the scan does not track nested blocks.
- EuUipJip.SetUipJip: runs over a program that has not been compacted yet, as the compilers call it; the assertion that a HALT has a UIP is left to the client that emits HALTs.
- EuMeaning.GeneratedHalts: in single program flow asks for programs without BREAK and CONTINUE, whose distances are never set, without IFs under an inverted predicate and without predicated ELSEs; the bytes an ADD to the instruction pointer adds are a number without a width, since the 32-bit field is out of reach of any store.
- EuMeaning.Generate: asks for distances that fit their 16-bit fields and for loops around all BREAKs and CONTINUEs, as the assertions of the code do.
- gen6_IF, which is not counted as open in its loop; emitting HALT and JMPI, and the forward jumps of `brw_land_fwd_jump`.
- EuWhole.WholeWay: the words of straight-line instructions are any that are no branches, with messages that have their descriptor as an immediate and do not end the thread; execution size, compression, mask and thread control of jumps are zero.
- The stack of default instruction states (`brw_push_insn_state`, `brw_pop_insn_state`), which only saves and restores.
- The debug output of compaction, and three-source instructions.
- EuSimulation.CompactionPreservesRuns: asks that every branch arrives, which is an exact condition for each branch (`EuProgram.BranchArrives`).
- ralloc: sizes, contents, canaries, string helpers, `reralloc_size`, the autofree context, allocation that fails, and destructors that call the allocator.
- gem_latency: that a scheduler lets threads take the steps that are always possible; lost wake-ups, since the release is not done under the lock and threads of the model may wake at any time; the measured times; relaxed memory.
- gem_wsim: sequence numbers of software fences, `w_sync_to`, `sync_deps`, timing, the Xe paths, and workloads appended to others.
- Wsim.Workload.Run: looks at any number of iterations up to a bound, as a background workload ends only when it is stopped.
- gem_wsim asserts that a batch has at most one fence dependency through a variable that is never set; only the assertions on fences are modelled.
- Traces: the list of open traces, the mapping of handles when replaying, and the tables behind it; reading past the end of the file, which the replayer does not notice, is an error in the model.
- Trace.TraceBack: an execution has a 32-bit context, which is what the tracer keeps of the 64-bit field.
- Layout: the export file and the entry table file.
- Relocation.OneTargetReached: is about labels, for which the parser leaves a distance of zero; distances given as numbers are stored as they are.
