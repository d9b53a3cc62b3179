# Verified models of zovia's core algorithms

zovia verifies eBPF programs in user space and hands the kernel a bundle of proofs, each found
again by a hash of the condition it proves. This project models the parts of zovia whose
correctness is not visible in any single function, and proves what each of them promises.

| modules | what they model |
|---|---|
| `Words` | machine words and little-endian layouts shared by the byte formats |
| `CanonicalTree`, `TableCycles`, `Goals`, `GoalExamples`, `StreamDecoder` | the meaning of a slot-addressed expression table, when its walks end and when two goals are the same, the canonical byte stream, and the decoder of that stream |
| `ProbeTable`, `EncoderTables`, `CanonicalHash` | the hash tables, output buffer and recursive encoder that compute the stream in place |
| `SipHash`, `SipVectors` | SipHash-2-4, and its published vector |
| `ControlFlow`, `Lowering`, `Subprograms`, `FlowCheck`, `FlowSteps` | instructions as control sees them, lowering from the raw stream, the structural checks before the loop, and the graph of the checks against the steps of a run |
| `Worklist`, `WorklistLoop` | the worklist loop, as a function of its environment and as it runs |
| `WorklistSoundness`, `BranchCounters`, `LoopOrder`, `DepthFirst`, `CheckpointRule`, `CheckpointCadence`, `RetryRounds` | what every run of the loop keeps, where it falls short, and the driver that restarts it |
| `Admission`, `Coverage`, `PastTheEnd` | the whole way from the raw stream to a verdict, what the loop sees of what the checks saw, and the loop entered without the checks |
| `Reachability`, `SccSearch`, `SccPass` | the pass that finds the strongly connected components of a program |
| `Zone`, `ZoneWalks`, `ZoneEdits` | the difference-bound matrix of the zone domain: its closure, which sizes of bounds are never clamped, adding a bound and forgetting a variable |
| `Bundle` | the proof bundle: writer, reader and the kernel's admission rules |
| `Pipeline` | the two threads that build bundles and load them |
| `CubicRoot`, `ProgramHash`, `RandLoad` | an integer cube root, the program hash, and a generator that predicts its program's result |

Names follow the program: a checkpoint is a cached verifier state, `branches` its counter of open
paths, a slot the address of an expression (each takes one slot plus one per argument).

## What is proved

- **Canonical hashing.** Two goals, in any two valid tables, get the same byte stream if and only if
  they can be matched slot by slot: same code, parameters and argument count, variables paired one
  to one, raw words equal, references matched again (`SameStreamIffSameGoal`). The encoder,
  with its open-addressed tables and doubling buffer, writes exactly that stream; the decoder run
  on it consumes every byte, never underflows and ends with the one encoded tree, and accepts no
  other records of that kind. The same goals therefore hash alike. Walks end in every table without a cycle of references,
  and where all references resolve only there (`WalksEndIffRanked`, `UnresolvedHidesCycle`).
- **Worklist.** The loop ends for every domain. If it ends without failure then, under sound
  transfer and pruning, every concrete run stays inside the explored states and meets no fault at an
  instruction of the program, although pruning compares with ancestors that are still open. The
  `branches` counters are accounted for at every loop head: pending states, plus open child
  checkpoints, plus what leaked.
- **Verified programs are safe.** Lowering succeeds exactly on the streams whose targets and two-slot
  loads fit. `CheckSubprogs` never reads past the program, whatever the program is, and accepts
  exactly those whose functions no jump leaves and no fall-through ends; `CheckCfg` accepts exactly
  those in which nothing reachable leads out and, if there are calls, nothing is unreachable, and
  marks exactly the reachable prune points. What passes never leads the loop outside the program,
  returns and callbacks included (`AdmittedStaysInRange`), so every run of a verified program stays
  inside it and meets no fault (`VerifiedProgramsAreSafe`), with no assumption about ranges.
- **The checks see what a run does.** Every step of a run follows edges of the flow graph, and every
  edge is a step, a return point or the way through a two-slot load. So whatever the loop expands was
  reached, and marked, by the flow check (`ExpandedWasReached`), every loop passes a prune point
  (`CycleHasPrunePoint`), and what a run executes twice in one frame has a component id. A jump never
  leaves its function, except that the target of a `may_goto` is not looked at (`MayGotoMayLeave`).
- **Checkpoints.** A state records a checkpoint exactly if one is due, told from the states the loop
  looked at and not from its counters (`RecordedIffDue`): at a prune point that is forced, after a
  history longer than 40, or by the cadence of jumps and instructions. The loop fails exactly at its
  limits and stops exactly when asked (`LimitIsExact`, `StoppedIffAsked`).
- **The loop alone is not safe.** A fetch past the end ends a path silently, so the loop entered without
  those checks would accept a program that falls off its end: `FallingOffIsAccepted` and
  `FallingOffLeaks` are about the loop function by itself, and `OneIsNotAdmitted` says that the
  driver refuses their program. For the loop by itself `AcceptedInRangeIsSafe` gives a sufficient
  guard, and `LeavingTheProgramMayBeSafe` shows that it is not necessary.
- **The counters are not always exact.** `complete_dfs_branch` stops after 16384 checkpoints.
  On admitted programs the counters are exact at a loop head if and only if no path so far ended
  under a longer chain (`CountersExactIffWalksFit`). A straight line of any length passes every
  check and ends with exact counters only up to that length (`AdmittedLineExactIffShort`).
  `ExactIffNoTurnLeaks` gives the condition for the loop alone, where a fetch past the end also
  drops a path without any decrement. While nothing leaks, a counter is zero exactly when its
  subtree is finished.
- **Components.** The iterative search gives two instructions the same nonzero id if and only if they
  lie on cycles and reach each other, and leaves id 0 exactly to those on no cycle.
- **Zone closure.** Closing keeps the set of valuations, whatever is clamped. Whenever no phase clamps
  a sum it decides emptiness and leaves the tightest bounds (`CloseDecides`). That is so if twice the
  dimension times the largest bound is in range: every stored bound is the length of a walk that
  meets no pivot twice, so sizes grow by one given bound per phase (`ClosureSpelled`), and in the
  dimension of the analysis every bound up to 2^55 qualifies. `CYCLE` is a matrix with clamped sums
  whose emptiness it misses. Forgetting a variable of a closed matrix is projection.
- **Pipeline.** Every interleaving writes one row per object and loads each at most once; the row
  shows exactly what the load returned, and no interleaving is stuck. A bundle
  that is finished after the consumer's last drain is never loaded, and a load that raises takes its
  whole batch and the consumer with it: `LateBundleIsNeverLoaded` and `RaisedLoadIsLost` are such
  runs, and `AllLoadedIffNoneLateOrRaised` says exactly when every bundle is loaded.
- **Bundle.** Reading a written bundle gives back its entries, and the kernel's rules hold of it.
- **Program hash.** The hashed bytes determine the program whatever order the set is iterated in,
  and inputs that differ in one byte never collide.
- **Cube root.** The 32-bit code is exact for every 64-bit argument, and its result is near the root
  from both sides.
- **Generator.** For every size and every random stream the generated program returns the stored
  result; the buffer suffices exactly up to size 4090.

Where the code and its comments differ, the code is followed: the header of the canonical hash
calls the root an index while the encoder resolves it as a slot; a variable leaf always carries an
argument count of zero, because the leaf test comes first; the complexity limit is tested only
after the pruning check has had its chance to end the path.

## Model

| member | source | states |
|---|---|---|
| CanonicalTree.HeadIsUnique | c-ref/canonical_hash.c:163-198 | The head slot of an expression resolves to that expression and no other. |
| CanonicalTree.UnfoldIsStable | c-ref/canonical_hash.c:216-251 | What a walk finds (a forest, or an id that heads nothing) does not depend on the spare depth it is given. |
| CanonicalTree.AcyclicWalksEnd | c-ref/canonical_hash.c:216-251 | In a table whose references descend in some rank, the recursive walk ends from every id. |
| TableCycles.RankedIffNotCyclic | c-ref/canonical_hash.c:216-251 | References can be ranked so that they descend if and only if no expression lies on a cycle of references. |
| TableCycles.DeepMeetsCycle | c-ref/canonical_hash.c:216-251 | A walk still going at one level more than there are expressions has met a cycle of references. |
| TableCycles.LeadsToCycleIsDeep | c-ref/canonical_hash.c:216-251 | Where all references resolve, the walk from an expression that leads to a cycle never ends. |
| TableCycles.WalksEndIffRanked | c-ref/canonical_hash.c:216-251 | With a descending rank every walk ends; where all references resolve, every walk ends if and only if there is one. |
| TableCycles.UnresolvedHidesCycle | c-ref/canonical_hash.c:216-251 | A cyclic table whose walks all end, because they stop at a reference to nothing. |
| Goals.VarCodes | c-ref/canonical_hash.c:35-37 | A leaf is a variable exactly if its code, masked with 0xf8, is 0x18. |
| Goals.SameGoalIffAlphaEquivalent | c-ref/canonical_hash.c:216-251 | Goals that can be matched slot by slot are exactly those whose unfolded trees are equal up to renaming. |
| Goals.SameStreamIffSameGoal | c-ref/canonical_hash.c:216-278 | Two goals have the same stream if and only if they can be matched slot by slot with variables paired one to one, and then they hash alike. |
| Goals.SameGoalEnds | c-ref/canonical_hash.c:216-251 | A goal matched with one whose walk ends has a walk that ends as deep. |
| GoalExamples.ComparisonStreams | src/refinement/canonical_hash.rs:314-341 | Comparing two variables and comparing one with itself give different streams. |
| GoalExamples.WorkedStream | src/refinement/canonical_hash.rs:422-461 | The stream of the worked example, byte by byte. |
| GoalExamples.VariableHash | c-ref/canonical_hash.c:253-278 | The hash of a 64-bit variable on its own, whatever its slot. |
| CanonicalTree.UnfoldedIsWellFormed | c-ref/canonical_hash.c:216-251 | Trees unfolded from a valid table have argument counts that fit the one-byte field. |
| CanonicalTree.Number | c-ref/canonical_hash.c:98-111 | The number given to a name is its position in the list of names met, and is a 32-bit word. |
| CanonicalTree.CanonOfRenamed | c-ref/canonical_hash.c:216-251 | Renaming variables one-to-one before numbering leaves every numbered tree unchanged. |
| CanonicalTree.EqualCanonRelates | c-ref/canonical_hash.c:216-251 | Forests with equal numbered trees are related by the pairing of the names met, in every starting context. |
| CanonicalTree.AlphaEquivalentIffSameCanon | c-ref/canonical_hash.c:216-251 | Two trees are equal up to a one-to-one renaming exactly when first-occurrence numbering makes them equal. |
| CanonicalTree.BottomUpWalksEnd | c-ref/canonical_hash.c:216-251 | If every argument slot lies below the head slot of its expression, the walk from any ids ends. |
| StreamDecoder.ParseRecord | scripts/bcf_chase/render_zovia.py:12-22 | One record is read with the same cursor movement and stack effect as the specification, and a truncated record or an empty stack is an error. |
| StreamDecoder.Parse | scripts/bcf_chase/render_zovia.py:9-23 | The decoding loop computes what the stack machine computes on every byte sequence, malformed ones included. |
| StreamDecoder.MachineInverts | scripts/bcf_chase/render_zovia.py:11-22 | From any stack, decoding the records of a forest consumes exactly those bytes and pushes exactly those trees. |
| StreamDecoder.DecoderInvertsStream | scripts/bcf_chase/render_zovia.py:9-23 | Decoding the stream of any tree consumes every byte, never underflows and leaves one tree, the numbered one. |
| StreamDecoder.AcceptsExactly | scripts/bcf_chase/render_zovia.py:9-23 | On records with known tags and variables without arguments, the decoder accepts exactly the serialized forests. |
| StreamDecoder.SameStreamIffAlphaEquivalent | c-ref/canonical_hash.c:216-251 | Streams are equal if and only if the trees are equal up to a one-to-one renaming of variables. |
| ProbeTable.SpareCell | c-ref/canonical_hash.c:78-111 | A table with fewer keys than cells has an empty cell, so every probe ends. |
| ProbeTable.MissMeansAbsent | c-ref/canonical_hash.c:206-213 | Reaching an empty cell without seeing the key proves that the key was never stored. |
| ProbeTable.Inserted | c-ref/canonical_hash.c:98-111 | Storing a new key at the first empty cell of its probe sequence adds that binding and keeps the table invariant. |
| ProbeTable.FindKey | c-ref/canonical_hash.c:98-111 | The probe stops at the first cell that holds the key or is empty, and it does stop. |
| ProbeTable.FindEmpty | c-ref/canonical_hash.c:190-196 | The insertion probe stops at the first empty cell. |
| EncoderTables.Rehashed | c-ref/canonical_hash.c:78-94 | Moving all keys to a table of twice the size keeps every binding and adds none. |
| EncoderTables.Renamer.constructor | c-ref/canonical_hash.c:57-66 | A new renamer has 16 empty cells and has met no name. |
| EncoderTables.Renamer.Grow | c-ref/canonical_hash.c:78-94 | Growing doubles the capacity and keeps the numbering. |
| EncoderTables.Renamer.Intern | c-ref/canonical_hash.c:98-111 | The id's first-occurrence number is returned and recorded; the empty marker is never returned. |
| EncoderTables.SlotTable.Build | c-ref/canonical_hash.c:178-198 | The table binds each head slot to its array index and nothing else. |
| EncoderTables.SlotTable.Get | c-ref/canonical_hash.c:206-213 | A lookup returns the index of the expression with that head slot, or nothing if there is none. |
| CanonicalHash.OutBuf.Reserve | c-ref/canonical_hash.c:131-139 | Doubling makes room for the extra bytes and keeps the contents. |
| CanonicalHash.OutBuf.Push | c-ref/canonical_hash.c:141-161 | The bytes are appended, and nothing is written after a failure. |
| CanonicalHash.PushVar | c-ref/canonical_hash.c:224-231 | A variable leaf appends its record with its first-occurrence number and extends the numbering. |
| CanonicalHash.PushConst | c-ref/canonical_hash.c:232-240 | A constant leaf appends its record and its raw argument words. |
| CanonicalHash.EncodeLeaf | c-ref/canonical_hash.c:223-240 | A leaf appends the records of its one tree and extends the numbering if it is a variable. |
| CanonicalHash.Encode | c-ref/canonical_hash.c:216-251 | The walk fails exactly when it meets an id that heads nothing; otherwise it appends the canonical records of the unfolded tree and extends the numbering accordingly. |
| CanonicalHash.EncodeArgs | c-ref/canonical_hash.c:242-245 | The argument loop appends the records of the whole forest in order, and stops at the first failure. |
| CanonicalHash.Hash | c-ref/canonical_hash.c:253-278 | The result is SipHash with a zero key over the canonical stream of the unfolded tree, and 0 if an id does not resolve. |
| CanonicalHash.EquivalentExpressionsHashAlike | c-ref/canonical_hash.c:216-278 | In any two valid tables, equal streams mean equal up to renaming and the reverse, and expressions equal up to renaming hash alike. |
| SipHash.RoundIsPermutation | c-ref/siphash24.h:20-29 | The round is a permutation of the four lanes: it has a two-sided inverse. |
| SipHash.AbsorbIsPermutation | c-ref/siphash24.h:48-51 | Absorbing a fixed word is a permutation of the state. |
| SipHash.StatesStayDistinct | c-ref/siphash24.h:43-53 | Absorbing the same words keeps different states different and equal ones equal. |
| SipHash.FinishIsInjective | c-ref/siphash24.h:71-75 | The finalisation rounds never merge two states. |
| SipHash.PaddingIsInjective | c-ref/siphash24.h:39-64 | The padded words determine the input, although only the low byte of its length is stored. |
| SipHash.TailWord | c-ref/siphash24.h:41-64 | The fall-through switch builds the last padded word: the remaining bytes, zeros, and the length modulo 256. |
| SipVectors.VectorDigest | c-ref/siphash24.h:32-78 | The published vector: fifteen bytes under the ascending key. |
| SipVectors.VariableDigest | c-ref/siphash24.h:32-78 | The digest of the nine bytes of one variable under the zero key. |
| SipHash.SipHash24 | c-ref/siphash24.h:32-78 | The loop over the buffer computes the digest of the padded words. |
| Worklist.Process | src/analysis/mod.rs:1012-1612 | One iteration that does not fail counts exactly one instruction, and past the limit it yields no successor. |
| Worklist.Turn | src/analysis/mod.rs:830-1730 | Every iteration fails, uses up instruction budget, or leaves the budget as it is and fewer states pending. |
| Worklist.Run | src/analysis/mod.rs:830-1733 | For every domain, transfer function and pruning the loop ends, with nothing pending, a failure or a stop. |
| Worklist.RunEnds | src/analysis/mod.rs:830-1733 | The end of the loop is one of its heads, reached after finitely many turns. |
| WorklistLoop.Verifier.constructor | src/analysis/mod.rs:758-765 | A new environment has no checkpoint, zero counters and no failure. |
| WorklistLoop.Verifier.CompleteDfsBranch | src/analysis/flow/scc.rs:538-630 | The parent walk takes one branch off each checkpoint up to the first that stays open, for at most 16384 checkpoints. |
| WorklistLoop.Verifier.RecordState | src/analysis/flow/merging.rs:82-151 | A checkpoint with one open branch is appended under the next id. |
| WorklistLoop.Verifier.CountSuccessors | src/analysis/mod.rs:1660-1686 | Only the extra alternatives of a fork are added to the parent; without successors the path ends. |
| WorklistLoop.Verifier.Expand | src/analysis/mod.rs:1399-1686 | The limit, the fetch, the transfer and the branch counts happen in the specified order, with the same early exits. |
| WorklistLoop.Verifier.ApplyTransfer | src/analysis/mod.rs:1521-1612 | A jump-class instruction is counted, and the transfer's verdicts are merged into the environment. |
| WorklistLoop.Verifier.Look | src/analysis/mod.rs:1044-1137 | Demotion, the instruction count and the pruning verdict are applied in that order. |
| WorklistLoop.Verifier.MaybeRecord | src/analysis/mod.rs:1210-1374 | A checkpoint is recorded exactly when the forcing, cadence and loop-dampening rules ask for one, and the cadence restarts there. |
| WorklistLoop.Verifier.Arrive | src/analysis/mod.rs:936-942 | The history counter is bumped at spills and fills and at jump points. |
| WorklistLoop.Verifier.ProcessState | src/analysis/mod.rs:936-1686 | The loop body computes the specified iteration. |
| WorklistLoop.Verifier.Partition | src/analysis/mod.rs:1623-1647 | Loop-closing successors and the others are separated, each in order; in BCF mode there are no loop-closing ones. |
| WorklistLoop.Verifier.PushSuccessors | src/analysis/mod.rs:1706-1729 | Loop-closing successors go under the others, and the others are pushed in reverse. |
| WorklistLoop.Verifier.RunWorklist | src/analysis/mod.rs:758-1733 | The imperative loop terminates and ends in the environment where the specified run ends. |
| WorklistSoundness.ClosedAtEveryHead | src/analysis/mod.rs:830-1730 | At every loop head the entry states are explored or pending, and every concrete successor of an expanded state is in an expanded state or a pending one. |
| WorklistSoundness.ProcessCovers | src/analysis/mod.rs:1012-1686 | A popped state is afterwards inside an expanded state: itself, or the snapshot that pruned it, open or not. |
| WorklistSoundness.AcceptedProgramsAreSafe | src/analysis/mod.rs:758-1733 | If the loop ends unfailed and unstopped, every concrete run from the entry that steps only from inside the program stays inside expanded states and meets no fault at an instruction of the program. |
| WorklistSoundness.AcceptedInRangeIsSafe | src/analysis/mod.rs:758-1733 | If moreover every expanded state is inside the program, every run from the entry stays inside it and meets no fault anywhere. |
| WorklistSoundness.ConfinedStaysInRange | src/analysis/mod.rs:1449-1546 | If some property of pc and abstract value keeps to the program and no operation of the domain leads out of it, no head of the loop has ever looked outside the program. |
| WorklistSoundness.ConfinedProgramsAreSafe | src/analysis/mod.rs:1449-1546 | Under such a property an accepted program is safe on every run. |
| Lowering.Lower | src/parsing/bpf_to_ast.rs:72-1681 | Lowering succeeds exactly if every slot fits, yields one instruction per slot and the second slots of two-slot loads, and otherwise names the first slot that does not fit. |
| Lowering.LowerWide | src/parsing/bpf_to_ast.rs:83-251 | A two-slot load is lowered exactly if its second slot, its reserved fields and its callback target fit. |
| Lowering.LowerOne | src/parsing/bpf_to_ast.rs:52-70 | A one-slot instruction is lowered exactly if its target, if it has one, is inside the stream. |
| Lowering.Imm64Is | src/parsing/bpf_to_ast.rs:129-132 | The immediate of a two-slot load is the signed upper half times 2^32 plus the unsigned lower half. |
| Lowering.LoweringKeepsSteps | src/parsing/bpf_to_ast.rs:52-251 | From every instruction the lowered program takes exactly the steps of the raw one. |
| Lowering.LoweredIsWellFormed | src/parsing/bpf_to_ast.rs:238-250 | In a lowered program every target is an instruction, and the slots set aside are exactly those after a two-slot load. |
| Subprograms.CollectStarts | src/analysis/flow/subprog.rs:435-445 | The ordered set holds pc 0 and the target of every function call, and nothing else. |
| Subprograms.EndInside | src/analysis/flow/subprog.rs:448-453 | Reading a function up to the next entry never leaves the program, because the call that set the entry was read before. |
| Subprograms.CheckJumps | src/analysis/flow/subprog.rs:451-487 | The jumps of one function are accepted exactly if each fits, and the first that does not is named. |
| Subprograms.CheckFunction | src/analysis/flow/subprog.rs:447-500 | A function is accepted exactly if its jumps fit and its last instruction is a jump or an exit. |
| Subprograms.CheckSubprogs | src/analysis/flow/subprog.rs:434-503 | On every program, malformed ones included, the check reads no index out of range and accepts if and only if no jump leaves its function, no call leaves the program and no function ends in a fall-through; a refusal names the first offender and its function. |
| Subprograms.StructuredJumps | src/analysis/flow/subprog.rs:456-499 | In an accepted program jumps stay inside the program, and anything but a jump or an exit has a next instruction in the same function. |
| FlowCheck.Pass.VisitCall | src/analysis/flow/cfg.rs:141-225 | A call leads to the callback that feeds it, if inside the program, and to the next instruction, with the specified marks. |
| FlowCheck.Pass.VisitInsn | src/analysis/flow/cfg.rs:113-338 | The successors of an instruction, and the prune, jump and checkpoint marks it leaves. |
| FlowCheck.Pass.PushRoots | src/analysis/flow/cfg.rs:487-501 | Every root inside the program is discovered and marked. |
| FlowCheck.Pass.Step | src/analysis/flow/cfg.rs:503-537 | One turn of the search finds a successor outside, discovers a new instruction or finishes the top of the stack, and keeps the invariant. |
| FlowCheck.EndsReached | src/analysis/flow/cfg.rs:503-554 | With an empty stack the instructions visited are exactly the reachable ones, and none of them leads out. |
| FlowCheck.CheckCfg | src/analysis/flow/cfg.rs:460-557 | Accepts if and only if nothing reachable leads out and, with calls, nothing is unreachable; the marks are then those of the roots and of the reachable instructions, and a refusal names an offender. |
| FlowSteps.StepVisits | src/analysis/flow/cfg.rs:113-338 | What a step enters is reached in the graph of the flow check, and so is the return point of a call. |
| FlowSteps.EdgeIsStep | src/analysis/flow/cfg.rs:113-338 | Every edge is a step, leads to the return point of a call, or goes into the second slot of a load. |
| FlowSteps.ExecutedTwiceIsOnCycle | src/analysis/flow/scc.rs:151-203 | An instruction that one run executes twice in the same frame lies on a cycle of the flow graph. |
| FlowSteps.StepStaysInFunction | src/analysis/flow/subprog.rs:451-499 | Within a frame control stays in its function, but for the target of a `may_goto`. |
| FlowSteps.MayGotoMayLeave | src/analysis/flow/subprog.rs:456-486 | A program that passes the check although its `may_goto` leaves its function. |
| FlowSteps.MarksAre | src/analysis/flow/cfg.rs:136-338 | Which prune, jump and checkpoint marks an instruction of each kind leaves. |
| FlowSteps.JoinIsPrunePoint | src/analysis/flow/cfg.rs:226-300 | Where two reachable instructions lead to the same one there is a prune point. |
| FlowSteps.CycleHasPrunePoint | src/analysis/flow/cfg.rs:226-300 | Every reachable cycle passes a prune point. |
| Coverage.MovesStayReached | src/analysis/flow/cfg.rs:503-537 | A step from a reached control state leads to one, return points included. |
| Coverage.ExpandedWasReached | src/analysis/mod.rs:182-358 | Every instruction that the loop expands or has pending was reached by the flow check. |
| Coverage.LoopsHaveIds | src/analysis/flow/scc.rs:29-145 | An instruction that one run executes twice in the same frame has a nonzero component id. |
| Admission.OtherwiseStraight | src/analysis/mod.rs:1521-1526 | Outside the jump class control can only go on in line. |
| Admission.MovesStaySited | src/analysis/transfer/mod.rs:66-262 | In a lowered program that passes the structural check no step of the transfer functions leads out, calls, callbacks, returns and two-slot loads included. |
| Admission.AdmittedStaysInRange | src/analysis/mod.rs:138-358 | At no head of any run has the loop looked outside an admitted program. |
| Admission.VerifiedProgramsAreSafe | src/analysis/mod.rs:138-499 | Every run of a verified program stays inside it and meets no fault. |
| Admission.CountersExactIffWalksFit | src/analysis/flow/scc.rs:538-630 | On an admitted program the counters are exact at a loop head if and only if no path so far ended under a chain longer than the walk budget. |
| Admission.LoweredTraversableIff | src/analysis/flow/cfg.rs:515-554 | On a lowered program the flow check refuses unreachable instructions in the presence of calls and nothing else. |
| Admission.AdmittedEnds | src/analysis/flow/subprog.rs:489-499 | The last instruction of an admitted program is an exit or a jump. |
| Admission.AdmittedLineExactIffShort | src/analysis/flow/scc.rs:540-545 | A straight-line program of any length up to a million passes every check, and ends with exact counters if and only if it has at most 16384 instructions. |
| Admission.Analyze | src/analysis/mod.rs:138-499 | A program is verified if and only if it lowers, passes every check and the loop ends unfailed and unstopped; the other verdicts are given exactly where their stage refuses. |
| PastTheEnd.OneIsNotAdmitted | src/analysis/flow/subprog.rs:489-499 | One instruction that falls through is refused before the loop. |
| PastTheEnd.FallingOffIsAccepted | src/analysis/mod.rs:1449-1452 | Entered directly, the loop accepts a one-instruction program under a sound domain although its run leaves the program and faults. |
| PastTheEnd.LeavingTheProgramMayBeSafe | src/analysis/mod.rs:1449-1452 | The same exploration with a machine that stops at once: a state outside the program is expanded and every run is safe. |
| PastTheEnd.FallingOffLeaks | src/analysis/mod.rs:1449-1452 | Entered directly, the loop drops the path and leaves a checkpoint open with nothing pending: the counters are not exact. |
| BranchCounters.CompleteKeepsBalance | src/analysis/flow/scc.rs:538-630 | Ending a path keeps the account: counters, pending states, open children and leaks still add up. |
| BranchCounters.RecordKeepsBalance | src/analysis/flow/merging.rs:89-104 | Recording a checkpoint moves the path from its old parent to the new checkpoint without changing any total. |
| BranchCounters.ForkKeepsBalance | src/analysis/mod.rs:1660-1676 | Adding one less than the number of successors keeps the account. |
| BranchCounters.CountersAtEveryHead | src/analysis/mod.rs:830-1730 | At every loop head of every run each counter is its pending states plus its open child checkpoints plus its leaks. |
| BranchCounters.ExactIffNoLeak | src/analysis/mod.rs:1660-1686 | The counters are exact precisely while nothing has leaked. |
| BranchCounters.ZeroIffSubtreeFinished | src/analysis/flow/scc.rs:563-606 | While nothing has leaked, a counter is zero exactly when no pending state is left in the checkpoint's subtree. |
| BranchCounters.ZeroIffFinishedAtEveryHead | src/analysis/flow/scc.rs:563-606 | At every loop head of a run that has met no leak, a counter is zero exactly when no pending state is left in the checkpoint's subtree. |
| BranchCounters.LeaksIffWalkTooLong | src/analysis/flow/scc.rs:540-545 | The walk leaves a decrement undone if and only if it would have to touch more checkpoints than its budget. |
| BranchCounters.ProcessLeaksIff | src/analysis/mod.rs:1012-1686 | One iteration loses a count if and only if it fetches past the end under a checkpoint or ends a path whose walk exceeds the budget. |
| BranchCounters.ExactIffNoTurnLeaks | src/analysis/mod.rs:830-1730 | At every loop head of every run the counters are exact if and only if no turn so far met one of those two guards. |
| BranchCounters.ExactWhileInRange | src/analysis/mod.rs:1450-1452 | With every visited pc inside the program and no more checkpoints than the walk budget, the counters are exact. |
| BranchCounters.StraightLineExactIffShort | src/analysis/flow/scc.rs:540-545 | For every length up to a million, the dense-mode run of a straight-line program ends with exact counters if and only if it has at most 16384 instructions. |
| LoopOrder.ClosersAreUnder | src/analysis/mod.rs:1706-1729 | Of the successors pushed in one turn, those that close a loop lie under all others. |
| LoopOrder.BelowWaits | src/analysis/mod.rs:830-1730 | What lies below in the list is not touched until everything above it is done. |
| LoopOrder.HistoryGrows | src/analysis/mod.rs:936-942 | A state looked at has the history of the state it continues, plus one at a spill or fill and one at a jump point. |
| LoopOrder.LimitIsExact | src/analysis/mod.rs:1012-1410 | If no operation of the domain fails, the loop has failed exactly if it expanded a state beyond the limit or came to the second slot of a load. |
| LoopOrder.StoppedIffAsked | src/analysis/mod.rs:830-840 | The round is stopped exactly if transfer asked for it at some expanded instruction. |
| LoopOrder.ExpandedWasPrepared | src/analysis/mod.rs:1044-1137 | Every expanded value was first demoted, unless the kernel's arithmetic is followed, and then went through pruning. |
| CheckpointRule.RecordedIffDue | src/analysis/mod.rs:1210-1374 | At every loop head each expanded state has recorded a checkpoint of its pc and value exactly if one was due, by the record of the run. |
| CheckpointRule.HistoryStaysShort | src/analysis/mod.rs:1254-1291 | In a sparse run no state is expanded at a prune point with a history longer than 40. |
| CheckpointRule.ForcedIsRecorded | src/analysis/mod.rs:1254-1291 | A forced prune point is always expanded under a checkpoint of its own pc and value. |
| CheckpointRule.CadenceIsKept | src/analysis/mod.rs:1227-1291 | No prune point is passed with two jumps and eight instructions since the last checkpoint, below an open ancestor with 20 jumps or 100 instructions as well. |
| DepthFirst.StackIsRecursion | src/analysis/mod.rs:1706-1729 | In BCF mode, running the loop on a stack equals visiting the pushed states recursively and continuing with the rest. |
| DepthFirst.LoopIsDepthFirst | src/analysis/mod.rs:1614-1730 | In BCF mode the loop is the recursive depth-first visit of the entry state. |
| CheckpointCadence.CheckpointsAreBounded | src/analysis/mod.rs:1227-1291 | At every loop head of a sparse run unforced checkpoints are at most an eighth of the instructions and half of the jumps; checkpoints never exceed the instructions or the limit plus one. |
| RetryRounds.Drive | src/analysis/mod.rs:80-395 | There are at most 4095 restarts, the hashes that caused restarts are pairwise distinct, each round starts from what the earlier ones banked, and the driver stops only converged, at the cap or on a repeated hash. |
| RetryRounds.BundleOnlyGrows | src/analysis/mod.rs:358-395 | If a round only appends, the bundle of every earlier round is a prefix of the last one. |
| RetryRounds.RestartsBoundedByHashes | src/analysis/mod.rs:362-386 | There are no more restarts than hashes that can be reported. |
| Bundle.Layout | scripts/bcf_chase/bundle_tool.py:20-24 | The first pass computes the aligned offset of every goal and proof and the total size. |
| Bundle.AppendRows | scripts/bcf_chase/bundle_tool.py:25-26 | The second pass appends the row of every entry, and fails only on a field that does not fit. |
| Bundle.AppendPayloads | scripts/bcf_chase/bundle_tool.py:27-29 | The third pass appends every goal and proof, each padded to four bytes. |
| Bundle.Build | scripts/bcf_chase/bundle_tool.py:14-31 | The writer yields the image if and only if every field fits its width, and otherwise fails. |
| Bundle.ImageHolds | scripts/bcf_chase/bundle_tool.py:20-30 | The offsets of the first pass are where the third pass puts the bytes. |
| Bundle.ParseEntries | scripts/bcf_chase/bundle_tool.py:7-12 | The loop reads every row and fails on a table that does not fit the file. |
| Bundle.Parse | scripts/bcf_chase/bundle_tool.py:3-13 | The reader computes the specified result on every file: a short header or a wrong magic is an error, payload ranges are clamped to the file. |
| Bundle.ParsedIff | scripts/bcf_chase/bundle_tool.py:3-13 | A file is read exactly if it begins with the bytes 42 43 46 42 and has room for the rows it announces. |
| Bundle.EntryBytes | scripts/bcf_chase/bundle_tool.py:7-12 | Each field of an entry is the little-endian number at its place in the row, and the payloads are the slices these give. |
| Bundle.SampleImage | scripts/bcf_chase/bundle_tool.py:14-31 | A written bundle of one entry, byte by byte. |
| Bundle.ParseInvertsBuild | scripts/bcf_chase/bundle_tool.py:3-31 | Reading a written bundle returns exactly the original entries. |
| Bundle.BuiltBundlesAreAccepted | c-ref/bpf_attr_bcf_ext.h:39-46 | A written bundle satisfies every admission rule, and its size field is its length. |
| Bundle.PayloadsAlignedAndDisjoint | scripts/bcf_chase/bundle_tool.py:22-24 | All payload offsets are multiples of four and no two payloads overlap. |
| Pipeline.StepKeepsInv | scripts/bench_e2e.py:482-563 | Every step of either thread conserves builds, bundles, loads and rows, object by object. |
| Pipeline.LoadedAtMostOnce | scripts/bench_e2e.py:497-523 | In every interleaving an object is loaded at most as often as it is listed. |
| Pipeline.OneRowPerObject | scripts/bench_e2e.py:520-560 | When everything has finished there is exactly one row for an object listed once; one listed more often has at least one row and no more than its listings. |
| Pipeline.BuildRecordIsThere | scripts/bench_e2e.py:517-520 | The consumer never looks up a build record that is not there. |
| Pipeline.RowsAreHonest | scripts/bench_e2e.py:508-560 | A row carries a load result only if that load happened and returned it. |
| Pipeline.RowsShowVerdicts | scripts/bench_e2e.py:508-560 | In a finished run a row of an object shows a result if and only if a load of it returned that result. |
| Pipeline.RowShowsLoad | scripts/bench_e2e.py:508-560 | The one row of an object listed once shows exactly what its load returned. |
| Pipeline.ResultsAreReturned | scripts/bench_e2e.py:500-563 | The results handed back are exactly what the loads returned, for objects listed once. |
| Pipeline.FlushFindsNothing | scripts/bench_e2e.py:554-560 | When the last rows are written, no object without a row has a result. |
| Pipeline.ListedIffBuilt | scripts/bench_e2e.py:538-544 | Exactly the successful builds enter the ready list, each once and in order. |
| Pipeline.NeverStuck | scripts/bench_e2e.py:482-563 | However the threads have interleaved, some continuation finishes the driver. |
| Pipeline.AllTriedIffNoLateAppend | scripts/bench_e2e.py:496-554 | A load is attempted for every finished bundle if and only if none is appended after the consumer's last drain. |
| Pipeline.AllLoadedIffNoneLateOrRaised | scripts/bench_e2e.py:496-554 | Every finished bundle is loaded by a load that returned if and only if none is appended after the last drain and no load raises. |
| Pipeline.RaisedLoadIsLost | scripts/bench_e2e.py:500-508 | A complete run of one object whose load raises: nothing late, no load returned, and the row shows none. |
| Pipeline.LateBundleIsNeverLoaded | scripts/bench_e2e.py:496-560 | A complete run of one object whose bundle is built and never loaded. |
| CubicRoot.Fls64 | selftests/progs/bpf_cubic.c:131-162 | For every 64-bit word the masks and shifts find one plus the index of its highest set bit, and zero for zero. |
| CubicRoot.ReadingTop | selftests/progs/bpf_cubic.c:156-162 | A word whose top bit is set has as many binary digits as it has bits left. |
| CubicRoot.LeadingRange | selftests/progs/bpf_cubic.c:248-251 | For every argument from 64 on the table index lies between 8 and 63. |
| CubicRoot.GuessOf | selftests/progs/bpf_cubic.c:248-257 | The shifted table entry fits 32 bits; the cube of the guess is at most a fifth above the argument and at least four sevenths of it, six sevenths from 2^21 on. |
| CubicRoot.StepFits | selftests/progs/bpf_cubic.c:259-265 | The sum and its product with 341 fit 32 bits. |
| CubicRoot.NotFarBelow | selftests/progs/bpf_cubic.c:259-265 | Whatever the guess, one Newton step lands at most 0.1 % and 4/3 below the cube root. |
| CubicRoot.NotFarAbove | selftests/progs/bpf_cubic.c:259-265 | From a close guess the cube of one less than the result is at most 1 + 1/n times the argument. |
| CubicRoot.TableRounds | selftests/progs/bpf_cubic.c:243-246 | Below 64 the table gives the nearest integer to the cube root at every argument except 42. |
| CubicRoot.TableRises | selftests/progs/bpf_cubic.c:216-233 | From 7 on the table rises and stays within six below the cube root of 2^18 times the index. |
| CubicRoot.Lookup | selftests/progs/bpf_cubic.c:253-266 | The code from the table lookup on returns 0 for an index of 64 or more, and else the exact Newton step when nothing overflows. |
| CubicRoot.CubicRoot | selftests/progs/bpf_cubic.c:239-267 | For every 64-bit argument the 32-bit code computes the exact formula, its guard never fires, and the result is near the cube root from both sides. |
| ProgramHash.StepInjective | src/pcc/hash.rs:17-24 | One hashing step is injective in the state and in the byte. |
| ProgramHash.OneByteNeverCollides | src/pcc/hash.rs:17-24 | Inputs of equal length that differ in exactly one byte have different hashes. |
| ProgramHash.StableHasher.constructor | src/pcc/hash.rs:9-14 | A new hasher holds the offset basis. |
| ProgramHash.StableHasher.Write | src/pcc/hash.rs:17-24 | The state becomes the fold of the step over the bytes, from the state before. |
| ProgramHash.SortUnstable | src/pcc/hash.rs:36-37 | The array is sorted in place into the specified order. |
| ProgramHash.SortedKeeps | src/pcc/hash.rs:36-37 | Sorting a list without repetitions gives a strictly ascending list of the same elements. |
| ProgramHash.AscendingIsUnique | src/pcc/hash.rs:36-38 | A set has only one ascending list, so the order of iteration does not matter. |
| ProgramHash.StreamIsProgram | src/pcc/hash.rs:31-40 | Whatever order the sets are iterated in, the hashed bytes are equal if and only if the instruction texts and the invalid-pc sets are equal. |
| ProgramHash.ProgramHash | src/pcc/hash.rs:31-40 | The result is the sixteen-digit hexadecimal hash of the whole stream with the counters sorted. |
| ProgramHash.HexReadsBack | src/pcc/hash.rs:39 | The printed hash, read in base 16 with the first digit most significant, is the hash. |
| ProgramHash.FnvOfA | src/pcc/hash.rs:9-24 | The value published for the one byte of "a". |
| ProgramHash.SampleStream | src/pcc/hash.rs:31-38 | The stream of two texts and one counter, byte by byte. |
| ProgramHash.HexInjective | src/pcc/hash.rs:39 | Different hashes print differently. |
| ProgramHash.ChangedByteChangesHash | src/pcc/hash.rs:31-40 | Replacing one byte of one instruction's text changes the printed hash. |
| RandLoad.ExecLoads | convert_tests.c:1090-1099 | Executing the emitted loads from any register contents leaves in register 0 the exclusive or of all words. |
| RandLoad.EmittedReturns | convert_tests.c:1084-1106 | For every sequence of 64-bit words, from any registers, the emitted program exits with their folded exclusive or. |
| RandLoad.RandTest.SemiRandGet | convert_tests.c:356-362 | One step of the generator, stored and returned. |
| RandLoad.FirstDraw | convert_tests.c:354-362 | The first number drawn from the initial seed. |
| RandLoad.RandTest.FillRandLdDw | convert_tests.c:1084-1106 | The emitted program and its length are as specified, the rest of the buffer is untouched, and executing the program returns the stored result. |
| RandLoad.FitsUpTo4090 | convert_tests.c:1393-1395 | The 4096-instruction buffer holds the program if and only if the requested size, read as a signed word, is at most 4090. |
| Reachability.MutualOnCycle | src/analysis/flow/scc.rs:116-126 | Two different nodes that reach each other lie on a cycle. |
| SccSearch.VisitKeeps | src/analysis/flow/scc.rs:59-65 | Numbering a new node keeps the invariant of the search: order, stacks, reachability, lowlinks and labels. |
| SccSearch.LookKeeps | src/analysis/flow/scc.rs:69-87 | Looking at a successor keeps it, whether the successor is outside, new, on the stack or finished. |
| SccSearch.RetreatKeeps | src/analysis/flow/scc.rs:91-114 | Leaving a node that is no root keeps it, because the parent absorbs the lowlink, and there is a parent. |
| SccSearch.CompClosed | src/analysis/flow/scc.rs:116-143 | No edge leads from a completed component to anything lower on the stack. |
| SccSearch.CompMutualPair | src/analysis/flow/scc.rs:116-143 | All nodes from the root of a component to the top of the stack reach each other. |
| SccSearch.CompCycle | src/analysis/flow/scc.rs:116-126 | A node of the component lies on a cycle exactly if the component gets an id. |
| SccSearch.EmitKeeps | src/analysis/flow/scc.rs:116-142 | Taking a component off the stack and labelling it keeps the invariant. |
| SccSearch.AllDone | src/analysis/flow/scc.rs:52-145 | At the end equal nonzero ids mean mutually reachable on a cycle, and 0 means on no cycle, both ways. |
| SccPass.Pass.constructor | src/analysis/flow/scc.rs:35-50 | The arrays start at zero and the stacks empty. |
| SccPass.Pass.Enter | src/analysis/flow/scc.rs:59-65 | The arrays after numbering a node are those of the state machine. |
| SccPass.Pass.Scan | src/analysis/flow/scc.rs:67-87 | The inner loop stops with a successor to visit or with none left, and keeps the invariant. |
| SccPass.Pass.LeaveInner | src/analysis/flow/scc.rs:91-114 | The parent takes over a smaller lowlink, as in the state machine. |
| SccPass.Pass.PopComponent | src/analysis/flow/scc.rs:128-138 | Exactly the nodes from the root on leave the stack, are marked, and get the id where the table has room. |
| SccPass.Pass.LeaveRoot | src/analysis/flow/scc.rs:116-142 | Leaving a root labels its component and keeps the invariant. |
| SccPass.Pass.Explore | src/analysis/flow/scc.rs:56-143 | The search from a root ends, with empty stacks and the root visited. |
| SccPass.ComputeScc | src/analysis/flow/scc.rs:29-145 | Two instructions share a nonzero id if and only if they lie on cycles and reach each other, and 0 is left exactly to those on no cycle. |
| Zone.ClampedIsWeaker | src/domains/zone/dbm.rs:50-74 | A clamped sum never promises more than the sum. |
| Zone.TightenKeepsMeaning | src/domains/zone/dbm.rs:281-283 | Tightening a bound to a clamped sum keeps the set of valuations, even with an outdated summand. |
| Zone.RelaxRow | src/domains/zone/dbm.rs:270-289 | One row in place: same valuations, nothing loosened, and with a pivot not negative the row of the phase. |
| Zone.RunPhase | src/domains/zone/dbm.rs:269-290 | The in-place phase equals the simultaneous one whenever the pivot is not negative. |
| Zone.Close | src/domains/zone/dbm.rs:265-292 | Closing keeps the set of valuations; if no pivot was negative the result is the sequence of phases, and otherwise a negative diagonal shows. |
| Zone.IsInconsistent | src/domains/zone/dbm.rs:294-314 | The test is true exactly if some diagonal entry is negative or some range kept beside the matrix is empty. |
| Zone.PhaseRanged | src/domains/zone/dbm.rs:50-74 | Clamped or not, a phase keeps every finite entry within the clamping range. |
| Zone.ClosureTriangles | src/domains/zone/dbm.rs:269-290 | Unless a sum is clamped, after each phase no walk through the pivots so far is shorter than the stored bound. |
| Zone.Extend | src/domains/zone/dbm.rs:265-292 | In a closed matrix a further variable can always be given a value. |
| Zone.BoundsAreTightest | src/domains/zone/dbm.rs:265-292 | A closed matrix implies a bound on a difference exactly if it stores one at least as tight. |
| Zone.CloseDecides | src/domains/zone/dbm.rs:265-299 | Whenever no phase clamps a sum, the diagonal test answers exactly whether there is no valuation, and otherwise the stored bounds are the tightest. |
| Zone.ClampingHidesEmptiness | src/domains/zone/dbm.rs:50-74 | A matrix of four variables with no valuation whose closure shows nothing negative. |
| ZoneWalks.WalkAtLeast | src/domains/zone/dbm.rs:269-290 | Any walk through the pivots so far is at least as long as the stored bound. |
| ZoneWalks.SharedIsLonger | src/domains/zone/dbm.rs:269-290 | If the two halves through a pivot share a node, going round the pivot is no longer. |
| ZoneWalks.ImprovedIsSpelled | src/domains/zone/dbm.rs:281-283 | A bound that a pivot improves is the length of a walk that meets no inner node twice. |
| ZoneWalks.ClosureSpelled | src/domains/zone/dbm.rs:269-290 | While no pivot is negative, every stored bound is the length of such a walk, bounds grow by at most the largest given one per phase, and none is clamped if twice the dimension times that bound is in range. |
| ZoneWalks.CloseDecidesSmall | src/domains/zone/dbm.rs:265-299 | For bounds of which twice the dimension times the largest is in range, closing decides emptiness and leaves the tightest bounds. |
| ZoneWalks.RegisterBoundsFit | src/analysis/machine/reg.rs:41 | In dimension 15 bounds up to 2^55 are small enough. |
| ZoneEdits.AddConstraint | src/domains/zone/dbm.rs:221-236 | The entry becomes the clamped bound exactly if that is finite and tighter. |
| ZoneEdits.AddedMeans | src/domains/zone/dbm.rs:221-236 | The valuations are those of before that also keep the clamped bound, and the entries stay within the clamping range. |
| ZoneEdits.ForgetVar | src/domains/zone/dbm.rs:238-255 | The row and the column of the variable are cleared in place, and nothing else changes. |
| ZoneEdits.ForgetIsProjection | src/domains/zone/dbm.rs:238-255 | A valuation satisfies what is left of a closed matrix if and only if some value of the forgotten variable makes it satisfy the whole. |
| ZoneEdits.ForgetKeepsCanonical | src/domains/zone/dbm.rs:238-255 | Forgetting in a closed matrix leaves it closed. |

## Left out

- The interval and tnum domains, the transfer functions, subsumption, widening and the proof checker, and the zone domain beyond closing, adding a bound and forgetting a variable: they are parameters of the worklist model, and soundness of transfer and pruning is a hypothesis.
- What a checkpoint loses or gains after it is recorded (imprecise scalars, lazy cleaning of dead registers, back-edge propagation): the model keeps the recorded abstract value, and how pruning compares with it is a parameter.
- Eviction of checkpoints: ids stay resolvable, as they do through the retired list.
- WorklistLoop.Verifier.CompleteDfsBranch: models the `branches` counters; the counter `dfs_paths`, which changes in the same places by the same amounts, the loop-entry hints and the hook that ends a component visit are not modelled.
- WorklistLoop.Verifier.RecordState: keeps the recorded abstract value as it is; making its scalars imprecise and evicting old checkpoints are not modelled.
- Zone.CloseDecides: states one direction; when a sum is clamped the answer may or may not be right, as `ClampingHidesEmptiness` shows for one matrix.
- Zone.IsInconsistent: takes the ranges beside the matrix as given; how they are narrowed, and the provenance of the cells, are not modelled.
- `update_live_stack`, which runs whenever a path dies, and the changes that recording a state makes to the rest of the environment: ending a path and recording leave the part that the loop only passes along as it is.
- Coverage.ExpandedWasReached: takes it that a call enters only the callback that the backward scan found to feed it; how the registers make that so is not modelled.
- LoopOrder.HistoryGrows: is stated for transfer functions that hand the history on unchanged, as all of the source's do.
- LoopOrder.StoppedIffAsked: is stated for transfer functions that decide by the state alone whether to stop.
- SccPass.ComputeScc: is stated for a table whose ids are 0 at the start, and programs shorter than the 32-bit marker.
- 32-bit saturation of branch counters and wrap-around of checkpoint ids; `CheckpointsAreBounded` bounds the number of checkpoints by the instruction limit plus one.
- Certificate-aided refinement of successors, which is part of the transfer parameter, and all tracing.
- Admission.Analyze: takes the checks on stack depth and on maps as one given answer, models one round, and models of the stack-liveness pass only that it aborts on the empty program.
- FlowCheck.CheckCfg: leaves out the single-entry rule for loops, which the kernel mode adds in front; how the callback that feeds a call is found by scanning backward, and which calls advance an iterator, are given.
- Lowering.Lower: tells instructions apart only as far as control does; the remaining operands and their checks are one class of refused instructions.
- Allocation failure in the canonical hash, which returns 0 like an unresolved id.
- CanonicalHash.Encode: has no meaning for a table whose walk never ends; the depth it is given only states that the walk ends.
- CanonicalHash.EncodeArgs: is stated for walks that end, for the same reason.
- CanonicalHash.Hash: is stated for walks that end, for the same reason; `AcyclicWalksEnd` covers every table with a rank, and `BottomUpWalksEnd` every table written bottom up.
- StreamDecoder.Parse: builds trees where the script builds text; the rendering of operators and the special case for conjunctions are left out.
- Process failures and time-outs of the build pool and the loader, and printing; a load's verdict is a parameter of the step.
- ProgramHash.StreamIsProgram: takes the debug text of an instruction as given, as UTF-8 bytes without 0xff; that the text determines the instruction is not part of this model.
- RandLoad.EmittedReturns: executes the instructions the generator emits and no others of the instruction set.
- The remaining commands of the bundle tool, the remaining test-program generators, ELF and BTF parsing, liveness, precision tracking and the solver interface.
