# A verified model of VectorCGRA

VectorCGRA is a coarse-grained reconfigurable array described cycle by cycle: every
`@update_ff` block is a clock edge over named registers and every `@update` block a
function of registers and inputs. This project models its control path, its data
movers and its compiler back end in Dafny and proves what they do over whole runs.

Each component has

- a datatype of its registers and a function `Next` that is its clock edge, with the
  source's branches, priorities and bit widths;
- theorems about every run of `Next`, under any handshake timing;
- where the source updates registers in place, a class with those registers as fields
  whose `Clock` method is proved to change them exactly as `Next` says, and to drive the
  modelled wires.

The theorems about runs are stated over what can be seen from outside: messages, commands and
operands as written, read off the wires. Most start from reset and the configuration commands.

| file | component |
|---|---|
| Compiler, CompilerProofs, CompilerMeaning, CompilerAccepts, InstructionSignals | one instruction becomes one control word |
| TileSignals | constant order and the packets of a whole tile |
| CtrlMem, TileJoin, PrologueAlignment, ConstQueue | what a tile executes, when, and with which constants |
| Crossbar, CrossbarProofs, CrossbarStreams, RegisterBank | how data moves inside a tile |
| LoopController, LoopParents, LoopCounter | the loop controller, a loop inside a loop of it, and the leaf counters |
| LoopNest, NestTiles, LoopSiblings | hardware loop nests: one leaf, on one tile and over tiles; several leaves |
| NestPairing, NestMispairs | which outer value meets which inner one |
| DmaEngine, Im2col | data movers |
| GlobalReduce, BankedMemory, Queues, VectorLanes | reductions, distributed memory, queues and channels, vector arithmetic |
| Arith, Seqs | arithmetic and sequence facts used by the others |

`dafny verify dfyconfig.toml` checks everything.

## Results that differ from what the code or its comments say

- RegisterBank: the comment at mem/register_cluster/RegisterBankRTL.py:262-264 says every
  write is refused while the skid is full. It is not (lines 218-219); when the control word
  changes too early a write is lost. `RegisterBank.StepIsFifoExactly` says exactly when.
- Compiler: three clashes are accepted silently: a register moved to a port while the FU reads
  another register of the same bank; a register written by both a port and the FU; and a tile
  port that both crossbars drive, whose link then ors the two values (noc/LinkOrRTL.py:33-37).
  `CompilerProofs.BuildMeansWhatItSays` shows these are the only ways a word can be wrong while
  the registers it reads hold tokens. Without a token an operand waits, unless a move of the same
  instruction writes a register of its bank: then it can take the moved value instead
  (`CompilerProofs.TokensMatterExactly`).
- Compiler: an instruction can be rejected although a lane assignment exists, because a port
  operand takes the first free lane rather than the one that carries the port already
  (`CompilerAccepts.FreeLaneFirstRejects`; `CompilerAccepts.LanesExactly` says when this
  cannot happen).
- DmaEngine: byte counts of 1 to 3 do not finish (the comment at
  mem/dma/DmaEngineRTL.py:231-233 speaks of rounding up; the code truncates).
  `DmaEngine.NeverOverrunsExactly`.
- CtrlMem: LAUNCH does not reset the step count, so a finished program launched again issues
  nothing (`CtrlMem.RelaunchIssuesNothing`), and after TERMINATE it resumes at the program
  counter where it stopped (`CtrlMem.RestartContinues`).
- TileJoin: an FU prologue at the address the program counter shows before the launch makes
  the FU skip the first word of the launch (`TileJoin.FirstWordLostExactly`); it is a working
  instruction if the lower bound has moved since
  (`TileJoin.MovedLowerBoundLosesFirstInstruction`).
- LoopController: a CCU with as many targets as its target index has values never ends a
  dispatch round (`LoopController.FullTargetsNeverFinish`); a CCU whose range is empty still
  runs one iteration (`LoopController.FinishedLoop`, `Trips`).
- LoopController: three loops in one another, as doc/figures/loop_controller/README.md:87-114
  draws them, stall in the second outer iteration: the outer CCU's dispatch restarts the middle
  CCU, but nothing resets the leaf (`LoopParents.ThirdLevelStalls`); if the leaf is a target of
  the outer CCU too, each of its completions counts at both
  (`LoopParents.SharedLeafAdvancesBoth`). controller/test/LoopControllerRTL_test.py:241 sends
  the leaf's completions itself.
- LoopController: a completion from another CGRA is counted by every running CCU, and one that
  arrives in the same cycle as a leaf's is taken but not counted
  (`LoopController.RemoteCompletions`).
- Loop nests: the outer values come out of a delivery step, an operation of its own, and nothing
  ties it to the count step but their order. They pair like the two software loops under every
  timing only if the delivery register is on the leaf's tile, is listed before the leaf in the
  CCU's targets, and is delivered in the interval right behind each count
  (`NestMispairs.PairingExactly`). The target order of
  controller/test/LoopControllerRTL_test.py:261-266 can mispair (`NestMispairs.LeafFirstMispairs`);
  so can a delivery step ahead of the count step (`NestMispairs.DeliveryFirstMispairs`); and so
  can Count and Deliv. on two tiles, as doc/figures/loop_controller/README.md:24 draws them,
  whatever the target order (`NestMispairs.SeparateTilesMispair`).
- Sibling leaves: completions are counted without their sender. A child count above the number of
  leaves is never reached (`LoopSiblings.TooManyAwaited`); one below it lets a leaf be reset
  halfway (`LoopSiblings.TooFewAwaited`).
- BankedMemory: an address beyond the map does not fail but selects, modulo the width of a
  CGRA id, a CGRA that forwards the request to itself (`BankedMemory.OutsideNeverServed`).
- TileSignals: constants that share a time step, or whose time steps span an initiation
  interval or more, are consumed out of order (`TileSignals.OrderExactly`).
- GlobalReduce: more than 16 contributors are never answered
  (`GlobalReduce.TooManyContributors`).
- VectorLanes: OPT_VEC_ADD_CONST_COMBINED never chains its lanes
  (`VectorLanes.ConstCombinedIsWideExactly`), and a lane-wise product is lane-exact only when
  the lower products fit their lanes (`VectorLanes.VectorMulIsLanewiseExactly`).

## Model

| member | source | states |
|---|---|---|
| CompilerProofs.BuildMeansWhatItSays | validation/script_generator.py:352-599 | for every accepted instruction the control word, read as the crossbars, the output links and the register cluster read it, gives FU operand k exactly its k-th non-constant source and every port and register exactly the sources named for it, if and only if the instruction has none of the unreported clashes |
| CompilerProofs.TokensMatterExactly | mem/register_cluster/RegisterClusterRTL.py:81-90 | whatever registers hold tokens, no operand of an accepted instruction can receive anything but its own source, if and only if no move writes a register of a bank an operand is read from |
| CompilerMeaning.WordDoesWhatIsWritten | validation/script_generator.py:352-599 | the same read off the operations as written: for every accepted instruction each port and register gets exactly what the operations name for it, if and only if no move and the operation that takes the FU clash |
| CompilerMeaning.StoreOperands | validation/script_generator.py:404-406 | for a STORE of data to an address FU input 0 gets the address and input 1 the data; with one of them constant, input 0 gets the other |
| CompilerMeaning.OperandsInOrder | validation/script_generator.py:404-560 | for every other opcode FU input k gets the k-th non-constant operand as written, and no further input is connected |
| CompilerMeaning.TransfersAreNamed | validation/script_generator.py:423-592 | every transfer the translator carries out is named by an operation, and every named one is carried out |
| CompilerMeaning.ClashIs | validation/script_generator.py:519-592 | the unreported clashes in terms of two operations: another register of a bank the FU reads is moved, or a destination is shared |
| CompilerAccepts.AcceptsExactly | validation/script_generator.py:352-599 | an instruction is accepted if and only if every move has one source, at most one operation takes the FU, no two transfers of the moves are in each other's way, no two constants are neighbours, operands and results fit their banks, and each port operand in turn finds a lane |
| CompilerAccepts.TranslatesExactly | validation/script_generator.py:352-599 | it is accepted and its word does what is written if and only if, besides, none of the unreported clashes is in it |
| CompilerAccepts.AddMovesExactly | validation/script_generator.py:423-496 | the moves are accepted exactly if all their transfers fit together: a port or bank takes one port's value, a port takes a register only once, a bank reads and writes one register |
| CompilerAccepts.OperandsExactly | validation/script_generator.py:414-560 | the operands are accepted exactly if no two constants are neighbours, there are no more than lanes, each bank reads one register, and each port in turn finds a lane |
| CompilerAccepts.WritesExactly | validation/script_generator.py:562-592 | the destinations of the result are accepted exactly if no bank or port is written twice and the moves write no other register of those banks |
| CompilerAccepts.WalkRemoves | validation/script_generator.py:414-420 | the deleting walk leaves no constant behind exactly if no two constants are neighbours |
| CompilerAccepts.LanesExactly | validation/script_generator.py:539-549 | the first-fit search succeeds exactly if there is an open lane for every port without one of its own, unless some port's own lane lies above an open one |
| CompilerAccepts.FreeLaneFirstRejects | validation/script_generator.py:539-549 | a concrete instruction is rejected whose operands, exchanged, are accepted |
| CompilerProofs.OperandsFaithful | validation/script_generator.py:498-560 | operands are always right, clash or not: operand k is connected to its k-th source, and no further operand is connected |
| CompilerProofs.AddMovesDelivers | validation/script_generator.py:423-496 | after the moves, every port and register is fed by exactly the sources the moves name for it, and lanes, banks and write ports are consistent |
| CompilerProofs.ReadsKeep | validation/script_generator.py:510-560 | lane allocation keeps the moves' routing and gives every operand a lane that carries it and that no later operand takes over |
| CompilerProofs.WritesKeep | validation/script_generator.py:562-592 | the FU result goes to exactly the named destinations, one register per bank |
| CompilerProofs.PortsUnfaithful | validation/script_generator.py:519-525 | with a read clash some port carries the register the FU reads instead of the one moved to it |
| CompilerProofs.RegsUnfaithful | validation/script_generator.py:572-575 | a register written by a port and the FU does not get the port's value |
| CompilerProofs.PortsOred | noc/LinkOrRTL.py:33-37 | a port driven by both crossbars carries neither of the two values named for it, but their or |
| CompilerProofs.PortClashIsAccepted | validation/script_generator.py:586-592 | a concrete instruction with the port clash is accepted and mistranslated |
| CompilerProofs.ReadClashIsAccepted | validation/script_generator.py:519-525 | a concrete instruction with the read clash is accepted and mistranslated |
| CompilerProofs.WriteClashIsAccepted | validation/script_generator.py:572-575 | a concrete instruction with the write clash is accepted and mistranslated |
| CompilerProofs.StripImmsExact | validation/script_generator.py:414-420 | deleting constants while walking the operand list removes exactly the constants whenever it leaves none behind |
| CompilerProofs.ReorderedExact | validation/script_generator.py:498-507 | reordering registers first keeps every operand at its own position |
| InstructionSignals.InstructionSignals.BuildCtrlPkt | validation/script_generator.py:352-599 | the in-place list updates compute that translation, succeed exactly when it is defined, and return the FU operation's constants in operand order |
| InstructionSignals.InstructionSignals.TakeConstants | validation/script_generator.py:414-420 | the deleting walk keeps and collects exactly the non-constants and constants when no constant is left behind |
| InstructionSignals.InstructionSignals.MakeCtrlPkt | validation/script_generator.py:601-664 | the packet is the encoding whose hardware meaning is proved |
| InstructionSignals.InstructionSignals.SearchLane | validation/script_generator.py:539-549 | the loop finds the first lane that may carry the port |
| InstructionSignals.InstructionSignals.Reorder | validation/script_generator.py:498-507 | the two loops produce registers first, each operand with its position |
| TileSignals.SeesOwnConstant | validation/script_generator.py:884-893 | after a clear, loaded in time-step order, with distinct time steps in a window below the initiation interval, every constant is on the queue's output for the operation that named it in every step it executes |
| TileSignals.OrderExactly | validation/script_generator.py:884-893 | that condition is exact: the cursor stands at every operation's constant in every execution if and only if the time steps are distinct and less than one initiation interval apart |
| TileSignals.CountAt | validation/script_generator.py:884-886 | before constant i is used for the (m+1)-th time exactly m full rounds and i more constants have been consumed |
| TileSignals.WideWindowMisorders | validation/script_generator.py:884-886 | with a wider window the first operation's second execution finds another operation's constant |
| TileSignals.SortIsStableSort | validation/script_generator.py:886 | the sort orders by time step, keeps all constants and keeps ties in order |
| TileSignals.ExecutesAfterPasses | validation/script_generator.py:766-770 | an operation of time step t executes in steps t, t + ii, t + 2 ii, ... |
| TileSignals.FillIdle | validation/script_generator.py:913-931 | one packet per address: idle words at addresses without an instruction, the first instructions at the others |
| TileSignals.FilledConfiguresAll | validation/script_generator.py:913-931 | for distinct addresses below ii the packets configure every address with its own word or the idle one, whatever the instructions' order |
| ConstQueue.OneAdvancePerStep | mem/const/ConstQueueDynamicRTL.py:97-121 | the cursor advances exactly once per completed step in which ready was raised, however early and often, and wraps at the number loaded |
| ConstQueue.PendingIsAsked | mem/const/ConstQueueDynamicRTL.py:99-121 | the pending bit is set exactly while the running step has asked |
| ConstQueue.Sees | mem/const/ConstQueueDynamicRTL.py:88-121 | throughout a step the reader sees constant number consumed mod loaded |
| ConstQueue.LoadedThenRead | mem/const/ConstQueueDynamicRTL.py:62-121 | from a clear on, whatever ran before: the constants written are kept as far as there is room, the writer is turned away once it is full, and the reader sees them round and round, one per consuming step |
| ConstQueue.LoadsInOrder | mem/const/ConstQueueDynamicRTL.py:62-85 | loading fills the queue in order as far as it has room and drops the rest |
| ConstQueue.ReadingEmptyWalksOff | mem/const/ConstQueueDynamicRTL.py:97-115 | read before anything is loaded, the cursor counts the consuming steps through all addresses while nothing is offered |
| ConstQueue.ConstQueueDynamicRTL.Clock | mem/const/ConstQueueDynamicRTL.py:62-121 | cursors, pending bit, register file and the wires are as modelled |
| CtrlMem.FollowsSchedule | mem/ctrl/CtrlMemDynamicRTL.py:205-243 | under any timing a launched memory issues the schedule's words in order, idle exactly in each address's prologue, never more than the budget, and at most one completion |
| CtrlMem.ModuloSchedule | mem/ctrl/CtrlMemDynamicRTL.py:265-305 | in closed form: word k is memory[lower + (r + k) mod ii], idle in the first passes over its address |
| CtrlMem.LaunchFollowsCommands | mem/ctrl/CtrlMemDynamicRTL.py:105-361 | from reset and any commands, REARM and earlier launches included, a launch issues the words last configured, in the window last configured, idle in the passes last configured, up to the budget last configured |
| CtrlMem.StateFollows | mem/ctrl/CtrlMemDynamicRTL.py:265-305 | after n issued words the program counter, the step count and every prologue count are those of n steps |
| CtrlMem.UsesWholeBudget | mem/ctrl/CtrlMemDynamicRTL.py:189-221 | without an early COMPLETE, completion means exactly the whole budget was issued, and until then the next word is offered |
| CtrlMem.OffersExactly | mem/ctrl/CtrlMemDynamicRTL.py:188-241 | what a launched memory drives follows from what it has issued and completed: the next word exactly while budget is left, then the completion whenever the FU has no message of its own, and nothing after it |
| CtrlMem.SilentWhenComplete | mem/ctrl/CtrlMemDynamicRTL.py:205-215 | after the completion nothing is issued, completed or changed until the next command |
| CtrlMem.OfferIsStable | mem/ctrl/CtrlMemDynamicRTL.py:205-241 | a word stays offered unchanged until it is taken |
| CtrlMem.RelaunchIssuesNothing | mem/ctrl/CtrlMemDynamicRTL.py:243-303 | LAUNCH without TERMINATE after completion issues nothing |
| CtrlMem.RestartContinues | mem/ctrl/CtrlMemDynamicRTL.py:283-303 | TERMINATE then LAUNCH runs the budget again from the program counter where it stopped |
| CtrlMem.VisitsSoFar | mem/ctrl/CtrlMemDynamicRTL.py:297-305 | step k is pass k div ii over its own address |
| CtrlMem.XbarHoldsLast | mem/ctrl/CtrlMemDynamicRTL.py:318-336 | after any commands each prologue count given to the crossbars is the last one configured for its address and input; REARM does not clear it |
| CtrlMem.CtrlMemDynamicRTL.Clock | mem/ctrl/CtrlMemDynamicRTL.py:188-361 | all registers, the prologue counts of both crossbars included, and the wires to the tile and the controller are as modelled |
| TileJoin.OncePerStep | tile/TileRTL.py:321-358 | every retired word was executed exactly once by each of the FU and the two crossbars, and nothing else was |
| TileJoin.ExecutesSchedule | tile/TileRTL.py:321-358 | the k-th word each part executes is the k-th of the modulo schedule, whatever the parts' timing; with a flag left over from before the launch it misses the first |
| TileJoin.FirstWordLostExactly | tile/TileRTL.py:345-358 | for any configuration before a launch: the FU misses the first word, and executes every later one, exactly if at some moment since the last REARM the current address had a prologue; the crossbars miss nothing |
| TileJoin.ExecutesCommands | tile/TileRTL.py:321-358 | from reset and any configuration to a launch, under any timing: the k-th word each part executes is the one the commands put there, except that the FU is one ahead exactly if at some moment since the last REARM it was to idle at what was then the lower bound |
| TileJoin.MovedLowerBoundLosesFirstInstruction | tile/TileRTL.py:345-358 | a flag set by an early prologue makes the FU skip a working instruction after the lower bound moves |
| TileJoin.EarlyReadySetsFlag | fu/flexible/FlexibleFuRTL.py:138 | readiness without a word sets the FU's done flag before the launch |
| TileJoin.TileJoinRTL.Clock | tile/TileRTL.py:321-362 | the three flags, their clearing by REARM, and the wires to the three parts, the control memory, the constant queue and the crossbars are as modelled |
| PrologueAlignment.Aligned | mem/ctrl/CtrlMemDynamicRTL.py:236-241 | with equal prologue counts, at every step the FU crossbar waits for the FU's result exactly when the FU is allowed to produce one |
| PrologueAlignment.ExecutesUnlessIdled | mem/ctrl/CtrlMemDynamicRTL.py:236-241 | with the generated prologue counts, an operation executes in exactly the steps the constant order counts for it |
| PrologueAlignment.PassesAreVisits | noc/CrossbarRTL.py:175-188 | the FU crossbar passes over an address once per visit of the program counter |
| CrossbarProofs.LatencyInsensitive | noc/CrossbarRTL.py:106-160 | any run under any timing is the timing-free execution of the completed words: same streams left, same counters, and every output has exactly that execution's messages in order, without those of the words that skipped it, and with the one already served for the word under way |
| CrossbarStreams.DeliversExactly | noc/CrossbarRTL.py:106-318 | from a cleared crossbar, under any timing, with k words completed each input has lost exactly the messages those words use up and each output has exactly the messages they carry to it, told from the words, the prologue limits and the inputs alone |
| CrossbarStreams.ClearStartsOver | noc/CrossbarRTL.py:162-195 | clear leaves the state of such a crossbar: no output served, every prologue counter at 0 |
| CrossbarStreams.MulticastIsSame | noc/CrossbarRTL.py:305-318 | outputs that every word maps to the same input get the same messages |
| CrossbarStreams.CompletesExactly | noc/CrossbarRTL.py:106-160 | a word completes exactly when every output mapped to an input past its prologue finds a message and has it, is ready for it or faces an FU that is done |
| CrossbarStreams.OffersExactly | noc/CrossbarRTL.py:106-160 | an output is offered its message exactly while all messages the word needs are there and it has not got it |
| CrossbarStreams.ServesAll | noc/CrossbarRTL.py:305-318 | with the FU not done a completed word has given every output that wants one the head of its input, multicast included |
| CrossbarProofs.SkippedExactly | noc/CrossbarRTL.py:246-263 | over runs, a word skips an output exactly if it asks for it, has not served it, finds it not ready, it faces the FU and the FU is done |
| CrossbarProofs.WholeStream | noc/CrossbarRTL.py:106-160 | outputs that do not face the FU, and all while the FU is not done, have all of the execution's messages |
| CrossbarProofs.TimingIsInvisible | noc/CrossbarRTL.py:106-160 | two complete runs of the same words on the same streams deliver the same streams |
| CrossbarProofs.ServedUnlessExempt | noc/CrossbarRTL.py:246-263 | a completed word served an output unless exactly the FU-done exemption was used for it |
| CrossbarProofs.FiresWhenServed | noc/CrossbarRTL.py:266-283 | a word completes as soon as its own inputs and outputs allow |
| CrossbarProofs.PrologueAccounting | noc/CrossbarRTL.py:175-188 | after k passes the counter is min(k, p) and k - min(k, p) passes took data |
| CrossbarProofs.NeedsIsUsePastPrologue | noc/CrossbarRTL.py:285-304 | an input is dequeued exactly when the word uses it past its prologue |
| Crossbar.CrossbarRTL.Clock | noc/CrossbarRTL.py:106-318 | readiness, valid bits and messages on every wire and both registers are as modelled |
| Crossbar.CrossbarRTL.RequiredVectors | noc/CrossbarRTL.py:213-243 | the prologue vector and the OR-accumulated required vector are as specified |
| RegisterBank.ExactlyOnce | mem/register_cluster/RegisterBankRTL.py:165-327 | with step-stable words, per register, what was accepted is what was consumed, then the held token, then the parked write |
| RegisterBank.StepIsFifo | mem/register_cluster/RegisterBankRTL.py:221-327 | one edge keeps that order for every register |
| RegisterBank.RunKeepsSkid | mem/register_cluster/RegisterBankRTL.py:242-272 | the inductive invariant: a full skid means the current word reads and writes its register |
| RegisterBank.NoPortClash | mem/register_cluster/RegisterBankRTL.py:242-272 | a direct write and a skid commit never share the write port |
| RegisterBank.OneWritePerStep | mem/register_cluster/RegisterBankRTL.py:188-219 | a write is accepted only if none was accepted before it in the same step |
| RegisterBank.StepIsFifoExactly | mem/register_cluster/RegisterBankRTL.py:221-272 | for arbitrary words, an edge keeps every register's order unless an occupied skid drains while a write to an idle, token-free register is offered, and then only if the value lost was stored already |
| RegisterBank.WordChangeLosesWrite | mem/register_cluster/RegisterBankRTL.py:262-264 | a concrete run in which an early word change loses an accepted write |
| RegisterBank.ReadModifyWriteAccepted | mem/register_cluster/RegisterBankRTL.py:188-219 | a same-register read-modify-write is acceptable at every step start |
| RegisterBank.RefusesAfterAccept | mem/register_cluster/RegisterBankRTL.py:188-219 | at most one write is accepted per control step |
| RegisterBank.PortsSteady | mem/register_cluster/RegisterBankRTL.py:274-285 | both read ports show the same value and validity throughout a step, up to a reset, in which neither is valid |
| RegisterBank.PortsFollowHistory | mem/register_cluster/RegisterBankRTL.py:188-327 | in every run with step-stable words a register is offered, to the side or sides the word names, exactly while nothing has landed in it or a landed value has not been taken, and what is offered is the oldest such value; when a write is accepted is told the same way |
| RegisterBank.ConsumedIsTaken | mem/register_cluster/RegisterBankRTL.py:282-327 | what the bank counts as consumed is what the reading steps took |
| RegisterBank.RegisterBankRTL.Clock | mem/register_cluster/RegisterBankRTL.py:165-327 | registers, tokens, armed bits and skid change as modelled; read ports and write readiness, in reset cycles too, are as modelled |
| LoopController.RunsItsLoop | controller/LoopControllerRTL.py:299-369 | at every moment a CCU has consumed the completions of k iterations and part of one, and sent exactly the messages of the matching rounds, each target once per round in order |
| LoopController.FinishedLoop | controller/LoopControllerRTL.py:335-369 | a finished loop consumed childCount completions per iteration and dispatched one round fewer than iterations, round k carrying lower + k * step |
| LoopController.FinishesFromCommands | controller/LoopControllerRTL.py:250-297 | from the configuration commands and a LAUNCH: a loop is complete exactly when ceil((upper - lower) / step), at least one, times its child count completions have been consumed, whatever the order of the commands and however often they were repeated |
| LoopController.SendsFromCommands | controller/LoopControllerRTL.py:160-187 | and its messages are, round by round, one for each target in the order the targets were added, with that round's value |
| LoopController.LaunchRunsTheLoop | controller/LoopControllerRTL.py:291-297 | LAUNCH runs the whole loop whatever the CCU did before, and a second LAUNCH does it again |
| LoopController.LaunchStarts | controller/LoopControllerRTL.py:291-297 | LAUNCH starts every configured CCU at its lower bound and leaves an unconfigured one alone |
| LoopController.TripsIsLast | controller/LoopControllerRTL.py:344-356 | the number of iterations is ceil((upper - lower) / step), but at least one |
| LoopController.ValueIs | controller/LoopControllerRTL.py:340-345 | the counter after k iterations is lower + k * step |
| LoopController.FullTargetsNeverFinish | controller/LoopControllerRTL.py:311-330 | a round ends after the last target exactly when the index type has room for the number of targets |
| LoopController.Projects | controller/LoopControllerRTL.py:291-369 | among independent CCUs each root does exactly what it would do alone |
| LoopController.CountedByOwnerOnly | controller/LoopControllerRTL.py:190-206 | with disjoint leaves a completion is accepted exactly when its owner is running, and only the owner counts it, unless a remote completion is counted in the same cycle |
| LoopController.AllCompleteMeansFinished | controller/LoopControllerRTL.py:144-150 | the completion signal means every launched root has run all of its loop |
| LoopController.SignalExactly | controller/LoopControllerRTL.py:144-150 | after a LAUNCH of configured roots the signal is up exactly when every root has consumed all the completions of its loop |
| LoopController.ChildCountsAtParent | controller/LoopControllerRTL.py:344-369 | a child CCU that finishes is one completion of its parent, counted in the same cycle |
| LoopController.IndependentNext | controller/LoopControllerRTL.py:299-369 | for CCUs without parents the edge is that of independent CCUs, which the other results are about |
| LoopController.RemoteCompletions | controller/LoopControllerRTL.py:371-389 | a remote completion is taken when any CCU runs and is counted at every running one; together with a leaf's completion it counts once, though both are taken |
| LoopParents.NestedLoops | controller/LoopControllerRTL.py:299-369 | from LAUNCH, under any timing, a root and its child CCU run two nested loops: the root is complete exactly when all inner iterations' completions have been taken, and by then the messages sent are those of the nest, in order, each on its target's channel |
| LoopParents.NestedRun | controller/LoopControllerRTL.py:299-369 | at every moment both loops are in some iteration, with exactly the completions and messages that takes; the outer loop's dispatch restarts the inner one |
| LoopParents.TurnAt | controller/LoopControllerRTL.py:160-187 | message t of a round r is for target t, on its channel, with the value lower + r * step |
| LoopParents.ThirdLevelStalls | doc/figures/loop_controller/README.md:87-114 | with a leaf that completes once for the launch and once for each reset, the outer loop never gets through its second iteration and the completion signal never comes |
| LoopParents.SharedLeafAdvancesBoth | controller/LoopControllerRTL.py:329-343 | a leaf that is a target of both CCUs advances both with each completion |
| LoopController.LoopControllerRTL.Clock | controller/LoopControllerRTL.py:144-389 | encoder, matching, dispatch and counting loops compute the modelled edge, restarts of children, notification of parents and remote completions included; the message on offer, both input readies and `all_loops_complete` are as modelled |
| LoopController.LoopControllerRTL.FindActive | controller/LoopControllerRTL.py:152-158 | the priority encoder selects the first dispatching CCU |
| LoopController.LoopControllerRTL.MatchesOne | controller/LoopControllerRTL.py:195-203 | the target scan decides whether a running CCU owns the leaf |
| LoopController.LoopControllerRTL.Launch | controller/LoopControllerRTL.py:291-297 | the loop over the CCUs starts each of them as modelled |
| LoopController.LoopControllerRTL.Configure | controller/LoopControllerRTL.py:250-289 | a configuration command changes one CCU as modelled |
| LoopCounter.DeliversRange | fu/single/LoopCounterRTL.py:107-136 | since its last reset a leaf delivered a prefix of its range in order, and reported completion at most once, after all of it |
| LoopCounter.DeliversConfigured | fu/single/LoopCounterRTL.py:107-244 | from reset and any commands: a leaf whose counting has not begun since its last clear, rearm or reset delivers exactly the range last configured, then predicate 0, and offers its completion once; the wires of every cycle are told from that |
| LoopCounter.DeliversShadow | fu/single/LoopCounterRTL.py:138-149 | a delivery waits for a shadow value and then puts out the last one that came since the last clear or rearm |
| LoopCounter.TripsIsLast | fu/single/LoopCounterRTL.py:88-89 | a leaf stops after ceil((upper - lower) / step) values, none if the range is empty |
| LoopCounter.LoopCounterRTL.Clock | fu/single/LoopCounterRTL.py:176-245 | per-address registers change as modelled; a reset outranks an advance, which outranks configuration; the outputs are those of the operation executed |
| LoopCounter.LoopCounterRTL.Drive | fu/single/LoopCounterRTL.py:107-149 | the count operation puts out a value, or a predicate-0 token and once a completion; the delivery operation puts out its shadow register, once that is valid |
| LoopNest.PhaseStep | controller/LoopControllerRTL.py:299-369 | every cycle keeps the controller, the channels and the leaf in step, with up to two rounds of messages in flight |
| LoopNest.HoldsStep | fu/single/LoopCounterRTL.py:214-225 | a shadow register holds the controller's value from the arrival of its message on, and in round 1 the first value until then |
| LoopNest.WorkDrops | controller/LoopControllerRTL.py:299-369 | the work left never grows and drops in every cycle in which all parties are willing |
| NestTiles.ViewStep | controller/LoopControllerRTL.py:160-186 | with targets on several tiles, each with its own channel, the leaf's tile sees in every cycle the nest over its own targets |
| NestTiles.InnerStream | controller/LoopControllerRTL.py:299-369 | under any timing, wherever leaf and registers stand among targets and tiles, the leaf's predicate-1 values are a prefix of its range repeated once per outer iteration, and all of it when the controller is done |
| NestTiles.NestFinishes | controller/LoopControllerRTL.py:299-369 | the nest is done, with all values out, after a known number of cycles in which all parties are willing, whatever happens in between |
| NestTiles.NetWorkDrops | controller/LoopControllerRTL.py:299-369 | the work left, messages to other tiles included, never grows and drops in every such cycle |
| NestPairing.NestEqualsSoftware | fu/single/LoopCounterRTL.py:107-149 | each count result paired with the delivery result of the same number: with a register of the leaf's tile, refreshed before the leaf and delivered in the interval behind each count, the pairs are a prefix of the two nested software loops, and all of it when the controller is done |
| NestPairing.PairsAnyway | fu/single/LoopCounterRTL.py:107-149 | with a single iteration or without values they are a prefix of it wherever the register is and in whatever order the steps run |
| NestPairing.PaceStep | fu/single/LoopCounterRTL.py:107-149 | every cycle keeps the pairs put out so far, and the one a delivery is due for, in step with the loop |
| NestPairing.NestAt | fu/single/LoopCounterRTL.py:107-136 | output number k * trips + j of the software loops is (lower + k * step, leaf lower + j * leaf step) |
| NestPairing.LagIs | validation/script_generator.py:766-770 | the order of all executions of two steps that recur every ii follows from how many of one precede the first of the other |
| NestMispairs.PairingExactly | fu/single/LoopCounterRTL.py:107-149 | the pairs are the software loops' under every timing if and only if the register is on the leaf's tile, its target precedes the leaf, and count step < delivery step < count step + ii; or there is no second iteration; or no value |
| NestMispairs.Mispairs | fu/single/LoopCounterRTL.py:107-149 | in every other case some timing that keeps the order of the steps mispairs |
| NestMispairs.SeparateTilesMispair | doc/figures/loop_controller/README.md:24-28 | with count and delivery on two tiles some timing mispairs, for every target order and for every order the two tiles' steps may keep |
| NestMispairs.LeafFirstMispairs | controller/test/LoopControllerRTL_test.py:261-266 | a concrete run of the test's target order meets value 0 of iteration 1 with the outer value 0 |
| NestMispairs.DeliveryFirstMispairs | fu/single/LoopCounterRTL.py:138-149 | so does one with the register listed first and its delivery step ahead of the count step |
| NestMispairs.ApartMispairs | doc/figures/loop_controller/README.md:24-28 | and one with the register listed first on another tile, count and delivery in lockstep |
| LoopSiblings.Barrier | controller/test/LoopControllerRTL_test.py:176-190 | under any timing all leaves of a CCU are in the same iteration k, the controller's: each has put out its range k times and part of it once more |
| LoopSiblings.SiblingStreams | controller/LoopControllerRTL.py:327-369 | each leaf's values are a prefix of its own range once per iteration, and all of it when the controller is done |
| LoopSiblings.SiblingsFinish | controller/LoopControllerRTL.py:327-369 | with as many completions awaited as there are leaves the barrier cannot deadlock: it is done after a known number of willing cycles |
| LoopSiblings.GroupStep | controller/LoopControllerRTL.py:299-369 | every cycle keeps the controller, all leaves, their resets and the completions on the way in step |
| LoopSiblings.TooManyAwaited | controller/LoopControllerRTL.py:335-343 | with more completions awaited than there are leaves the controller never leaves iteration 0 |
| LoopSiblings.TooFewAwaited | controller/LoopControllerRTL.py:335-343 | a concrete run with fewer in which a leaf is reset halfway and starts its range again |
| DmaEngine.CommandsMoveTheirWords | mem/dma/DmaEngineRTL.py:172-325 | any sequence of commands of 0 or at least 4 bytes, under any delays on each channel: every command is accepted, completes and is reported once, in order, and whenever the engine is idle both memories are what the commands so far make of them; a known number of served cycles is enough |
| DmaEngine.CommandMovesItsWords | mem/dma/DmaEngineRTL.py:210-325 | one such command moves exactly its whole words and changes nothing else, with ceil(w / 4) DRAM and w scratchpad transactions |
| DmaEngine.BusyStep | mem/dma/DmaEngineRTL.py:248-325 | every handshake keeps the state's account of what has moved |
| DmaEngine.WorkDrops | mem/dma/DmaEngineRTL.py:248-325 | every handshake lowers the termination measure by one |
| DmaEngine.DramStep | mem/dma/DmaEngineRTL.py:143-160 | a masked beat write delivers exactly the words packed in it and no byte behind them |
| DmaEngine.RoundTrip | mem/dma/DmaEngineRTL.py:172-208 | a run of an MVIN and then an MVOUT copies the bytes exactly and changes nothing else in DRAM |
| DmaEngine.ShortCommandOverruns | mem/dma/DmaEngineRTL.py:234-246 | a command of 1 to 3 bytes moves a word, wraps its count and does not finish |
| DmaEngine.NeverOverrunsExactly | mem/dma/DmaEngineRTL.py:231-246 | no overrun exactly for 0 or at least 4 bytes |
| DmaEngine.DmaEngineRTL.Clock | mem/dma/DmaEngineRTL.py:210-325 | the state machine's registers change as modelled, each channel by its own handshake |
| DmaEngine.DmaEngineRTL.Drive | mem/dma/DmaEngineRTL.py:172-208 | the wires of the five channels are as modelled |
| Im2col.StreamIsColumnMatrix | fu/others/Im2colEngineRTL.py:198-273 | under any delays packet k goes to base + k with the pixel of the k-th nest position, and DONE means every position was sent once in order |
| Im2col.PreservesConvolution | fu/others/Im2colEngineRTL.py:248-273 | the flattened kernel times the streamed matrix is the direct strided convolution at every output position |
| Im2col.CommandsStream | fu/others/Im2colEngineRTL.py:198-273 | from the configuration commands on, in any order and with repetitions: a launch streams the column matrix of the geometry last written, and the wires show the next read, the next packet or the completion |
| Im2col.CommandsConvolve | fu/others/Im2colEngineRTL.py:198-273 | after twice as many willing cycles as elements it is done, and the flattened kernel times what it sent is the strided convolution |
| Im2col.AddressExact | fu/others/Im2colEngineRTL.py:130-136 | no intermediate value overflows and every read is inside the image |
| Im2col.OutSizeExact | fu/others/Im2colEngineRTL.py:228-246 | the latched output size is floor((size - kernel) / stride) + 1 |
| Im2col.AdvanceCounts | fu/others/Im2colEngineRTL.py:248-273 | advancing the four counters moves the flat output index by one |
| Im2col.FlatInjective | fu/others/Im2colEngineRTL.py:178-185 | different positions have different flat indices |
| Im2col.FlatReaches | fu/others/Im2colEngineRTL.py:178-185 | every index of the stream belongs to a position |
| Im2col.WorkDrops | fu/others/Im2colEngineRTL.py:248-273 | the four counters give a decreasing measure |
| Im2col.Im2colEngineRTL.Clock | fu/others/Im2colEngineRTL.py:149-273 | registers and wires are as modelled |
| GlobalReduce.RoundsNeverMix | controller/GlobalReduceUnitRTL.py:45-115 | response j goes back to contributor j, source and destination exchanged, with the sum, or the product, of exactly its own round's contributions of that kind modulo the payload width |
| GlobalReduce.OffersExactly | controller/GlobalReduceUnitRTL.py:45-95 | the wires follow from the history: contributions are taken until the round is complete, as far as the queue has room; then its answers are offered in turn; at most one cycle later the next round begins |
| GlobalReduce.RoundStep | controller/GlobalReduceUnitRTL.py:54-115 | counters, queue and both accumulators always describe one round |
| GlobalReduce.QuietBetweenRounds | controller/GlobalReduceUnitRTL.py:60-76 | between rounds every contributor has been answered once and the unit is ready for the next count |
| GlobalReduce.Progress | controller/GlobalReduceUnitRTL.py:45-95 | with at most 16 contributors a round always moves on |
| GlobalReduce.TooManyContributors | controller/GlobalReduceUnitRTL.py:34-52 | with more than 16 nothing is ever answered |
| GlobalReduce.GlobalReduceUnitRTL.Clock | controller/GlobalReduceUnitRTL.py:45-115 | counts, both accumulators, queue and wires are as modelled |
| BankedMemory.RefinesFlatMemory | mem/data/DataMemControllerRTL.py:205-260 | any loads and stores from any CGRAs get the replies of one flat memory and leave its contents; those beyond the map are never answered |
| BankedMemory.PlacesAreUnique | controller/ControllerRTL.py:611-613 | different addresses are held at different places, and the place does not depend on who asks |
| BankedMemory.EveryPlaceIsUsed | mem/data/DataMemWrapperRTL.py:72-86 | every bank word of every CGRA holds some address |
| BankedMemory.RoutesToOwner | mem/data/DataMemControllerRTL.py:205-229 | an access ends at the CGRA whose range holds the address, in the bank and offset of that address |
| BankedMemory.OutsideNeverServed | controller/ControllerRTL.py:611-613 | beyond the map the table index wraps at the width of a CGRA id: if it hits an entry, the CGRA named forwards the request to itself for ever; if not, the lookup fails |
| BankedMemory.WrappedAddressTravels | cgra/test/CgraTemplateRTL_test.py:132-160 | in the test's map address 16 travels to CGRA 0 for ever, from every CGRA |
| BankedMemory.AcceptsExactlyFitting | controller/ControllerRTL.py:173-187 | for any ranges the table construction fails exactly when some length is no power of two, or a range's slot, by its own length, is beyond the table or another's; then each slot names its CGRA |
| BankedMemory.PowerOfTwoExactly | controller/ControllerRTL.py:173-187 | the length check is passed by the powers of two and nothing else |
| BankedMemory.AcceptsExactlyDisjoint | controller/ControllerRTL.py:173-187 | for equal aligned ranges the table construction succeeds exactly when no two overlap |
| BankedMemory.FillsUnlessOverlapping | controller/ControllerRTL.py:173-187 | and then every range's slot names its CGRA |
| BankedMemory.BuildTable | controller/ControllerRTL.py:173-187 | the construction loop computes that table or fails as the assertions do |
| BankedMemory.DataMemWrapperRTL.Write | mem/data/DataMemWrapperRTL.py:72-86 | a write changes one word, at the address modulo the bank size |
| BankedMemory.ReadsLatest | mem/data/DataMemWrapperRTL.py:72-86 | a bank read returns the value of the last write whose address differs by whole banks, or the initial word |
| Queues.RunIsFifo | lib/basic/val_rdy/queues.py:83-145 | normal, pipe and bypass queues of two or more entries are lossless FIFOs over every run, never holding more than their capacity |
| Queues.SlotRunIsFifo | lib/basic/val_rdy/queues.py:527-564 | so are the three one-entry queues |
| Queues.HandshakesFollowFill | lib/basic/val_rdy/queues.py:116-121 | over every run a queue is ready exactly while not full (a pipe queue also when popped) and offers exactly while not empty (a bypass queue also when pushed) |
| Queues.StepRefinesFifo | lib/basic/val_rdy/queues.py:411-472 | one edge stores an accepted message once and a refused one never, also for a full pipe queue and an empty bypass queue |
| Queues.SlotStepRefinesFifo | lib/basic/val_rdy/queues.py:527-564 | the same for the one-entry queues |
| Queues.StepValid | lib/basic/val_rdy/queues.py:120-145 | every edge keeps tail = (head + count) mod n, for every capacity |
| Queues.ChainRunIsFifo | noc/ChannelWithClearRTL.py:39-63 | a channel of any latency is one lossless FIFO over every run and holds at most the summed capacity of its stages |
| Queues.ClearEmptiesChain | noc/ChannelWithClearRTL.py:39-63 | clear empties every stage of a channel |
| Queues.ChannelDrains | noc/ChannelWithClearRTL.py:39-63 | a channel with a willing consumer delivers everything in flight, in order, in a known number of cycles |
| Queues.RingQueue.Clock | lib/basic/val_rdy/queues.py:120-145 | register file and pointers change as modelled and contents follow the FIFO law |
| VectorLanes.CombinedIsWide | fu/vector/VectorAdderComboRTL.py:58-71 | OPT_VEC_ADD_COMBINED is the full-width addition and OPT_VEC_SUB_COMBINED and OPT_VEC_SUB_CONST_COMBINED the full-width subtraction modulo the word, for any lane count and width |
| VectorLanes.UncombinedIsLanewise | fu/vector/VectorAdderRTL.py:74-137 | in the other operations every lane is its own modular addition or subtraction, as the opcode says |
| VectorLanes.CarryChain | fu/vector/VectorAdderComboRTL.py:58-61 | lanes plus carry or borrow out account exactly for the operands |
| VectorLanes.ConstCombinedIsWideExactly | fu/vector/VectorAdderComboRTL.py:135-142 | the combined constant addition is full-width exactly when no lane below the top carries |
| VectorLanes.ComputeLanes | fu/vector/VectorAdderRTL.py:74-139 | the row of lane units computes the chained lanes and the top carry |
| VectorLanes.CombinedMulIsExact | fu/vector/VectorMulComboRTL.py:116-137 | combined multiplication is the exact product of the two low-lane operands, without overflow |
| VectorLanes.VectorMulIsLanewiseExactly | fu/vector/VectorMulComboRTL.py:93-114 | lane-wise multiplication gives every lane its own product exactly when the lower products fit their lanes |
| VectorLanes.MulLanesAre | fu/vector/VectorMulComboRTL.py:106-114 | shifted and added double-width products are the lanes with carries |
| VectorLanes.SplitAt | fu/vector/VectorAdderComboRTL.py:63-71 | lane k of a word is its k-th digit in the base of the lane |
| VectorLanes.SplitJoin | fu/vector/VectorAdderComboRTL.py:63-71 | cutting a word into lanes and putting them together gives the word back |

## Left out

- Structural wiring, architecture YAML, ring and mesh networks, HardFloat units, division and floating-point FUs: connection lists or foreign code.
- Simple one-cycle FUs: an FU is its handshakes; `OPT_SUB_CONST` of fu/single/AdderRTL.py:111-120 never raises the constant's ready and so falls outside `TileSignals.SeesOwnConstant`, which asks that every operation with a constant does.
- Opcode lookup and packet formatting in the script generator, and its diagonal directions, which `buildCtrlPkt` rejects or mishandles; the model has the four mesh directions.
- CompilerProofs.BuildMeansWhatItSays: says where values come from within one control step, assuming that every register a word reads holds a token; `CompilerProofs.TokensMatterExactly` says when that matters. RegisterBank does not prove that a token is there.
- CompilerAccepts.LanesExactly: where a port's own lane lies above an open one, the outcome of the first-fit search depends on the operands' order and is left as that search (`Placeable`); `LanesNeeded` and `LanesSuffice` bound it.
- TileSignals.SeesOwnConstant: asks for one constant per operation, since constants that share a time step are mispaired (`TileSignals.OrderExactly`); and takes an operation's idle passes to be its time step divided by ii, which is what the compiler's `invalid_iterations` are.
- Context switch, pause, vector-factor replay and streaming loads; RESUME is modelled at the control memory's registers only, and REARM there, at the loop counter and at the tile's flags.
- CtrlMem.RestartContinues: tile/TileRTL.py:281-302 forwards neither TERMINATE nor RESUME to the control memory, so through a tile as wired this sequence cannot be sent; nor does it forward RESET_LEAF_COUNTER and UPDATE_COUNTER_SHADOW_VALUE, on which the command channels of LoopNest, NestTiles and LoopSiblings rely.
- TileJoin.FirstWordLostExactly: takes the units inside the FU and the two crossbars not to be ready while nothing is offered.
- CtrlMem.FollowsSchedule: covers runs without commands between launch and completion, and programs without OPT_START words in the window.
- Runs of CCUs on several CGRAs: only single cycles of these are modelled (`LoopController.RemoteCompletions`). Configuration commands of the loop controller are taken one at a time, before the launch.
- LoopParents.NestedLoops: one root and one child, whose parent awaits just the child; deeper chains and several children are left to `LoopController.ChildCountsAtParent`.
- NestTiles.InnerStream: one CCU; commands and completions travel on reliable FIFO channels, which Queues proves of the repository's channels. LoopControllerRTL stores a tile id per target (controller/LoopControllerRTL.py:95, 272) but puts none in its messages (181-184) and is instantiated nowhere; the model delivers each message to the tile stored with its target.
- NestPairing.NestEqualsSoftware: a step's result counts as put out when the step completes. The predicate-0 token of a leaf whose completion message is refused leaves before that (fu/single/LoopCounterRTL.py:122-128); the model does not repeat it.
- NestMispairs.PairingExactly: the register starts valid with the loop's first value, as a host has to arrange; the loops over it are one CCU and one leaf.
- LoopSiblings.SiblingsFinish: counts cycles in which all leaves are executed, so it is about leaves on tiles of their own; the other results about siblings hold for leaves anywhere.
- LoopController.FinishedLoop: asks that the counter does not overflow its payload and that the number of targets is below the index type's range.
- GlobalReduce.RoundsNeverMix: counts are delivered between rounds.
- BankedMemory.RefinesFlatMemory: operations one after another, and ranges as long as a CGRA's banks; arbitration among simultaneous requests is left to the crossbars.
- Queues.RunIsFifo: the ring-buffer queues; one-entry queues have their own theorem.
- Crossbar: inputs and the control word are held until taken, as the val/rdy protocol of the repository asks.
- Lazy preloading of scratchpads: the im2col image is a plain array.
- VectorLanes: the handshakes of the vector units, which follow lane 0.
