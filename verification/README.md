# Ibex verification tooling: a Dafny model

This project models the parts of the Ibex repository that decide whether a proof, a simulation or a
report can be trusted, and proves what they promise. Five independent components:

* **The AIGER proof toolchain** (`dv/formal`). A writer compiles a gate netlist into an and-inverter
  graph; a multiplexer pass drops dead ports beforehand; `aig-manip` cuts the graph into one proof
  obligation per step, checks its order and explains traces; a scheduler runs the proof jobs.
* **The PMP/ePMP register model** (`dv/cs_registers/model`), where registers lock each other.
* **The data-access matcher of the co-simulation** (`dv/cosim`).
* **The split 64-bit timer protocol** of the simple-system software.
* **The line-range printer and parser** that two SBFL packages exchange text through.

## Main results

* *Compilation keeps failures.* For every well-formed acyclic netlist and every option set, an assert
  can fail under the assumes exactly when its bad literal is reachable under the constraints, and a
  liveness obligation can stay unmet under fairness exactly when its justice literal can hold
  infinitely often (`AigerPass.Translate`, `AigerPass.CompiledHasSameFailures`). Runs are infinite and
  the correspondence is proved in both directions.
* *The stepwise proof is sound, down to the netlist.* If every selected graph reaches no kept
  non-cover bad, no run of the original graph violates any non-cover assertion
  (`AigSelect.StepwiseProofIsSound`), hence no assert of the compiled netlist can fail
  (`AigerPass.ProvenStepsHoldInNetlist`).
* *Dead-port removal keeps every observed bit* although muxes are skipped, cut off and rerun
  (`MuxtreePass.RunPass`, `MuxtreePass.SeenBitsKept`); a run that is done leaves exactly the ports that an
  evaluation from a root let through, and it is done within a computable number of evaluations. The
  repetition ends (`MuxtreeRepeat.Execute`), and over all its
  passes, with signals merged along the connections that each one makes, every bit looked at keeps
  its value (`MuxtreeRepeat.SeenBitsSurvive`).
* *A locked region is fixed* under any sequence of transactions until the next reset
  (`CsrModel.LockedSinceReset`).
* *The matcher retires accesses in order*, each fully and once (`Cosim.SpikeCosim.CheckMemAccess`).
* *The scheduler keeps submission order* through kills and restarts and resolves each future at most
  once; which processes a turn kills, starts and collects is determined exactly
  (`Conductor.ProcessRunner.Poll`, `Scheduling.TurnUnique`).

## How the model is laid out

| file | content |
|---|---|
| `AigCore`, `Netlist` | the meaning of graphs and of netlists over infinite runs |
| `AigerLayout`, `AigerWriter` | the numbering, and the writer as a class that fills its tables |
| `AigerCorrect`, `AigerLiveness`, `AigerPass` | the compiled graph against the netlist |
| `AigerBinary` | the byte section of the gates |
| `Muxtree`, `OptMuxtree`, `MuxtreePass` | the multiplexer pass: data, analysis, rebuild |
| `MuxtreeRename`, `MuxtreeRepeat` | merging signals between passes, and the passes repeated |
| `AigSelect`, `AigGraph`, `AigWhy`, `BitVec` | `aig-manip` |
| `Scheduling`, `Conductor` | one turn of the process runner as functions, and the runner |
| `CsrWords`, `CsrModel` | the register model |
| `Cosim`, `Timer`, `LineRanges` | the remaining components |
| `Wrappers` | optional values |

Conventions of the model:

* A literal is a variable with a sign; `Lit.Code` gives the number 2v or 2v+1 that a file holds.
  Netlists are already canonicalised; every dictionary whose iteration order the writer depends on is
  a sequence, so the theorems hold for any order. `bits` and `leaves` of a netlist name the bits that
  occur and the bits numbered before any logic. Signals are two-valued: constant x and z bits are
  distinct from 0 and 1, and compiling one is an error, as in the writer.
* In the multiplexer pass at most one select of a `$pmux` is active. Bits used outside multiplexers
  are the set `seen`; what surrounds the multiplexers is any relation under which a bit that it
  supplies depends only on bits of `seen` below it. The input multiplexers of a port are visited in
  ascending order. Between passes a connected bit takes the name of what it is connected to, one of the
  names that a signal map may choose. Values over several passes are compared in modules without
  combinational loops through multiplexers and with one driver per bit.
* Words of the packed vector are 64 booleans; CSR words are four bytes, lowest first; byte enables are
  sets of lane numbers. The timer halves are numbers below 2^32.
* Time, memory figures, exit codes, the instants of device reads, the PMP decision of the simulator
  and the iteration budget of the multiplexer pass are parameters, so each theorem covers all of them.
* Ghost fields record history: the notified and retired accesses, the submitted and collected
  processes, the values the comparator has had, the contexts in which a multiplexer was evaluated.

Where the code and the specification it follows differ, the model follows the code:

* `pmpaddr` is locked by the next region being TOR whether or not that region is locked, and RLB does
  not lift the lock; section 3.7.1 of the RISC-V Privileged Architecture asks for the lock bit, and
  Smepmp lets RLB override it. `CsrModel.AddrLockAgreesIff` says exactly where the two differ, and
  `CsrModel.UnlockedTorLocksBelow` and `CsrModel.BypassDoesNotUnlock` reach both cases from reset.
* `why` starts from the operands of the queried gates and skips a queried bit that is no gate.
  The reported nodes explain every queried gate, and also a queried leaf that is the constant or that
  the search reaches from another bit. If the search stops at no named gate, no other queried leaf is
  explained (`AigWhy.LeafExplainedIff`); a named gate can force a leaf that is not reached
  (`AigWhy.NamedGateForcesLeaf`).
* Killing a process for memory forgets an earlier request to give up on it. A request is honoured by
  the next turn if and only if the process is not killed for memory in that turn
  (`Scheduling.GiveUpHonouredIff`); `Scheduling.LostRequest` is a turn that loses one.
* Printing accepts negative numbers but the parser reads a leading dash as a separator:
  `LineRanges.ExpandUndoesCompress` shows that the round trip succeeds exactly on non-empty sets
  without negative members.

## Model

| member | source | states |
|---|---|---|
| `AigerWriters.AigerWriter.MkGate` | dv/formal/yosys_formal/write_aiger.cc:81-86 | The new variable is one past all others, its gate is the conjunction of both operands, and every invariant of the tables survives. |
| `AigerWriters.AigerWriter.Bit2Aig` | dv/formal/yosys_formal/write_aiger.cc:88-141 | On cyclic netlists too: either the bit gets a literal, lies on no combinational cycle, nothing earlier changes and the tables stay consistent, or the error is justified (a loop error only by a real cycle). The stack stays within max(1024, 2N). |
| `AigerLayout.MappedBitIsOnNoCycle` | dv/formal/yosys_formal/write_aiger.cc:88-141 | A bit with a literal lies on no cycle, so no loop is missed. |
| `AigerWriters.AigerWriter.CompileTop` | dv/formal/yosys_formal/write_aiger.cc:448-534 | A compilation started by the constructor leaves an empty stack and the tables consistent. |
| `AigerWriters.AigerWriter.CompileBit` | dv/formal/yosys_formal/write_aiger.cc:96-140 | The bit is on the stack while its operands are compiled and off it afterwards, with its literal recorded. |
| `AigerWriters.AigerWriter.CheckLoop` | dv/formal/yosys_formal/write_aiger.cc:96-110 | A hit is a combinational cycle; without one the stack is shorter than the number of bits, so the doubled threshold stays within the depth bound. |
| `AigerWriters.AigerWriter.CompileCell` | dv/formal/yosys_formal/write_aiger.cc:116-138 | Inverters, and gates, aliases, the init-state bit, x/z and undriven bits each give the literal or the error their cell calls for. |
| `Netlists.LongChainRepeats` | dv/formal/yosys_formal/write_aiger.cc:96-111 | On a stack longer than the number of bits, the top bit occurs below it, because the successor of a bit is always the same. |
| `Netlists.AcyclicHasNoCycle` | dv/formal/yosys_formal/write_aiger.cc:96-110 | A netlist with a rank function gives no ground for a loop error. |
| `AigerWriters.SoundNetlistHasNoError` | dv/formal/yosys_formal/write_aiger.cc:88-141 | A driven, acyclic netlist without undefined constants justifies none of the errors. |
| `AigerWriters.AigerWriter.NumberPorts` | dv/formal/yosys_formal/write_aiger.cc:376-382 | The k-th input bit has variable k+1 and constants keep theirs. |
| `AigerWriters.AigerWriter.NumberInputs` | dv/formal/yosys_formal/write_aiger.cc:376-402 | All inputs in order: the ports, one for -I on an empty list, the initial values under -zinit, and one per liveness cell. |
| `AigerWriters.AigerWriter.NumberInitInputs` | dv/formal/yosys_formal/write_aiger.cc:388-396 | Each flip-flop without initial value gets its own extra input under -zinit, in order. |
| `AigerWriters.AigerWriter.NumberLatches` | dv/formal/yosys_formal/write_aiger.cc:404-428 | Flip-flops, the init latch and the monitor latches follow the inputs in that order, with their reset codes. |
| `AigerWriters.AigerWriter.RewriteInits` | dv/formal/yosys_formal/write_aiger.cc:430-446 | Under -zinit a flip-flop that starts at 1 is read inverted and one without initial value is read through a multiplexer on the init latch. |
| `AigerWriters.AigerWriter.GateMux` | dv/formal/yosys_formal/write_aiger.cc:439-444 | The three gates are the multiplexer of the latch and the init input on the first cycle. |
| `AigerWriters.AigerWriter.CompileFfs` | dv/formal/yosys_formal/write_aiger.cc:448-455 | The next-state literal of each flip-flop is that of its data bit, inverted when the latch is stored inverted. |
| `AigerWriters.AigerWriter.AddDummyLatch` | dv/formal/yosys_formal/write_aiger.cc:457-461 | The latch added by -L precedes every gate and keeps the counts. |
| `AigerWriters.AigerWriter.CompileOutputs` | dv/formal/yosys_formal/write_aiger.cc:466-475 | One literal per output bit in order, and one zero for -O on an empty list. |
| `AigerWriters.AigerWriter.CompileAsserts` | dv/formal/yosys_formal/write_aiger.cc:477-487 | Each bad literal is the conjunction of the enable and the negated condition. |
| `AigerWriters.AigerWriter.CompileAssumes` | dv/formal/yosys_formal/write_aiger.cc:489-494 | Each constraint is the negated failure of its assume. |
| `AigerWriters.AigerWriter.CompileLiveness` | dv/formal/yosys_formal/write_aiger.cc:496-518 | Two latches and one justice literal per obligation, wired as the monitor that the liveness lemmas analyse. |
| `AigerWriters.AigerWriter.CompileFairness` | dv/formal/yosys_formal/write_aiger.cc:520-534 | One latch and one fairness literal per obligation, wired as its monitor. |
| `AigerWriters.Sections` | dv/formal/yosys_formal/write_aiger.cc:537-546 | Cutting the common output list by the section sizes gives outputs, bads, constraints, justice and fairness back. |
| `AigerWriters.AigerWriter.Build` | dv/formal/yosys_formal/write_aiger.cc:376-546 | The whole constructor: either a justified error, or the count assertions of the writer hold and the graph is a compilation of the netlist. |
| `AigCore.RunExists` | dv/formal/yosys_formal/write_aiger.cc:590-619 | A sorted graph has a run for every input sequence and every choice of free latches. |
| `AigerCorrect.FirstValue` | dv/formal/yosys_formal/write_aiger.cc:414-418 | In every run the init literal is true at cycle 0 and never again. |
| `AigerCorrect.FfMoves` | dv/formal/yosys_formal/write_aiger.cc:430-455 | In every run a flip-flop's literal takes, one cycle later, the value of its data literal, under -zinit as well. |
| `AigerCorrect.FfStarts` | dv/formal/yosys_formal/write_aiger.cc:404-446 | At cycle 0 a flip-flop's literal has its initial value, or the value of its init input under -zinit, or the free latch value. |
| `AigerCorrect.LiteralsFollowBits` | dv/formal/yosys_formal/write_aiger.cc:88-141 | For corresponding runs every mapped literal has the netlist bit's value at every cycle. |
| `AigerCorrect.NetRunHasAigRun` | dv/formal/yosys_formal/write_aiger.cc:376-464 | Every netlist run has a corresponding graph run, for any choice of the liveness inputs. |
| `AigerCorrect.AigRunHasNetRun` | dv/formal/yosys_formal/write_aiger.cc:376-464 | Every graph run comes from a netlist run. |
| `AigerCorrect.ChecksFollow` | dv/formal/yosys_formal/write_aiger.cc:477-494 | At every cycle each bad is its assert failing, and the constraints hold exactly when no assume fails. |
| `AigerCorrect.AssertFailsIffBadReachable` | dv/formal/yosys_formal/write_aiger.cc:376-494 | An assert can fail under the assumes if and only if its bad is reachable under the constraints. |
| `AigerLiveness.FairMeaning` | dv/formal/yosys_formal/write_aiger.cc:520-534 | The fairness latch is idle infinitely often if and only if no enabled obligation stays unmet forever. |
| `AigerLiveness.PendingMeansUnmet` | dv/formal/yosys_formal/write_aiger.cc:496-518 | If the liveness monitor is pending infinitely often, an enabled obligation is never met from some cycle on. |
| `AigerLiveness.UnmetMeansPending` | dv/formal/yosys_formal/write_aiger.cc:496-518 | If an obligation is never met, raising the input at that cycle alone keeps the monitor pending forever after. |
| `AigerLiveness.FairnessMeaning` | dv/formal/yosys_formal/write_aiger.cc:520-534 | In compiled graphs: the fairness literal holds infinitely often if and only if the obligation is not violated. |
| `AigerLiveness.JusticeIsViolation` | dv/formal/yosys_formal/write_aiger.cc:496-518 | In compiled graphs: justice infinitely often means the obligation is violated, whatever the liveness input does. |
| `AigerLiveness.ViolationHasJustice` | dv/formal/yosys_formal/write_aiger.cc:496-518 | In compiled graphs: a violated obligation has a corresponding run with justice infinitely often. |
| `AigerLiveness.LivenessFailsIffJusticeReachable` | dv/formal/yosys_formal/write_aiger.cc:496-534 | Under assumes and fairness, an obligation can be violated if and only if its justice literal can hold infinitely often under constraints and fairness literals. |
| `AigerPass.CompiledHasSameFailures` | dv/formal/yosys_formal/write_aiger.cc:376-534 | All asserts and all liveness obligations at once, with every gate above its operands; the bad that -B adds to an empty list is unreachable. |
| `AigerPass.OptionsMean` | dv/formal/yosys_formal/write_aiger.cc:384-487 | -I, -L, -O and -B add one entry to an empty section and nothing otherwise; under -zinit every latch starts at zero, and else as the netlist says. |
| `AigerPass.CompiledPassesCheck` | dv/formal/aig-manip/src/main.rs:414-433 | Every graph the writer produces is topologically sorted when loaded, so the order check accepts it. |
| `AigerPass.Translate` | dv/formal/yosys_formal/write_aiger.cc:376-546 | Running the writer on a sound netlist always succeeds, with the same failures, the expected counts and a sorted graph. |
| `AigerPass.ProvenStepsHoldInNetlist` | dv/formal/aig-manip/src/main.rs:131-164 | If all jobs pass on the compiled graph and cover its non-cover assertions, no such assert of the netlist can fail. |
| `AigerBinary.Encode` | dv/formal/yosys_formal/write_aiger.cc:37-47 | The loop emits the base-128 digits of a number, lowest first, with continuation bits. |
| `AigerBinary.NumberRoundTrip` | dv/formal/yosys_formal/write_aiger.cc:37-47 | Reading a number back consumes exactly its bytes, whatever follows. |
| `AigerBinary.SortedAt` | dv/formal/yosys_formal/write_aiger.cc:611-619 | Both deltas of every gate are non-negative, the first is positive. |
| `AigerBinary.GatesRoundTrip` | dv/formal/yosys_formal/write_aiger.cc:611-619 | Decoding the concatenated deltas, starting from the variable of the first gate, recovers the operand pairs of any number of gates. |
| `AigerBinary.WriteGates` | dv/formal/yosys_formal/write_aiger.cc:611-619 | The section written by the loop decodes to exactly the gate list, each gate driving the next variable. |
| `AigerBinary.LhsIsGateLiteral` | dv/formal/yosys_formal/write_aiger.cc:611-619 | The deltas of a gate start from the literal of the variable it drives. |
| `AigerBinary.SectionMeansGates` | dv/formal/yosys_formal/write_aiger.cc:611-619 | Whoever reads the section back constrains the same frames as the gates do. |
| `AigerBinary.NumberExamples` | dv/formal/yosys_formal/write_aiger.cc:37-47 | The numbers that the AIGER format description gives as examples. |
| `AigerBinary.GateExample` | dv/formal/yosys_formal/write_aiger.cc:611-619 | The gate 6 = 4 AND 2 is written as two deltas of 2. |
| `OptMuxtree.Knowledge.Assume` | dv/formal/yosys_formal/opt_muxtree.cc:329-338 | Entering a port makes its select known active and the other selects known inactive. |
| `OptMuxtree.Knowledge.Forget` | dv/formal/yosys_formal/opt_muxtree.cc:364-372 | Leaving a port restores both reference-count tables exactly. |
| `OptMuxtree.Worker.MarkParents` | dv/formal/yosys_formal/opt_muxtree.cc:339-345 | Marks the unvisited inputs of a port and lists them; each costs one unit of the termination measure. |
| `OptMuxtree.Worker.UnmarkParents` | dv/formal/yosys_formal/opt_muxtree.cc:361-362 | Restores the visited set. |
| `OptMuxtree.Worker.VisitParent` | dv/formal/yosys_formal/opt_muxtree.cc:346-357 | A skipped pure root, a root promoted for rerun and an evaluated input all end up served by some evaluation. |
| `OptMuxtree.Worker.EvalMuxPort` | dv/formal/yosys_formal/opt_muxtree.cc:319-373 | Unless cut off, restores tables and visited set, enables the port and leaves each of its inputs served in the extended context; depth is bounded by the number of muxes. |
| `OptMuxtree.Worker.EvalPorts` | dv/formal/yosys_formal/opt_muxtree.cc:445-473 | Takes the first known-active port, or else every port that is not known inactive. |
| `OptMuxtree.Worker.EvalMux` | dv/formal/yosys_formal/opt_muxtree.cc:421-474 | Every port that can be selected in the current context is enabled with its inputs served, and only such ports are; what began has ended, and the number of evaluations is bounded by the ports and the muxes not yet visited. |
| `OptMuxtree.Worker.SelectRoots` | dv/formal/yosys_formal/opt_muxtree.cc:177-196 | Roots are the observed muxes and those with several users; the observed ones start enabled. |
| `OptMuxtree.Worker.EvalRootMux` | dv/formal/yosys_formal/opt_muxtree.cc:476-485 | An enabled root is evaluated without assumptions, and all recorded evaluations stay closed. |
| `OptMuxtree.Worker.Analyze` | dv/formal/yosys_formal/opt_muxtree.cc:177-218 | Fails only when the budget is spent, which a budget above 2N times the cost of one root rules out; otherwise every observed mux and every root has been evaluated without assumptions, all evaluations are closed and ended, and only ports that some evaluation looked at are enabled. |
| `OptMuxtree.Worker.RerunRoots` | dv/formal/yosys_formal/opt_muxtree.cc:208-218 | The rerun loop ends after at most one turn per mux, because each root is promoted once. |
| `OptMuxtree.TodoShrinks` | dv/formal/yosys_formal/opt_muxtree.cc:208-218 | Evaluating a root again leaves fewer roots that may still have to be. |
| `Muxtree.WarrantedHasPath` | dv/formal/yosys_formal/opt_muxtree.cc:319-373 | Every port that an evaluation looked at passes in a context that some path from an enabled root accumulates. |
| `Muxtree.BegunHasPath` | dv/formal/yosys_formal/opt_muxtree.cc:421-485 | Every evaluation that begins has such a path. |
| `MuxtreePass.SelectedIsEvaluated` | dv/formal/yosys_formal/opt_muxtree.cc:435-473 | In any valuation that fits the context, the selected port is one the analysis looks at, and the extended context fits too. |
| `MuxtreePass.EvaluatesIsSelectable` | dv/formal/yosys_formal/opt_muxtree.cc:435-473 | In a context that can occur, the ports looked at are exactly those that some valuation selects. |
| `MuxtreePass.ContextMeansSelected` | dv/formal/yosys_formal/opt_muxtree.cc:329-337 | What is assumed behind a port holds in exactly the valuations that select it. |
| `MuxtreePass.SelectedIsEnabled` | dv/formal/yosys_formal/opt_muxtree.cc:177-218 | For every valuation, every port selected on a path from an observed mux is enabled. |
| `MuxtreePass.RebuildKeepsPort` | dv/formal/yosys_formal/opt_muxtree.cc:223-283 | If the selected port is enabled, the rebuilt cell passes the same data to the same output. |
| `MuxtreePass.RebuildMux` | dv/formal/yosys_formal/opt_muxtree.cc:223-283 | The loops compute the rebuilt cell and count the ports that are not enabled; ports left plus ports removed never exceed the ports before. |
| `MuxtreePass.AnalysisIsFaithful` | dv/formal/yosys_formal/opt_muxtree.cc:177-283 | A closed analysis makes every rebuilt cell that matters pass the right port. |
| `MuxtreePass.BitKept` | dv/formal/yosys_formal/opt_muxtree.cc:177-283 | In an acyclic module every bit that matters has the same value before and after. |
| `MuxtreePass.SeenBitsKept` | dv/formal/yosys_formal/opt_muxtree.cc:177-283 | All bits used outside multiplexers keep their values under the same surroundings. |
| `MuxtreePass.RunPass` | dv/formal/yosys_formal/opt_muxtree.cc:100-283 | A run that gives up changes nothing, and a large enough budget rules that out. A run that is done yields cells faithful to the module that consist of exactly the ports that some evaluation from a root looked at, and its count is the number of all others. |
| `MuxtreePass.CompleteIsExamined` | dv/formal/yosys_formal/opt_muxtree.cc:177-218 | The evaluations of a finished analysis start at the roots, leave out nothing that their contexts let through, and enabled exactly the ports they looked at. |
| `MuxtreePass.SurvivorsAreLetThrough` | dv/formal/yosys_formal/opt_muxtree.cc:223-283 | Every port left in a cell is let through by a path from a root. |
| `MuxtreePass.ConstantSelect` | dv/formal/yosys_formal/opt_muxtree.cc:223-283 | A mux whose first select is the constant one becomes a connection, and its other port counts as dead. |
| `MuxtreePass.SharedSelects` | dv/formal/yosys_formal/opt_muxtree.cc:319-373 | Three muxes behind the ports of a fourth with the same selects each become the connection that their port allows. |
| `MuxtreeRename.MergeIsSound` | dv/formal/yosys_formal/opt_muxtree.cc:223-283 | Where the connections hold, every bit has the value of its canonical signal. |
| `MuxtreeRename.MergeIsComplete` | dv/formal/yosys_formal/opt_muxtree.cc:223-283 | Both ends of every connection get the same canonical signal. |
| `MuxtreeRename.MergeResolves` | dv/formal/yosys_formal/opt_muxtree.cc:223-283 | Unconnected bits keep their names, connected ones disappear, and no name moves up. |
| `MuxtreeRename.CanonMuxValue` | dv/formal/yosys_formal/opt_muxtree.cc:223-283 | A multiplexer read through the map selects and computes the same. |
| `MuxtreeRename.RenamedIsWellFormed` | dv/formal/yosys_formal/opt_muxtree.cc:503-521 | The module that the next pass reads is well-formed and has exactly the ports that were kept. |
| `MuxtreeRename.UntouchedStays` | dv/formal/yosys_formal/opt_muxtree.cc:503-521 | When nothing was removed the next pass reads the same module. |
| `MuxtreeRepeat.PassOver` | dv/formal/yosys_formal/opt_muxtree.cc:510-519 | A pass turns each module into its faithful cells read through the merged signals and leaves exactly the ports that were looked at; a pass that removes nothing found no dead port. |
| `MuxtreeRepeat.Execute` | dv/formal/yosys_formal/opt_muxtree.cc:503-521 | The repetition ends within one pass per port plus one; every pass is faithful and exact, the last one changes nothing, and no module that the budget suffices for has a dead port left. |
| `MuxtreeRepeat.NothingDeadMeans` | dv/formal/yosys_formal/opt_muxtree.cc:503-521 | At the end every port of such a module is let through by a path from a root. |
| `MuxtreeRepeat.PassKeepsValues` | dv/formal/yosys_formal/opt_muxtree.cc:223-283 | A valuation of a module has a counterpart of the renamed one that agrees on all bits looked at, in the same surroundings. |
| `MuxtreeRepeat.SeenBitsSurvive` | dv/formal/yosys_formal/opt_muxtree.cc:503-521 | By induction over the passes: every bit looked at has the same value before the first pass and after the last, in the same surroundings. |
| `MuxtreeRepeat.EndExists` | dv/formal/yosys_formal/opt_muxtree.cc:503-521 | Every valuation of the first version has such a counterpart at the end, with the same bits from outside. |
| `MuxtreeRepeat.RunKeepsSeenBits` | dv/formal/yosys_formal/opt_muxtree.cc:503-521 | The same for each module of a design and the history that the repetition leaves. |
| `AigSelect.Turn` | dv/formal/aig-manip/src/main.rs:144-163 | One turn keeps, negates, assumes or removes the assertion under the moving index and nothing else. |
| `AigSelect.Select` | dv/formal/aig-manip/src/main.rs:114-167 | The two-index removal loop yields exactly the kept bads and the added constraints of the specification, or refuses. |
| `AigSelect.KeptAligned` | dv/formal/aig-manip/src/main.rs:131-164 | Each kept assertion sits at the same position in the name list and in the bad list, negated if it is a cover. |
| `AigSelect.FatesPartition` | dv/formal/aig-manip/src/main.rs:131-164 | Each assertion has a place of its own in the list of its fate (kept with its name, assumed, or deleted), and the lists add up, so it is classified exactly once. |
| `AigSelect.SelectedMeans` | dv/formal/aig-manip/src/main.rs:141-163 | From name, step and job alone: what is asked for stays a bad, negated for a cover; other non-covers of earlier steps become constraints unless the job makes no assumptions. |
| `AigSelect.SelectedFrom` | dv/formal/aig-manip/src/main.rs:141-163 | Every bad that is left was asked for. |
| `AigSelect.AssumedFrom` | dv/formal/aig-manip/src/main.rs:154-160 | Every added constraint is the negation of a non-cover bad of an earlier step that was not asked for, in a job that makes assumptions. |
| `AigSelect.SameRunUnderJob` | dv/formal/aig-manip/src/main.rs:131-164 | A run that has not violated earlier steps is a constrained run of the selected graph. |
| `AigSelect.NeverViolated` | dv/formal/aig-manip/src/main.rs:131-164 | By induction on time and step, no passing set of jobs leaves a violated assertion. |
| `AigSelect.StepwiseProofIsSound` | dv/formal/aig-manip/src/main.rs:131-164 | If every job passes and the jobs cover the non-cover assertions, none of them is reachable in the original graph. |
| `AigGraph.CheckAig` | dv/formal/aig-manip/src/main.rs:414-433 | Accepts exactly the graphs whose gates only use constants, inputs, latches and earlier gates and whose latches use available nodes. |
| `AigGraph.ValuesExist` | dv/formal/aig-manip/src/main.rs:414-433 | In an accepted graph any leaf values extend to all nodes. |
| `AigGraph.ValuesUnique` | dv/formal/aig-manip/src/main.rs:414-433 | In an accepted graph leaf values determine all nodes. |
| `AigGraph.SortedFilePasses` | dv/formal/aig-manip/src/main.rs:414-433 | A file with gates above their operands and latches in range loads into an accepted graph. |
| `AigGraph.LoadMeans` | dv/formal/aig-manip/src/main.rs:414-433 | The loaded graph is satisfied by the same frames as the gates of the file. |
| `AigWhy.SeenAgrees` | dv/formal/aig-manip/src/main.rs:335-388 | In a closed search, agreement on named nodes and unnamed leaves forces agreement on everything seen. |
| `AigWhy.ResponsibleDecides` | dv/formal/aig-manip/src/main.rs:359-387 | The operands the search follows determine the gate's value. |
| `AigWhy.ResponsibleIsBlamed` | dv/formal/aig-manip/src/main.rs:359-387 | The search follows exactly the operands whose literal has the value of the gate. |
| `AigWhy.BlameMeans` | dv/formal/aig-manip/src/main.rs:359-387 | Those are both operands of a true gate, and exactly the false ones of a false gate. |
| `AigWhy.OnlyFalseOperand` | dv/formal/aig-manip/src/main.rs:375-380 | On a concrete graph, the true operand of a false gate is not reached. |
| `AigWhy.Look` | dv/formal/aig-manip/src/main.rs:350-388 | One turn of the worklist keeps the search closed up to its queue and either visits more nodes or shortens the queue. |
| `AigWhy.Drain` | dv/formal/aig-manip/src/main.rs:346-388 | The worklist ends with everything seen reachable and explained, and exactly the named nodes among it reported. |
| `AigWhy.ReachedIsSeen` | dv/formal/aig-manip/src/main.rs:335-388 | A closed search that holds the operands of the queried gates has seen every node a route of responsible operands leads to. |
| `AigWhy.Why` | dv/formal/aig-manip/src/main.rs:306-411 | Reports exactly the named nodes reachable through unnamed gates and operands that have the value of their gate; with the unnamed leaves reached they force every queried gate, the constant and every reached leaf, and no other queried leaf if the search stops at no named gate. |
| `AigWhy.LeafExplainedIff` | dv/formal/aig-manip/src/main.rs:335-388 | If the search stops at no named gate, a leaf is explained if and only if it is the constant or was reached. |
| `AigWhy.QueryOfLeaves` | dv/formal/aig-manip/src/main.rs:335-341 | A query without gates reaches nothing and explains only the constant. |
| `AigWhy.LeafOfMixedQuery` | dv/formal/aig-manip/src/main.rs:335-388 | On a two-input gate, a leaf queried with the gate is explained and queried alone it is not. |
| `AigWhy.NamedGateForcesLeaf` | dv/formal/aig-manip/src/main.rs:350-353 | On a chain of two gates, a named gate forces a leaf that the search does not reach. |
| `BitVecs.BitVec.FillZero` | dv/formal/aig-manip/src/bitvec.rs:21-26 | A vector of that many zeros, packed validly. |
| `BitVecs.BitVec.Set` | dv/formal/aig-manip/src/bitvec.rs:28-35 | Updates one position of the sequence and keeps the packing. |
| `BitVecs.BitVec.Push` | dv/formal/aig-manip/src/bitvec.rs:37-44 | Appends one boolean, relying on the bits past the end being zero, and keeps them so. |
| `BitVecs.BitVec.Get` | dv/formal/aig-manip/src/bitvec.rs:46-52 | The boolean at the index, or nothing past the end. |
| `BitVecs.FromIter` | dv/formal/aig-manip/src/bitvec.rs:59-67 | Collecting an iterator gives its items in order. |
| `BitVecs.PushWord` | dv/formal/aig-manip/src/bitvec.rs:37-44 | Or-ing a shifted bit into the last word changes only that bit, because the rest of the word is zero. |
| `BitVecs.SetWord` | dv/formal/aig-manip/src/bitvec.rs:28-35 | Or-ing or masking one bit of one word changes only that position of the whole. |
| `CsrWords.SecByteKeeps` | dv/cs_registers/model/base_register.cc:113-132 | The mask keeps MML and MMWP once set, keeps RLB clear while a region is locked, and never changes the other bits. |
| `CsrWords.CfgStepOk` | dv/cs_registers/model/base_register.cc:154-204 | Any write, set or clear leaves legal configuration bytes. |
| `CsrWords.CfgStepKeepsLockedByte` | dv/cs_registers/model/base_register.cc:134-204 | Without RLB a locked byte survives any operation on its register, including the reserved-value fix. |
| `CsrWords.HandleReservedKeeps` | dv/cs_registers/model/base_register.cc:185-204 | The fix does not alter bytes that are already legal. |
| `CsrModel.RegisterModel.constructor` | dv/cs_registers/model/register_model.cc:9-34 | The PMP registers are at their addresses, implemented according to the parameters, all zero and legal. The counters of the source map are not built. |
| `CsrModel.RegisterModel.RegisterReset` | dv/cs_registers/model/register_model.cc:100-104 | Back to the reset state, whatever happened before. |
| `CsrModel.RegisterModel.AnyPmpCfgsLocked` | dv/cs_registers/model/base_register.cc:100-111 | The scan finds a lock bit if and only if some configuration byte has one. |
| `CsrModel.RegisterModel.GetRegisterFromMap` | dv/cs_registers/model/base_register.cc:86-94 | The linear search finds the register that owns the address, or none. |
| `CsrModel.RegisterModel.PmpAddrLocked` | dv/cs_registers/model/base_register.cc:206-234 | Locked by the region's own lock bit or by the next region being TOR. |
| `CsrModel.RegisterModel.GetLockMask` | dv/cs_registers/model/base_register.cc:113-242 | The mask of each kind of register, computed through the shared map. |
| `CsrModel.RegisterModel.Operate` | dv/cs_registers/model/base_register.cc:14-78 | Returns the value before the operation and updates this register alone, to what the bit-by-bit lemmas say. |
| `CsrModel.RegisterModel.NewTransaction` | dv/cs_registers/model/register_model.cc:106-123 | Performs one step of the register file and keeps every stored value legal; stops exactly on a mismatched read or a legal access to an address outside the PMP registers (the counter addresses, which the source map owns, count as outside). |
| `CsrModel.StepElsewhere` | dv/cs_registers/model/base_register.cc:36-78 | A transaction changes only the register with its address, and a read changes none. |
| `CsrModel.AddrBits` | dv/cs_registers/model/base_register.cc:14-34 | Each bit of an address register is written, set or cleared unless the register is locked. |
| `CsrModel.SecBits` | dv/cs_registers/model/base_register.cc:113-132 | The same for mseccfg, of which only MML, MMWP and RLB can change: the first two only upwards, RLB not upwards while a region is locked. |
| `CsrModel.CfgBits` | dv/cs_registers/model/base_register.cc:134-204 | The same for each configuration byte unless it is locked without RLB; bits 5 and 6 read as zero, and writing without reading is dropped without MML. |
| `CsrModel.AnyLockedMeans` | dv/cs_registers/model/base_register.cc:100-111 | Any lock means that the top bit of some configuration byte is set. |
| `CsrModel.SetThenClear` | dv/cs_registers/model/base_register.cc:22-34 | After reset, setting a bit of an address register stores it and clearing it removes it. |
| `CsrModel.StepInv` | dv/cs_registers/model/base_register.cc:113-204 | Every transaction keeps the layout and the legality of every stored configuration byte. |
| `CsrModel.StepSec` | dv/cs_registers/model/base_register.cc:113-132 | Per transaction MML and MMWP never fall, and RLB stays clear while a region is locked. |
| `CsrModel.StepKeepsRegion` | dv/cs_registers/model/base_register.cc:113-234 | A transaction leaves a locked region as it was, and it stays locked. |
| `CsrModel.LockedRegionIsFixed` | dv/cs_registers/model/register_model.cc:106-123 | Over any sequence of transactions a locked region keeps its byte, its address, the address below it when TOR, and RLB stays clear. |
| `CsrModel.LockedSinceReset` | dv/cs_registers/model/register_model.cc:100-123 | Whatever led from a reset to a locked region, nothing before the next reset changes it. |
| `CsrModel.RunInv` | dv/cs_registers/model/register_model.cc:106-123 | Over any sequence the invariant holds and MML and MMWP never fall. |
| `CsrModel.StoredValuesAreLegal` | dv/cs_registers/model/base_register.cc:185-204 | In every state reached from reset the stored values are legal, and the reserved-value fix would change nothing. |
| `CsrModel.AddrWriteTakesEffectIff` | dv/cs_registers/model/base_register.cc:206-234 | A new value written to an address register is stored if and only if the register is not locked. |
| `CsrModel.AddrLockAgreesIff` | dv/cs_registers/model/base_register.cc:206-234 | The lock of the code agrees with the specified one if and only if, under RLB, it does not lock at all, and otherwise the region is not an unlocked one below an unlocked TOR region. |
| `CsrModel.WriteDroppedAgainstSpecIff` | dv/cs_registers/model/base_register.cc:206-234 | A write that the specification lets through is dropped in exactly those cases. |
| `CsrModel.SpecLocksLess` | dv/cs_registers/model/base_register.cc:206-234 | The code never lets through a write that the specification forbids. |
| `CsrModel.UnlockedTorLocksBelow` | dv/cs_registers/model/base_register.cc:206-234 | One transaction after reset, an unlocked TOR region locks the address below it. |
| `CsrModel.BypassDoesNotUnlock` | dv/cs_registers/model/base_register.cc:206-234 | Two transactions after reset, an address is locked although RLB is set. |
| `CsrModel.IndexOfIsInverse` | dv/cs_registers/reg_driver/csr_listing.def:11-62 | Addresses and positions in the map determine each other. |
| `Cosim.SpikeCosim.NotifyDsideAccess` | dv/cosim/spike_cosim.cc:764-770 | Appends the access with nothing seen yet. |
| `Cosim.SpikeCosim.MatchFront` | dv/cosim/spike_cosim.cc:841-980 | Passes exactly when address, direction, lanes and data agree with the front, and then notes the lanes seen. |
| `Cosim.SpikeCosim.SameData` | dv/cosim/spike_cosim.cc:950-980 | The shift-and-mask comparison holds exactly when every accessed lane holds the same byte. |
| `Cosim.SpikeCosim.CheckMemAccess` | dv/cosim/spike_cosim.cc:841-1037 | Fails exactly when the access is not acceptable; otherwise the queue is as specified, accesses retire in order, a bus error is reported exactly for an erroring front, and erroring first halves that cross a word retire in pairs with the second half at the next word. |
| `Cosim.SpikeCosim.MisalignedPmpFixup` | dv/cosim/spike_cosim.cc:648-683 | Drops the second half of an access whose first half failed exactly when the PMP check agrees, and fails otherwise. |
| `Cosim.LaneCoveredOnce` | dv/cosim/spike_cosim.cc:885-945 | Each lane of a retired access belongs to exactly one simulator access, which agrees with it. |
| `Cosim.MatchedData` | dv/cosim/spike_cosim.cc:950-1037 | In every enabled lane a load or store that matched has the byte of exactly one simulator access of the same word and direction. |
| `Cosim.SpikeCosim.RetiredAgree` | dv/cosim/spike_cosim.cc:841-1037 | While no check has failed this holds of every access retired without error. |
| `Cosim.ErroredStoreData` | dv/cosim/spike_cosim.cc:950-1037 | A store that ended in an error had the right byte in every lane seen. |
| `Cosim.WrongDataFails` | dv/cosim/spike_cosim.cc:950-980 | A wrong byte fails the check for stores and for loads without error. |
| `Cosim.ErroringLoadData` | dv/cosim/spike_cosim.cc:950-980 | The data of an erroring load does not matter. |
| `Cosim.AcceptedMeans` | dv/cosim/spike_cosim.cc:841-1017 | When a check passes, in terms of single lanes and bytes. |
| `Cosim.AfterMeans` | dv/cosim/spike_cosim.cc:920-1037 | What is left in the queue, in the same terms. |
| `Conductor.Process.Poll` | dv/formal/conductor.py:173-216 | Ends exactly on a kill request, an exit code or a timeout, resolves only a waiting future and with the right reason; a restart resolves nothing and raises the expectations. |
| `Conductor.ProcessRunner.Append` | dv/formal/conductor.py:235-236 | The process is last in submission order. |
| `Conductor.ProcessRunner.GiveUp` | dv/formal/conductor.py:165-171 | A request or a cancellation at any time keeps the invariant. |
| `Conductor.ProcessRunner.KillLast` | dv/formal/conductor.py:252-257 | The newest process goes back to the front of the queue with any kill request cleared; the combined order and everything else stays. |
| `Conductor.ProcessRunner.RelieveMemory` | dv/formal/conductor.py:249-257 | Kills exactly the processes, other than the oldest, that memory stays short for even after everything started later is killed. |
| `Conductor.ProcessRunner.StartNext` | dv/formal/conductor.py:259-265 | The next pending process becomes the last running one; the combined order stays. |
| `Conductor.ProcessRunner.Admit` | dv/formal/conductor.py:259-265 | Starts pending processes in order, each with a slot and memory for it, and stops at the first that has not. |
| `Conductor.ProcessRunner.CollectAt` | dv/formal/conductor.py:267-273 | Removes the process exactly when its poll ends it and touches no other. |
| `Conductor.ProcessRunner.Collect` | dv/formal/conductor.py:267-273 | Every running process is polled once, in order, and exactly those that end are collected, although the list shrinks meanwhile. |
| `Conductor.ProcessRunner.Poll` | dv/formal/conductor.py:249-280 | The whole turn: which processes are killed, started and collected and what becomes of each; a request to give up on a running process is honoured if and only if memory does not get it killed; a future changes only from waiting, in the turn that collects its process; unfinished processes stay in submission order within the slot limit. |
| `Scheduling.KilledExactly` | dv/formal/conductor.py:252-257 | The killing loop stops at the first process that need not be killed. |
| `Scheduling.TurnUnique` | dv/formal/conductor.py:249-273 | Statuses and observations determine the turn. |
| `Scheduling.GiveUpHonouredIff` | dv/formal/conductor.py:165-216 | A request on a running process is honoured by the next turn if and only if memory does not get the process killed, and is forgotten otherwise. |
| `Scheduling.LostRequest` | dv/formal/conductor.py:252-257 | Two processes, the second given up on, and one GB free: its request is lost and its future keeps waiting. |
| `Scheduling.FutureChanges` | dv/formal/conductor.py:173-216 | A turn changes a future only by collecting its process, and never a cancelled one. |
| `Scheduling.TimeoutFromStart` | dv/formal/conductor.py:173-203 | A timeout runs from the latest start. |
| `Scheduling.KillRaisesExpectations` | dv/formal/conductor.py:190-196 | A kill for memory raises the expected memory to the peak seen and the expected time to the time used, and resolves nothing. |
| `Scheduling.PeakMemory` | dv/formal/conductor.py:150-178 | Polls remember the peak memory since the start. |
| `Scheduling.MemoryFloors` | dv/formal/conductor.py:249-265 | Every process counts for at least 3 GB, and 5 GB are kept free. |
| `Conductor.RestWithout` | dv/formal/conductor.py:267-273 | Collecting one process removes just it from the order. |
| `Conductor.MoveAcross` | dv/formal/conductor.py:252-265 | Starting or restarting a process does not change the combined order. |
| `Timer.TimerRead` | examples/sw/simple_system/common/simple_system_common.c:160-170 | For any instants of the reads and any number of retries, the loop ends and returns the value mtime had at some instant within the call. |
| `Timer.HalvesFit` | examples/sw/simple_system/common/simple_system_common.c:164-168 | A low half read between equal high halves belongs to them. |
| `Timer.Comparator.TimecmpUpdate` | examples/sw/simple_system/common/simple_system_common.c:172-176 | Ends with the new value, and no instant in between is below both the old and the new one. |
| `LineRanges.Compress` | tools/ibex_sbfl_llm/src/ibex_sbfl_llm/snippets.py:23-36 | The text lists the maximal, disjoint, ascending runs that cover exactly the given lines. |
| `LineRanges.Expand` | tools/ibex_sbfl_rerank/src/ibex_sbfl_rerank/artifacts.py:37-60 | The sorted union of what the parts denote; the first bad part, or the absence of any line, is an error. |
| `LineRanges.ExpandsUnique` | tools/ibex_sbfl_rerank/src/ibex_sbfl_rerank/artifacts.py:37-60 | A text has one expansion, so the parser's answer is determined. |
| `LineRanges.ExpandUndoesCompress` | tools/ibex_sbfl_rerank/src/ibex_sbfl_rerank/artifacts.py:37-60 | Parsing the printed text gives the sorted set back exactly when it is non-empty and has no negative member; otherwise each case has its own error. |
| `LineRanges.PaddingIsIgnored` | tools/ibex_sbfl_rerank/src/ibex_sbfl_rerank/artifacts.py:41-44 | White space around a part does not change what it denotes or whether it is good. |
| `LineRanges.ReversedRange` | tools/ibex_sbfl_rerank/src/ibex_sbfl_rerank/artifacts.py:47-50 | A range with its ends the wrong way round is an error. |
| `LineRanges.SignedPart` | tools/ibex_sbfl_rerank/src/ibex_sbfl_rerank/artifacts.py:45-53 | A number may carry a plus; a minus is taken for the separator and fails. |
| `LineRanges.PrintExample` | tools/ibex_sbfl_llm/src/ibex_sbfl_llm/snippets.py:23-36 | The set of 3, 7, 8 and 9 prints as "3,7-9". |

## Left out

- Symbol, map and witness files, ASCII mode, miter mode and the front part of the writer that collects cells: library plumbing around the tables modelled here.
- OptMuxtree.Worker.EvalMux: `replace_known`, its substitution of constants for known selects, has side conditions of its own and is not modelled.
- MuxtreeRepeat.PassOver: an output that is also connected to a constant, a conflict of drivers, keeps its name between passes.
- MuxtreePass.RunPass: removal of ports is modelled on values, without `replace_known`; the cell objects are not updated in place.
- `global_clock.cc`, the other passes of `dv/formal`, VCD output and the parsing of names into steps.
- AigWhy.Why: the paths printed with each named node are not modelled, only the set of nodes.
- Process start, output pipes, periodic debug messages and the asynchronous callers of the scheduler.
- CsrModel.RegisterModel.constructor: performance counters are not built; they share no lock with the PMP registers.
- CsrModel.RegisterModel.NewTransaction: the counters and the exemption of `mcycle` from the comparison are not modelled.
- The register drivers and the simulator interface: easy members.
- Cosim.SpikeCosim.SameData: data words are sequences of four bytes, so the shifts and masks of the comparison are moves of bytes between lanes.
- The simulator itself, trap handling, the internal-NMI special case and the texts of error messages in the co-simulation.
- LineRanges.Expand: `int()` is modelled for ASCII digits with underscores, sign and ASCII white space; other Unicode digits and spaces are not.
- Timer.TimerRead: mtime is monotone, so a wrap-around of the 64-bit counter within a call is not considered.
- The SBFL batch, sweep and LLM packages beyond the line-range pair, the UVM scripts and the report generators.
- Nothing was executed; all statements are about the model.
