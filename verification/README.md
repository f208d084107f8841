# Eleven-stage pipeline simulator, modelled in Dafny

This project models the pipeline engine of a cycle-accurate simulator of an
in-order, eleven-stage processor (`cpu.c`). The stages are Fetch, Decode,
Analyze, Register-Read, Add, Mul, Div, Branch, Memory 1, Memory 2 and
Writeback. The engine has four parts, and each has its own module:

- **Predictor** (`predictor.dfy`) models the dynamic branch predictor. It has
  a 16-entry branch target buffer and a 16-entry table of 3-bit saturating
  counters, both indexed by `(pc >> 2) & 0xF` of the branch's byte address
  `instruction_no * 4`.
- **Control** (`control.dfy`) models three things:
  - the squash of a misprediction (`flushStages`);
  - the hazard check and forwarding lookup (`bubble_fetch`) over the four
    one-cycle forwarding channels (add, mul, div, memory);
  - the end-of-cycle latch movement (`end_of_clock_cycle`).
- **Stages** (`stages.dfy`) holds the ten stage handlers.
- **Simulator** (`simulator.dfy`) holds one clock cycle and the bounded
  simulation loop of `CPU_run`.

The other modules are supporting ones:

- **Isa** holds the opcodes, the instruction record and C's truncating
  division.
- **Parser** holds the pure helpers of the instruction loader.
- **Machine** holds the processor record and the invariant `Valid`, which
  every cycle keeps.
- **Wrappers** holds `Option` and `Result`.

The processor is an immutable record and every handler is a pure function.

- A latch refers to its instruction by its position in an immutable
  instruction table.
- The global predictor tables and retired-instruction counter are
  fields of the record.
- `cpu.c` aborts with `exit(1)` on a zero divisor. The model turns this
  into a `Fault` outcome of the cycle.
- `cpu.c` indexes data memory unchecked. An access outside it is also a
  `Fault`. Fetch stops at the end of code memory (`pc >= code_size`) but
  does not check for a negative pc; fetching there is a `Fault` too.
- Register indices are kept in range by the invariant, which assumes a
  well-formed instruction table (see "Left out").

Stage handlers run one after another on the same record, in the order
`CPU_run` calls them. So a handler sees what earlier handlers wrote in the
same cycle. For example, a flush raised by the branch stage empties Div
through Fetch before those stages run, and it stops Fetch in that same cycle.
No handler reads a saved copy of the previous cycle's state; `CPU_run` calls
them in sequence on one record.

Three more points where the model follows the code:

- The processor header declares no `writeback` latch, but `cpu.c` uses one.
  The model has one.
- Register-Read marks as busy the register named by the latch's `destValue`,
  not by the instruction's `rd`, and Branch resolves with the target in
  `src1Value`, not with the instruction's `op1`. The invariant `Valid`
  carries "a decoded register-writing instruction has `destValue == rd` and
  a decoded branch has `src1Value == op1`" for the latches from Analyze to
  Branch, so the two agree.
- The BTB tag `(pc & PC_TAG) >> 6` masks with an unsigned constant, so the
  tag is never negative. The fact "every counter that predicts taken sits
  behind a written tag" (`Predictor.TagsBehindTaken`) therefore holds for
  every address, not only for non-negative ones.

## Model

| member | source | states |
|---|---|---|
| Isa.FromCode | cpu.h:42-60 | the opcode numbering: a number names an opcode exactly when it is in 0..18, and the opcode found has that number |
| Isa.CodeRoundTrip | cpu.h:42-60 | numbering an opcode and reading the number back gives the same opcode |
| Isa.BranchCodeRange | cpu.c:736 | fetch's test `13 <= opcode <= 17` holds exactly for the five conditional branches |
| Isa.TDiv | cpu.c:483 | C's `/` on ints: the remainder is smaller than the divisor in magnitude and has the sign of the dividend (truncation toward zero) |
| Isa.TDivNonNegative | cpu.c:483 | on a non-negative dividend and a positive divisor, C's division agrees with Dafny's |
| Isa.TruncatedRemainder | cpu.c:483 | the truncated quotient leaves a remainder whose magnitude is `|a| mod |b|` and whose sign is the dividend's |
| Isa.TDivTruncates | cpu.c:483 | for every negative dividend and positive divisor, C's quotient equals Dafny's when the division is exact and exceeds it by one otherwise |
| Parser.HasRegisterForm | cpu.c:233-268 | the line is the register form exactly when it holds at least 2 'R's (`st`, `ld`) or at least 3 (any other mnemonic) |
| Parser.GetIndex | cpu.c:270-295 | returns the first table position equal to the key (the mnemonic with "l" appended for the register form, except `set` and `ret`), and -1 exactly when no entry equals it |
| Parser.OpcodeOf | cpu.c:170 | the opcode stored for a line is the one whose number is the table position of its key; a key missing from the table gives none; an opcode's own mnemonic and form are always recognised as that opcode |
| Parser.LookupFindsOpcode | cpu.c:270-295 | for every opcode, its written mnemonic and form are found at the opcode's own number, with no earlier match in the table |
| Parser.AssignOperands | cpu.c:195-229 | the k-th captured operand lands in the k-th field of the opcode's operand list; every other field stays 0 |
| Predictor.Init | cpu.c:971-979 | after initialisation every BTB tag and target is -1 and every counter is 3 |
| Predictor.Index | cpu.c:989-993 | the shared BTB/PT index is always in 0..15 |
| Predictor.Tag | cpu.c:990 | the BTB tag is never negative |
| Predictor.IndexOfInstruction | cpu.c:1027 | prediction at fetch (from the instruction number) and resolution (from the byte address `n * 4`) use the same table entry |
| Predictor.PredictTaken | cpu.c:1022-1035 | fetch predicts taken for instruction `n` exactly when the counter of entry `n mod 16` is at least 4; the BTB is not consulted |
| Predictor.Mispredicted | cpu.c:995-1007 | resolution flushes exactly when the outcome differs from "taken" read as a written BTB tag whose counter is at least 4 |
| Predictor.Train | cpu.c:1008-1019 | the BTB entry is overwritten with `{tag, addr}`; the counter moves one step toward the outcome, saturating at 7 and flooring at 0; no other entry changes; counters stay in 0..7 and taken predictions stay behind written tags |
| Predictor.MispredictedIffDirectionDiffers | cpu.c:995-1007 | given written tags behind taken counters, the flush test holds exactly when the outcome differs from the counter's prediction |
| Predictor.ConfirmedResolutionKeepsPredictions | cpu.c:995-1019 | a resolution that does not flush leaves every prediction of fetch unchanged |
| Predictor.InitialPrediction | cpu.c:971-979 | fresh tables predict not taken, and the first resolution flushes exactly when the branch is taken |
| Predictor.TrainAll | cpu.c:1008-1019 | any sequence of resolutions keeps every counter in 0..7 and keeps taken predictions behind written tags |
| Predictor.RepeatedOutcome | cpu.c:1011-1019 | n equal outcomes move the counter n steps, saturating at 7 or flooring at 0 |
| Predictor.SaturatesAfterSeven | cpu.c:1011-1019 | seven or more equal outcomes leave the counter at 7 (taken) or 0 (not taken), whatever it held |
| Machine.Upstream | cpu.c:746-827 | each stage but Fetch receives from the stage just before it in the chain |
| Machine.Initial | cpu.c:1057-1078 | the starting state: pc 0, the given memory image, freshly initialised predictor tables, no flush, no hazard, no valid channel, no latch occupied, every register 0 and free, counters 0, and the invariant holds |
| Control.ClearBusy | cpu.c:462-465 | every busy mark is cleared and every register value is kept |
| Control.FlushStages | cpu.c:452-466 | Fetch through Div become unoccupied; `halt`, `endHalt` and every busy mark are cleared; Branch, Mem1, Mem2, Writeback, the register values and everything else are unchanged |
| Control.FlushIdempotent | cpu.c:452-466 | squashing twice is the same as squashing once |
| Control.Forwarded | cpu.c:561-581 | the reference lookup gives the first channel carrying the register, else the fallback |
| Control.ForwardedChannels | cpu.c:561-581 | the reference lookup over the four channels checks them in the order add, mul, div, memory |
| Control.BubbleFetch | cpu.c:550-583 | a busy register fails the lookup, raising `halt` and recording the register, and leaves the value alone; a free one clears `halt` and yields the first forwarded value, else the register value |
| Control.AdvanceBack | cpu.c:748-769 | Writeback, Mem2 and Mem1 receive their upstream latches, and Branch ends empty |
| Control.AdvanceMiddle | cpu.c:773-792 | Branch, Div and Mul receive their upstream latches, and Add ends empty |
| Control.AdvanceFront | cpu.c:794-821 | Add, Read-Register, Analyze and Decode receive their upstream latches, and Fetch ends empty |
| Control.FreeAdvance | cpu.c:771-821 | without a flush or a hazard, every stage from Writeback back to Decode takes its upstream latch, Fetch ends empty and the stall count is kept |
| Control.StalledAdvance | cpu.c:746-827 | with a hazard, the back and middle stages advance and Add ends empty |
| Control.AdvanceLatches | cpu.c:746-827 | the three cases of the latch movement: free advance; a stall that freezes Fetch through Read-Register, empties Add and counts one stalled cycle; a flush where only Branch to Writeback move and no stall is counted |
| Control.ResetFlags | cpu.c:829-845 | every channel is invalid, the flush request is dropped, and `endHalt` takes the value of `halt` |
| Control.EndOfCycle | cpu.c:746-846 | the whole end-of-cycle step: the latch movement in its three cases, the flag reset, and pc, registers, memory, predictor and clock unchanged |
| Stages.UnitsPartitionOpcodes | cpu.c:327-547 | every opcode but RET is claimed by exactly one unit, and the register-writing opcodes are those of add, mul, div and the loads |
| Stages.WritebackStage | cpu.c:327-354 | an occupied latch adds one to the retired count; a writing opcode stores its result in `rd` and frees it, with the other registers unchanged; the done flag is raised exactly for RET |
| Stages.Memory2Stage | cpu.c:357-385 | a load reads the word `addr / 4` into `result` and publishes it on the memory channel; a store writes `src1Value` to the word `destValue / 4` and changes nothing else; an address outside memory is a fault, and only then |
| Stages.StoreThenLoad | cpu.c:366-373 | a load of the word a store has just written reads the stored value |
| Stages.Memory1Stage | cpu.c:388-404 | a memory instruction's address becomes its `src1Value`; any other latch is untouched |
| Stages.Redirect | cpu.c:995-1007 | a flush squashes the front stages, raises `flush` and sets pc; Branch and the later stages, register values, memory, predictor, forwarding channels and the recorded hazard register are unchanged |
| Stages.ResolveBranch | cpu.c:982-1020 | the predictor is trained with the outcome; on a misprediction (tested against the tables before training) fetch is redirected to `addr / 4` if taken, or to `instruction_no + 1` if not; otherwise only the predictor changes |
| Stages.BranchStage | cpu.c:407-449 | a conditional branch is resolved with target `src1Value` and outcome `src2Value == 0 / >= 0 / <= 0 / > 0 / < 0` for BEZ/BGEZ/BLEZ/BGTZ/BLTZ; anything else passes unchanged |
| Stages.DivStage | cpu.c:469-491 | DIV/DIVL store the truncated quotient and publish it with `rd` on the div channel; a zero divisor is a fault, and only then; other opcodes pass unchanged |
| Stages.MulStage | cpu.c:494-512 | MUL/MULL store the product and publish it with `rd` on the mul channel; other opcodes pass unchanged |
| Stages.AddStage | cpu.c:515-547 | ADD/ADDL give `src1 + src2`, SUB/SUBL `src1 - src2`, SET `src1`, each published with `rd` on the add channel; other opcodes pass unchanged |
| Stages.Sources | cpu.c:591-654 | the registers Register-Read looks up are register indices whenever the instruction's register fields are |
| Stages.ReadRegistersStage | cpu.c:586-657 | for an occupied latch: `halt` rises exactly when a looked-up register is busy, naming the first busy one, and otherwise the recorded register is kept; a slot takes the forwarded value exactly when its register and those before it are free; immediates are copied; the destination is marked busy for LD and SET always, otherwise only when all sources were free and no hazard was carried over; every slot neither looked up nor given an immediate keeps its value (a branch's target and `destValue`, the destination of every opcode but STL, all three slots of RET); nothing else changes |
| Stages.ReadRegistersKeepsValid | cpu.c:586-657 | Register-Read keeps the invariant: the latch keeps its instruction, its decoded destination and its branch target |
| Stages.ReadRegistersKeepsOtherSlots | cpu.c:586-657 | the slot frame above holds for every opcode |
| Stages.ReadRegistersSpec | cpu.c:586-657 | the body of Register-Read meets that description, slot frame included, for every opcode |
| Stages.ReadTwoRegisters | cpu.c:594-608 | the description holds for ADDL/SUBL/MULL/DIVL, whose `destValue` is kept |
| Stages.ReadRegisterAndImmediate | cpu.c:609-621 | the description holds for ADD/SUB/MUL/DIV, whose `destValue` is kept |
| Stages.ReadOneRegister | cpu.c:625-655 | the description holds for LDL, ST and the conditional branches; a branch keeps its target in `src1Value` and its `destValue`, LDL and ST keep the slots they do not read |
| Stages.ReadStoreRegisters | cpu.c:638-643 | the description holds for STL, whose address register is read into `destValue` only when its data register was free, and whose `src2Value` is kept |
| Stages.DecodeStage | cpu.c:663-716 | decoding fills the latch's operand slots from the instruction and leaves everything else unchanged; a register-writing instruction gets `destValue == rd` and a branch gets its target in `src1Value` |
| Stages.DecodeAgreesWithParser | cpu.c:663-716 | decoding a parsed line puts the k-th written operand into the opcode's k-th decode slot and leaves the other slots alone |
| Stages.FetchStage | cpu.c:719-743 | with the latch free, instructions left and no flush, it fills the latch with the instruction at pc and moves pc to `op1 / 4` for a predicted-taken branch, else to `pc + 1`; otherwise nothing changes; a negative pc is a fault |
| Stages.PredictedSuccessorIsCorrect | cpu.c:736-740 | against the tables fetch consulted: if resolution with those tables finds no misprediction, the successor fetch chose was the correct one |
| Stages.MispredictionRedirectsToCorrect | cpu.c:995-1007 | for every reachable Branch latch holding a branch, if resolution finds a misprediction, the redirect sends fetch to the correct successor |
| Simulator.EndOfCycleKeepsValid | cpu.c:746-846 | the latch movement keeps the invariant once the Decode latch is decoded |
| Simulator.Handle | cpu.c:1087-1097 | each handler keeps the invariant and the counters, and once Decode has run the Decode latch stays decoded |
| Simulator.HandleAll | cpu.c:1087-1097 | running the handlers in order keeps the invariant and the counters, stopping at the first fault |
| Simulator.Cycle | cpu.c:1081-1103 | one cycle keeps the invariant, advances the clock by one, retires one instruction exactly when Writeback was occupied, counts at most one stalled cycle, and reports done exactly when RET retired |
| Simulator.Run | cpu.c:1081-1103 | the run keeps the invariant; the clock advances by at most the fuel, and by all of it unless RET retired; retired and stalled counts grow by at most the cycles run; a finished run retired something |
| Simulator.RunStopsOnFault | cpu.c:479-482 | a faulting cycle ends the run with that fault, whatever fuel is left |
| Simulator.RunStopsOnRet | cpu.c:1083-1086 | a cycle that retires RET ends the run, whatever fuel is left |
| Simulator.RunContinues | cpu.c:1081-1103 | any other cycle hands the rest of the run to the next state |

## Left out

- The regular-expression loader and the file reading: `initilize_parser`, `load_instructions`, the `regexec` part of `parse_instructions` and `load_memory_map`. The instruction table and the memory image are inputs to `Machine.Initial`.
- The printing and tracing functions, the memory-image dump at the end of `CPU_run`, and the statistics it prints, including the floating-point IPC. These are console and file output.
- `main.c`, `CPU_init`, `create_memory`, `create_registers` and `CPU_stop`. These are the entry point and allocation. `CPU_init` does not zero the record. The model starts from an all-zero state with empty latches and free registers.
- Programs that name a register outside R0..R15. The instruction patterns accept any register number for `rd` and a negative one for `rs1`/`rs2`, and `cpu.c` then indexes its register file out of bounds. `WellFormedCode` excludes such tables.
- The reorder buffer, reservation station and register renaming. The processor header only declares them, and no code uses them.
- `analyze_stage`: it has an empty body. It is kept as a handler that returns the state unchanged.
- 32-bit overflow of add, subtract, multiply and divide, which is undefined behaviour in C. Results are stated over unbounded integers.
- The parser's `memmove` of the first five characters, which extracts the mnemonic. The mnemonic is an input to `Parser.GetIndex`.
- Simulator.Run: it is bounded by `fuel`, because the loop of `CPU_run` need not end when no RET reaches Writeback. No lemma relates runs with different fuel beyond the single-step lemmas `RunStopsOnFault`, `RunStopsOnRet` and `RunContinues`.
- Stages.PredictedSuccessorIsCorrect: compares fetch's choice with resolution on one set of tables. Older branches resolved in between train the tables. `Predictor.ConfirmedResolutionKeepsPredictions` shows that a resolution without a flush changes no prediction, and one with a flush squashes the younger branches. No lemma follows one branch from fetch to resolution.
- Parser.OpcodeOf: gives no opcode for a key missing from the table. `parse_instructions` stores -1 instead and goes on to index its pattern array with it, which is undefined behaviour.
- Simulator.Cycle: states the invariant, the counters and the done flag of a whole cycle. The effect of each handler is stated on that handler, not restated for the whole cycle.
- Simulator.HandleAll: states the invariant and the counters only. The fault each handler can raise is stated on that handler.
- The model proves no "no value is read before its last writer produces it" property across the whole pipeline. Writeback frees its destination register even when a younger in-flight instruction has marked the same register busy. This interplay is modelled as written and is not analysed further.
