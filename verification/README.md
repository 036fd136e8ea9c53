# The УМК-80 emulator, verified

A Dafny model of an emulator of an 8080 training computer, of the assembler and disassembler that
come with it, and of the parts of its monitor ROM that loop over memory.

* **Processor** (`core/src/i8080.c`). `Isa` decodes the 256 opcodes and holds the two tables of T
  states and lengths; `Cpu` is one step as a function; `Processor.I8080` is the interpreter with its
  fields updated in place, every routine against its function. `CpuLaws`, `StepLaws`, `IsaTables`,
  `Arithmetic` and `Instructions` prove what holds of them; the last writes every instruction down a second
  time, in bits, named registers and bus cycles. `BitLaws` relates bits to numbers.
* **Machine** (`core/src/machine.c`). `Board` and `BoardUnit.Bus` are memory, the 8255, the keyboard
  and the dry-run journal, with `BoardLaws`; `Display` and `DisplayUnit.Unit` the leaky integrator behind
  the six displays, in 32-bit arithmetic with its wrap-around written out; `Machine` and
  `MachineUnit.Umk80` the instruction and machine-cycle steps and the run loop. `DisplayLaws`, `RunLaws`,
  `Brightness`, `Ghosts`, `Gaps` and `LostGhost` carry the numeric bounds and the theorems about whole
  runs, `MachineLaws` the refinement.
* **Assembler and disassembler** (`tools/umkasm.c`, `tools/disasm.c`, the sweep of
  `tools/umkdis.c`). `Assembler` and `AssemblerUnit.Umkasm`, `Evaluation` for what operands
  come to, `AssemblerLaws`, `Convergence` and `LongNames` for the pass loop, `Disassembler`, `RoundTrip`
  and `Listing` for the round trip of an image and of the whole printed file.
* **Intel HEX** (`save_hex`, `load_hex` and `hexb` of `cli/umkcli.c`). `IntelHex`, `HexUnit`, `HexLaws`.
* **Monitor** (`rom/monitor.asm`). `MachineCode` turns steps of the processor model into steps of
  registers, PC and memory; `Monitor`, `Walks`, `Copying` and `Breakpoints` run the bytes that the source
  assembles to (as in `rom/monitor.lst`) through it, and `MonitorUnit` runs them on the class.

The classes are proved equal to the functions; the laws are proved about the functions, so they hold
of both. The main results:

* Any number of instructions stepped machine cycle by machine cycle ends where stepping them whole
  ends, and the dry run behind a press leaves nothing but the recorded trace
  (`CycleSteppingRefines`, `CycleRunRefines`, `ProbeRollsBack`).
* Over any run since the window was cleared, clean multiplexing reads back as exactly the masks
  shown (`NoGhosting`), and energies stay ordered and far enough below 2^32 that nothing wraps
  (`RunKeepsLive`, `NothingWraps`), with the sharp limit on the step size (`BoundIsSharp`).
* Every opcode has the registers, flags, memory, PC and bus cycles that `Instructions` gives it, and exactly
  the T states of its machine cycles; no interrupt is accepted without its own request and its own EI;
  ADC, SBB and ADC;DAA chains of any length compute sums, differences and decimal sums.
* The assembler's passes settle, after exactly the longest chain of forward references plus two; the
  fixpoint is self-consistent, and what has no value is exactly what is stuck. A printed listing
  reassembles to its image exactly where `FileComesBack` says.
* A saved range loads back over mirrored RAM and a damaged file is refused; breakpoints come back, and the fill, copy and checksum
  loops of the monitor do what they are for up to address 0FFFFH.

Five places where the documentation or the expectation says more than the code does, each with the
exact condition under which the code meets it:

* `FileComesBack`: what `umkdis --asm` prints assembles to the same image only if the origin and every
  number have a decimal first digit, because otherwise they are read as symbols, and only up to 6000
  lines. An origin above 9FFFH and lines beyond the limit are lost without a report (`OriginIsLost`,
  `TailIsLost`).
* `SettlesWithRoom`: an EQU whose name exceeds 31 characters never finds its own entry, so each pass in
  which it evaluates adds one and changes the table. The passes settle exactly if none of them can ever
  evaluate and the program without them settles. A single such EQU of a number takes all 1024 entries,
  one in each pass (`LongNameFillsTable`); once the table is full it plays no part.
* `CopyIsExact`: on the 1 KB board disjoint ranges may share cells, and then a copy can smear; it is
  faithful for every content of memory exactly if the distance between the ranges modulo the chip size
  allows it. `MirrorSmears` is an input that fails.
* `TwoBreakpoints`: two breakpoints come back exactly if they lie in different cells or the byte there
  was RST 7 already. `MirroredBreakpoints` is a pair on the 1 KB board that does not.
* `GhostsFade` and `GhostsShrink`: `core/include/umk80/umk80.h` says that a relative brightness of 255
  means a segment lit whenever its digit was selected, and that a ghost reads in between. Energies never
  fade below 63, and come to rest there. So for a digit left dark a ghost shows exactly while its faded
  energy is the smaller one, and then every segment ever lit reads 255; for a segment lit with its digit
  again it shows exactly until a decay step finds it one below a multiple of 64. `GhostMachine` is a
  machine whose ghost reads 105 after two instructions and 255 from the 670158th step on.

A comment in `core/src/i8080.c` speaks of ten
undocumented opcodes; the code lists twelve, and so does the model.

## Model

| member | source | states |
|---|---|---|
| IsaTables.TablesAgree | core/src/i8080.c:286-325 | for all 256 opcodes LENGTHS is one more than the operand bytes the switch fetches, and CYCLES is four T states for the fetch, three for every other machine cycle and a fixed number idle |
| Arithmetic.CarryOutIsCarry | core/src/i8080.c:29-34 | the exclusive-or trick finds the carries into bits 4 and 8 |
| Arithmetic.AddByte | core/src/i8080.c:162-171 | ADD and ADC give the sum with its carry, half carry, zero, sign and parity |
| Arithmetic.SubByte | core/src/i8080.c:173-177 | adding the complement with inverted carry is subtraction with true borrow |
| Arithmetic.CompareByte | core/src/i8080.c:179-184 | CMP keeps A; carry means below, zero means equal |
| Arithmetic.DecimalByte | core/src/i8080.c:252-266 | DAA after an addition of packed decimal bytes gives the packed decimal sum and its carry |
| Arithmetic.AdcChain | core/src/i8080.c:162-171 | a chain of ADC over n bytes gives the sum and its carry |
| Arithmetic.AdcChainWraps | core/src/i8080.c:162-171 | as a residue: the sum modulo 256^n, with the carry set exactly when it does not fit |
| Arithmetic.SbbChain | core/src/i8080.c:173-177 | a chain of SBB over n bytes gives the difference and its borrow |
| Arithmetic.SbbChainBorrows | core/src/i8080.c:173-177 | it borrows exactly when the subtrahend is larger |
| Arithmetic.DecimalChain | core/src/i8080.c:252-266 | a chain of ADC and DAA over packed bytes gives the decimal sum, its carry and packed bytes only |
| Arithmetic.DecimalChainWraps | core/src/i8080.c:252-266 | as a residue modulo 100^n |
| Processor.Parity8 | core/src/i8080.c:20-26 | folding a byte onto its low bit gives the parity of its bit count |
| Processor.FoldCountsBits | core/src/i8080.c:20-26 | why: each fold keeps the parity of the number of bits set |
| CpuLaws.ExecuteLaw | core/src/i8080.c:373-522 | every instruction logs its machine cycles in order, fetches its operand bytes from PC on, and leaves the interrupt state to EI, DI and HLT |
| CpuLaws.ExecuteContained | core/src/i8080.c:373-522 | every instruction either writes RAM at most twice, within what the journal undoes, or drives one port |
| CpuLaws.ExecutePlain | core/src/machine.c:58-69 | journalling does not change what an instruction does |
| Instructions.ExecuteDoes | core/src/i8080.c:373-522 | every opcode, in terms of bits, named registers, addresses and bus cycles: ANA, XRA, ORA and the rotations bit by bit, arithmetic by values, all flags, transfers, stack, the flag byte, jumps on the named flags |
| Instructions.StepDoes | core/src/i8080.c:524-572 | so does every step that executes one, fetched or jammed |
| Instructions.OpOperates | core/src/i8080.c:162-225 | the eight operations on A with all flags |
| Instructions.RotateRotates | core/src/i8080.c:417-430 | RLC, RRC, RAL and RAR move each bit one place, the last two through CY |
| Instructions.DaaAdjusts | core/src/i8080.c:252-266 | DAA on every value of A and the flags |
| Instructions.PushThenPop | core/src/i8080.c:107-120 | POP takes back what PUSH put on a stack in RAM, PSW with A and all flags |
| StepLaws.TraceMatchesTime | core/src/i8080.c:58-66 | a step logs 1 to 5 machine cycles, so the six slots never overflow, the first being FETCH, INTA or HALTA, and takes exactly 3n+1 T states and what the instruction idles, at most 18 |
| StepLaws.LengthIsFetched | core/src/i8080.c:95-105 | the bytes fetched after the opcode are the ones that LENGTHS announces, at consecutive addresses |
| StepLaws.LengthIsReturnAddress | core/src/i8080.c:107-112 | execution falls through to PC plus LENGTHS, and CALL, taken Ccc and RST push that address |
| StepLaws.JammedRestart | core/src/i8080.c:533-566 | an RST jammed during INTA pushes the unmodified PC |
| StepLaws.StepIrq | core/src/i8080.c:524-572 | the grace count stays at most 1 and only with INTE and not while halted, and what each step does to request, vector, INTE, grace and halt |
| StepLaws.InterruptBudget | core/src/i8080.c:524-572 | over every run from reset, interrupts accepted exceed neither requests made nor EIs executed, the pending one counted |
| StepLaws.RequestIsTaken | core/src/i8080.c:524-566 | with INTE set a request is taken now or a step later unless that step is a DI; a halted processor takes it at once |
| StepLaws.RequestIsServed | core/src/i8080.c:365-369 | the latest request is served with its own vector, FFH by a jump to 38H that pushes PC |
| StepLaws.HaltedWaits | core/src/i8080.c:546-556 | while halted a step is one halt cycle of four T states and changes nothing else |
| StepLaws.GraceInstruction | core/src/i8080.c:443-444 | after an EI with no grace pending one more instruction runs first; an EI after an EI does not extend that |
| Processor.I8080.Step | core/src/i8080.c:524-572 | the class takes one step as the function does |
| Processor.I8080.Execute | core/src/i8080.c:373-522 | the instruction bodies on the fields, as the function does, and their T states |
| Processor.I8080.Reset | core/src/i8080.c:345-363 | the state after reset |
| Processor.I8080.Interrupt | core/src/i8080.c:365-369 | a request replaces the pending vector |
| Board.PokeIsUndone | core/src/machine.c:58-69 | one journalled write is undone by its slot |
| BoardLaws.WhatReads | core/src/machine.c:35-69 | reading after a write: the same RAM cell through any of its addresses, ROM and empty space unchanged |
| BoardLaws.KeysShow | core/src/machine.c:214-233 | each bit of port C: low exactly for a row in which a key of a selected column is pressed |
| BoardLaws.OneKeyShows | core/src/machine.c:214-233 | one key shows at one bit and only under its own column |
| BoardLaws.ModeWord | core/src/machine.c:247-256 | a mode word sets each direction by its own bit and clears all latches |
| BoardLaws.BitWord | core/src/machine.c:257-262 | any other control word sets or clears one bit of port C and nothing else |
| BoardLaws.PortsLatch | core/src/machine.c:304-317 | ports A and B take a byte only as outputs, the halves of port C each by its direction |
| BoardLaws.ReadsBack | core/src/machine.c:279-297 | what each IN reads after an OUT |
| BoardLaws.OutTouches | core/src/machine.c:299-331 | what each OUT changes and leaves alone |
| BoardUnit.Bus.constructor | core/src/machine.c:365-386 | the board at power-on, for both revisions |
| BoardUnit.Bus.Peek | core/src/machine.c:35-56 | address decoding: ROM, RAM mirrored when it is 1 KB, and FFH elsewhere |
| BoardUnit.Bus.Poke | core/src/machine.c:58-69 | a write to RAM, journalled during a dry run while slots are left |
| BoardUnit.Bus.Rollback | core/src/machine.c:470-474 | the journal is undone last write first |
| BoardUnit.Bus.KeyboardScan | core/src/machine.c:219-233 | port C: a row reads low exactly if a pressed key of a selected column lies in it |
| BoardUnit.Bus.PortIn | core/src/machine.c:279-297 | what each port reads |
| BoardUnit.Bus.PortOut | core/src/machine.c:299-331 | a write to a port that drives the displays integrates up to T state 7 first |
| DisplayUnit.Unit.DecayStep | core/src/machine.c:86-95 | one decay step of all energies |
| DisplayUnit.Unit.AdvanceTo | core/src/machine.c:97-143 | the integrator: clamp, charge, decay steps, remainder and blackout |
| DisplayUnit.Unit.ReadIntensity | core/src/machine.c:145-160 | brightness in shares of the whole window |
| DisplayUnit.Unit.ReadRelative | core/src/machine.c:162-177 | brightness in shares of the digit's own time |
| DisplayUnit.Unit.ReadPattern | core/src/machine.c:179-191 | the masks above a threshold |
| DisplayUnit.Unit.Clear | core/src/machine.c:193-200 | an empty window from now on |
| DisplayUnit.Unit.SetPersistence | core/src/machine.c:208-212 | a new tau, at least 1; energies stay |
| Brightness.ReadingsAreShares | core/src/machine.c:145-177 | both brightnesses are 255 times the segment's share of the window or digit, rounded down |
| Brightness.PatternIsThreshold | core/src/machine.c:179-191 | a bit of the pattern is set exactly if its segment exceeds the threshold |
| Brightness.IntensityOverRuns | core/include/umk80/umk80.h:263-268 | over any run a segment lit at every T state reads 255 and one never lit 0 |
| Brightness.OneColumn | core/include/umk80/umk80.h:250-257 | a column alone lights the digit at its place, counted from the left or from the right |
| Brightness.OrderMirrors | core/src/machine.c:97-177 | under the other digit order every interval shows the mirror image |
| Brightness.BlackoutAt512 | core/src/machine.c:126-143 | an interval that brings 512 decay steps due leaves the panel dark, a shorter one as many steps of decay |
| Brightness.LongIsClamped | core/src/machine.c:97-109 | an interval beyond 2^20 T states counts as 2^20 |
| Brightness.StepIsSixtyFourth | core/src/machine.c:126-127 | a decay step is due every tau/64 T states, at least every one |
| DisplayLaws.DecayIsMonotone | core/src/machine.c:86-95 | decay keeps the order of energies and never takes a positive one to zero |
| DisplayLaws.AdvanceKeepsSound | core/src/machine.c:97-143 | one call of the integrator keeps energy ≤ energy of the digit ≤ total ≤ 256·(63·S + remainder) with remainder < S |
| DisplayLaws.NothingWraps | core/src/machine.c:97-143 | under that bound no 32-bit addition wraps while 64·S plus the interval is at most 2^24, which at the 2^20 clamp is S ≤ 245760 |
| DisplayLaws.BoundIsSharp | core/src/machine.c:97-143 | for every larger step size a run of intervals that never wrapped reaches a sound state from which an interval at the clamp wraps the total |
| DisplayLaws.ClampsNeverFire | core/src/machine.c:145-177 | the quotients never exceed 255 on their own |
| DisplayLaws.FewSteps | core/src/machine.c:127-140 | short intervals never reach the 512-step blackout |
| DisplayLaws.AdvanceKeepsClean | core/src/machine.c:97-143 | an interval with clean ports keeps each cell equal to its digit's energy or to zero |
| DisplayLaws.AdvanceKeepsLit | core/src/machine.c:97-143 | a digit lit before or selected now is lit afterwards |
| DisplayLaws.CleanReadsExactly | core/src/machine.c:162-191 | a clean lit digit reads 255 on its segments and 0 elsewhere, and its mask at every threshold below 255 |
| DisplayLaws.AdvanceKeepsBudget | core/src/machine.c:97-143 | with at most one digit selected the six digits' energies never exceed total + 378 |
| DisplayLaws.IntensitiesShareOneDigit | core/src/machine.c:145-160 | then the six intensities of a segment sum to at most 255 once total exceeds 96390 |
| RunLaws.StepIntegrates | core/src/machine.c:426-435 | every T state of an instruction is integrated once under the ports in force, an OUT splitting it at T state 7, and the display clock ends at the processor's |
| RunLaws.OutReachesPorts | core/src/machine.c:299-331 | an OUT takes 10 T states and its port changes inside the instruction |
| RunLaws.NoBlackout | core/src/machine.c:97-143 | neither the clamp nor the blackout acts on an instruction's interval |
| RunLaws.RunKeepsLive | core/src/machine.c:97-143 | over any run from a cleared window the clocks agree and the energies stay sound |
| RunLaws.RunLights | core/src/machine.c:97-143 | a digit has energy exactly if some T state of the run selected it |
| RunLaws.NoGhosting | core/include/umk80/umk80.h:263-284 | over any run with clean multiplexing and for every persistence, each digit with energy reads 255 on its mask's segments and 0 elsewhere, and its mask at every threshold, and a digit without is blank; where no counter can wrap, those with energy are the ones ever selected |
| Ghosts.SegmentReads | core/include/umk80/umk80.h:270-274 | over any run a segment has energy exactly if it was ever lit with its digit, reads 0 if never, and 255 if lit whenever its digit was selected |
| Ghosts.GhostsFade | core/src/machine.c:162-177 | after any run, a digit left dark for any time reads strictly between 0 and 255 exactly where the segment's faded energy is less than the digit's and at least a 255th of it; once the digit is down to 63 it reads 255 on every segment ever lit |
| Gaps.FadeCloses | core/src/machine.c:86-95 | under decay the difference of two energies falls at least as fast as an energy of its size, and vanishes exactly in a step where it is 1 and the larger a multiple of 64 |
| Gaps.GhostsShrink | core/include/umk80/umk80.h:270-274 | for a segment lit with its digit from some point of a run on, the difference never grows, is at most 63 after as many decay steps, and vanishes exactly in such a step; only then does the segment read 255 |
| LostGhost.GhostIsLost | core/include/umk80/umk80.h:270-274 | from OUT to port B, OUT to port A and HLT, a segment lit for 7 of its digit's 17 T states reads 105, and 255 once the halted machine has run for 4289 decay steps |
| LostGhost.GhostMachineLosesIt | core/include/umk80/umk80.h:270-274 | a concrete machine, at the default persistence: 105 after two instructions, 255 after any number of steps from 670158 on |
| LostGhost.OutStep | core/src/i8080.c:461-462 | an OUT keeps registers and memory, moves PC by two and reaches its port |
| Ghosts.HaltedInTheDark | core/src/machine.c:426-435 | a halted processor leaves an unselected digit dark, 4 T states at a time |
| Ghosts.FadeEnds | core/src/machine.c:86-95 | decay brings every energy that was ever charged to exactly 63 |
| RunLaws.OneHotBrightness | core/include/umk80/umk80.h:263-268 | over any run that selects at most one digit at a time, the budget and the bound on the six intensities |
| MachineLaws.JournalUndoesAll | core/src/machine.c:58-69 | undoing any journalled writes in reverse restores RAM, repeated and mirrored cells included |
| MachineLaws.ProbeRollsBack | core/src/machine.c:447-483 | a dry run of any instruction, jammed vectors included, uses at most two slots and its rollback restores everything but the recorded trace |
| MachineLaws.DryRunForetells | core/src/machine.c:447-483 | the recorded trace is the one the real run will have |
| MachineLaws.EarlyPresses | core/src/machine.c:485-504 | press k before the last only shows cycle k: its address, data and status on their rows |
| MachineLaws.LastPress | core/src/machine.c:485-504 | the last press runs the instruction for real |
| MachineLaws.CycleSteppingRefines | core/src/machine.c:437-504 | n presses, n the instruction's cycle count, each show address, data and status of their cycle; they return true exactly on the n-th and end where stepping the instruction ends, recorded trace aside |
| MachineLaws.PressesShowBytes | core/src/machine.c:485-504 | the first press of an instruction shows PC, the opcode and 0A2H, the next ones the address and byte of each operand and 82H |
| MachineLaws.PressShowsInterrupt | core/src/machine.c:485-504 | the first press of an interrupt shows PC, the vector and 23H or 2BH, and of a halted processor 8AH |
| MachineLaws.CycleRunRefines | core/src/machine.c:485-504 | the same over any number of instructions |
| MachineLaws.RunReportsTheBudget | core/src/machine.c:506-517 | an unlatched run of c > 0 T states terminates and reports c to c+17; a latched one does nothing |
| MachineLaws.RunIsInstructions | core/src/machine.c:506-517 | such a run is the least number of instructions that reaches the budget, and the LEDs then show the last machine cycle |
| MachineLaws.StaysReady | core/src/machine.c:437-443 | a whole instruction, even amid cycle steps, ends between two instructions |
| MachineLaws.ResetFetches | core/src/machine.c:404-415 | after a reset no interrupt can come and the next fetch is from address 0 |
| MachineLaws.ResetBlanks | core/src/machine.c:404-415 | ports read FFH, no column is selected, displays and LEDs are blank, memory stays |
| MachineLaws.InitIsReset | core/src/machine.c:365-387 | power-on is a reset of empty memory |
| MachineUnit.Umk80.constructor | core/src/machine.c:365-386 | the machine at power-on |
| MachineUnit.Umk80.ExecOne | core/src/machine.c:426-435 | one instruction and its display interval |
| MachineUnit.Umk80.StepInstruction | core/src/machine.c:437-445 | an instruction, with the cycle index reset and the panel updated |
| MachineUnit.Umk80.StepProbe | core/src/machine.c:447-483 | dry run, recording and rollback |
| MachineUnit.Umk80.StepMachineCycle | core/src/machine.c:485-504 | one press |
| MachineUnit.Umk80.RunCycles | core/src/machine.c:506-517 | the run loop and the T states it reports |
| MachineUnit.Umk80.Reset | core/src/machine.c:404-415 | reset of processor, 8255, display window and stepping |
| MachineUnit.Umk80.PressStep | core/src/machine.c:538-543 | the step key, by the mode selected |
| AssemblerUnit.Umkasm.SymFind | tools/umkasm.c:54-60 | the first entry of a name |
| AssemblerUnit.Umkasm.SymSet | tools/umkasm.c:63-77 | the table and whether the value differs |
| AssemblerUnit.Umkasm.AssembleLine | tools/umkasm.c:327-506 | one line: label, EQU, directives and instructions |
| AssemblerUnit.Umkasm.ReadLines | tools/umkasm.c:534 | the reading loop keeps the first 6000 lines |
| AssemblerUnit.Umkasm.Converge | tools/umkasm.c:541-552 | the passes stop at the first that changes nothing, or after 16; for an orderly program that is the number its longest chain gives |
| AssemblerUnit.Umkasm.Emit | tools/umkasm.c:553-556 | the emitting pass |
| AssemblerLaws.DefineLaw | tools/umkasm.c:63-77 | what a definition does to every symbol and to the flag |
| Evaluation.Operators | tools/umkasm.c:151-173 | difference, sum, negative and complement as arithmetic on the values of their parts |
| Evaluation.SymbolIsEntry | tools/umkasm.c:134-145 | a symbol has the value of the first entry with its name |
| Evaluation.NamesAgree | tools/umkasm.c:134-145 | only the first 31 characters of a name count, and all of those |
| Evaluation.NumbersRead | tools/umkasm.c:112-133 | digits with suffix H, B, D or none have their positional value in base 16, 2 or 10 |
| Evaluation.SettledDifference | tools/umkasm.c:374-380 | once a pass has settled, a symbol defined as x - y plus y is x |
| Evaluation.BytesOfDb | tools/umkasm.c:396-403 | DB emits the values modulo 256 in order and reports those that do not evaluate |
| Evaluation.WordsOfDw | tools/umkasm.c:404-411 | DW emits two bytes for each value |
| Evaluation.WordAt | tools/umkasm.c:404-411 | which are the value modulo 65536, low byte first |
| Evaluation.DataLines | tools/umkasm.c:396-503 | a line is emitted with the location where it starts as the value of $ |
| Evaluation.OutsideIsReported | tools/umkasm.c:272-285 | a byte outside the image is reported and not written |
| Evaluation.OperandBytes | tools/umkasm.c:413-503 | the bytes after an opcode are its operand modulo 256 or 65536, low byte first |
| Evaluation.ReportsMisfits | tools/umkasm.c:413-503 | an instruction is reported exactly if its operands are not the registers, pairs or values it takes |
| Evaluation.Directives | tools/umkasm.c:385-395 | ORG, DS, END and unknown words |
| AssemblerLaws.QuietLines | tools/umkasm.c:351-411 | in a pass that raises no flag the table stands still and every line agrees with it |
| AssemblerLaws.FixpointIsConsistent | tools/umkasm.c:541-556 | once a pass changes nothing, the emitting pass leaves the table alone, every label has the address its line emits at and every EQU its value |
| AssemblerLaws.NoDisagreement | tools/umkasm.c:541-556 | and no symbol has two definitions that disagree |
| AssemblerLaws.SettlesWithLongNames | tools/umkasm.c:63-77 | whatever the names, a pass settles exactly if it does without the EQUs whose names do not fit and, while the table has room, none of those evaluates |
| AssemblerLaws.PassesWithLongNames | tools/umkasm.c:541-547 | the same for the k-th pass of a run |
| AssemblerLaws.LongNameNeverSettles | tools/umkasm.c:63-77 | with room in the table, an EQU with such a name that evaluates changes the pass |
| AssemblerLaws.FullTableSettles | tools/umkasm.c:63-77 | an EQU of a number under such a name takes one more entry while there is room, and none from a full table |
| AssemblerLaws.LongNameFillsTable | tools/umkasm.c:63-77 | the program of that one EQU holds k entries after k passes, up to 1024, and no pass settles before the table is full |
| LongNames.SettlesIfDead | tools/umkasm.c:541-547 | if no EQU with a long name can ever evaluate, pass k settles exactly when it does without them; otherwise it does not while the table has room |
| LongNames.RoomTaken | tools/umkasm.c:63-77 | k passes take at most one entry for each definition and one for each long EQU in each pass |
| LongNames.SettlesWithRoom | tools/umkasm.c:541-547 | hence, with room for that, the condition on the source for pass k to settle |
| LongNames.SixteenWithLongNames | tools/umkasm.c:541-547 | and for sixteen passes to suffice: no long EQU is feasible, and no chain of forward references exceeds fourteen |
| Convergence.PassesSettle | tools/umkasm.c:541-552 | after d+1 passes exactly the symbols grounded at depth d have values |
| Convergence.ValuesNeverChange | tools/umkasm.c:63-77 | a value, once set, stands in every later pass |
| Convergence.DepthIsLongestChain | tools/umkasm.c:541-547 | every program has a longest chain of forward references, and only one |
| Convergence.PassesToConverge | tools/umkasm.c:541-556 | the passes of every orderly program settle, from the longest forward chain plus two on and not before, and at once if no symbol gets a value |
| Convergence.SixteenPasses | tools/umkasm.c:541-551 | the sixteen passes suffice exactly for chains of up to fourteen forward references |
| Convergence.ValueIffNotStuck | tools/umkasm.c:374-380 | once the passes have settled a symbol has a value exactly if it is in no set of formulas that lead only to each other, to undefined symbols or to no factor |
| Convergence.StuckIsReported | tools/umkasm.c:374-380 | the emitting pass then reports the line of an EQU exactly if the definition that this line makes is in such a set |
| RoundTrip.DisassemblerNamesInstruction | tools/disasm.c:20-104 | for all 256 opcodes the text names the instruction the interpreter executes, and its length is that of the table |
| RoundTrip.InvertsInstruction | tools/umkasm.c:413-502 | encoding that text gives the documented opcode of the instruction and its operand bytes |
| RoundTrip.CanonRunsTheSame | core/src/i8080.c:329-341 | each of the twelve undocumented opcodes runs and measures as the documented one it is replaced by |
| Listing.CanonicalIsImage | tools/umkdis.c:66-84 | the canonical image is the image exactly if nothing is truncated and nothing undocumented |
| Listing.SweepRoundTrip | tools/umkdis.c:66-84 | a swept image, its numbers understood, assembles to its canonical form without complaint |
| Listing.PrintedReads | tools/umkasm.c:112-133 | a printed number reads back exactly if its first digit is decimal; otherwise it is taken for a symbol |
| Listing.PrintedRoundTrip | tools/umkdis.c:66-84 | as printed, the instruction lines of a listing assemble without complaint exactly if all their numbers lead with a decimal digit, and then to the canonical image |
| Listing.ListingIsEmitted | tools/umkasm.c:272-290 | the emitting pass places a listing's bytes at consecutive addresses and nothing else |
| Listing.FileIsEmitted | tools/umkasm.c:553-556 | what the emitting pass makes of the printed file: the bytes of the lines read, at the origin read, and their complaints |
| Listing.FileComesBack | tools/umkdis.c:63-84 | the printed file, ORG line included, assembles without an error to the canonical image at the origin exactly if it fits, has at most 6000 lines, and origin and numbers lead with a decimal digit |
| Listing.ImageComesBack | tools/umkdis.c:63-84 | with nothing truncated and nothing undocumented that is the image byte for byte, under the same condition |
| Listing.OriginIsLost | tools/umkasm.c:383-387 | an origin above 9FFFH is taken for an undefined symbol: the bytes go to address 0 and nothing is reported |
| Listing.TailIsLost | tools/umkasm.c:534 | instructions beyond the line limit are dropped and nothing is reported |
| Listing.NopsAreLost | tools/umkasm.c:534 | NOPs at such an origin, and more NOPs than there are lines, are inputs of both kinds |
| Listing.ListingSettles | tools/umkasm.c:541-547 | the passes before the emitting one settle at once |
| HexUnit.SaveHex | cli/umkcli.c:244-265 | the records of a range and the end record, as the loops write them |
| HexUnit.ReadHexb | cli/umkcli.c:181-191 | two characters as a byte, or -1 |
| HexUnit.LoadHex | cli/umkcli.c:193-230 | the reading loop: memory afterwards and whether it reports success |
| HexLaws.RecordText | cli/umkcli.c:244-262 | below 64 KB a record is a colon and its bytes, two digits each |
| HexLaws.RecordSumsToZero | cli/umkcli.c:244-262 | every record's bytes sum to 0 modulo 256 |
| HexLaws.RecordLoads | cli/umkcli.c:193-230 | reading a record back pokes its bytes and accepts its checksum |
| HexLaws.VerdictOnRecord | cli/umkcli.c:193-230 | a record held whole is bad exactly if its bytes do not sum to 0 modulo 256, the end exactly if it is good and of type 1, and its data is stored exactly for type 0 |
| HexLaws.DamagedFileIsRefused | cli/umkcli.c:193-265 | a saved file in which one byte of one record, its length aside, is changed does not load |
| HexLaws.OtherLines | cli/umkcli.c:193-230 | lines without a colon are skipped, unreadable lengths refused, and types other than 0 store nothing |
| HexLaws.BufferHolds | cli/umkcli.c:193-230 | what the line buffer holds after a line: the line, its end, and the rest of the line before |
| HexLaws.LateRecord | cli/umkcli.c:193-230 | a record that begins at or above 64 KB pokes nothing into RAM, whatever it holds |
| HexLaws.SaveThenLoad | cli/umkcli.c:193-265 | for every range: a RAM cell reads as it did when saved exactly where some record below 64 KB covers it, every other cell is untouched, and loading succeeds if all records lie below |
| HexLaws.RoundTrip | cli/umkcli.c:193-265 | up to 64 KB every address of the range reads as it did, on mirrored RAM too, and no other cell changes |
| MachineCode.StepIsNext | core/src/i8080.c:524-572 | with nothing pending a processor step is a step of registers, PC and memory |
| Monitor.Compare1 | rom/monitor.asm:435-440 | COMPA1 sets the carry exactly if HL exceeds DE |
| Monitor.Compare | rom/monitor.asm:428-440 | COMPA steps HL on and sets the carry exactly if it wrapped to 0 or exceeds DE |
| Walks.FillReaches | rom/monitor.asm:272-275 | the fill is at the m-th address after 13m instructions, in order, with the addresses before it filled |
| Walks.FillRuns | rom/monitor.asm:270-275 | a range, up to 0FFFFH, is filled in so many instructions and nothing else changes but two stack cells; an upside-down one goes to ERROR |
| Copying.MoveReaches | rom/monitor.asm:286-291 | the copy is at the m-th address after 15m instructions, with memory as the loop leaves it |
| Copying.MoveRuns | rom/monitor.asm:284-291 | every range, up to 0FFFFH, is copied address by address upwards in so many instructions; off the stack cells of its calls that is the plain copy when the source is clear of them |
| Copying.CopyIsFaithful | rom/monitor.asm:286-291 | without overrun each destination reads as its source did, unless a later one shares its cell |
| Copying.FirstOverrun | rom/monitor.asm:286-291 | at the first overrun the finished copy holds an earlier byte instead |
| Copying.CopyIsExact | rom/monitor.asm:286-291 | into RAM, every content of memory copies faithfully exactly if the source has no part in RAM, the ranges share all cells, or the destination lies at least the length of that part above the source, modulo the chip size |
| Copying.RamToRam | rom/monitor.asm:286-291 | from RAM to RAM, exactly if that distance is none or at least the length |
| Copying.MoveIsExact | rom/monitor.asm:284-291 | the machine code of MOVE copies every content of memory faithfully exactly under that condition |
| Copying.WholeBoardCopies | rom/monitor.asm:286-291 | on the 2 KB board copies between disjoint ranges, or not upwards, are faithful |
| Copying.MirrorSmears | rom/monitor.asm:286-291 | on the 1 KB board a copy between disjoint ranges that is not |
| Walks.SumReaches | rom/monitor.asm:305-310 | after 15m instructions C is the sum of what the loop has read at the first m addresses |
| Walks.SumRuns | rom/monitor.asm:302-310 | over every range the checksum is the sum of what the loop reads modulo 256, and of a range clear of its stack cells the sum of the range |
| Breakpoints.PlantTurn | rom/monitor.asm:247-259 | a turn of G03 pops an address, saves it and its byte in the next slot and puts RST 7 there |
| Breakpoints.LiftTurn | rom/monitor.asm:398-414 | a turn of RST2 clears a slot's address and puts its byte back unless the address was zero |
| Breakpoints.TwoBreakpoints | rom/monitor.asm:394-414 | two breakpoints come back exactly if they lie in different cells or the byte was RST 7 already; both slots end free |
| Breakpoints.MirroredBreakpoints | rom/monitor.asm:394-414 | breakpoints at 900H and 0D00H on the 1 KB board leave RST 7 behind |
| Breakpoints.OneBreakpoint | rom/monitor.asm:394-414 | one breakpoint comes back and both slots end free |
| MonitorUnit.Fill | rom/monitor.asm:270-275 | the fill, run on the class |
| MonitorUnit.Move | rom/monitor.asm:284-291 | the copy, run on the class |
| MonitorUnit.Checksum | rom/monitor.asm:302-310 | the checksum, run on the class |
| MonitorUnit.Plant | rom/monitor.asm:247-259 | planting one or two breakpoints, run on the class |
| MonitorUnit.Lift | rom/monitor.asm:398-414 | lifting both slots, run on the class |

## Left out

- The frontends, drawing, the font, the command line apart from Intel HEX, and `tools/umkrom.c`.
- Saving and loading machine states, the power fault lamps, the key setters, the switch setters and `umk_load_rom`: single copies or assignments.
- The ROM image as a whole: the laws about the monitor assume its bytes at the routines concerned.
- The monitor beyond those routines: keyboard, displays, the dispatch of commands, the test for the source of an interrupt.
- Interrupts requested, RAM poked or cycles run between two machine-cycle presses of one instruction: the recorded trace may then be stale.
- The flag byte is held as its five condition bits; bits 1, 3 and 5, which never vary, are put in where it is pushed.
- Trace and journal are sequences of the entries in use; stale slots beyond them are not modelled.
- The 64-bit cycle counter and the assembler's `long` do not wrap.
- The assembler starts from parsed statements: trimming, case, quotes, comments, the splitting of operands, the 63-character limit of a number and the 511-character limit of a line are not modelled, and mnemonics and registers are enumerations.
- AssemblerUnit.Umkasm.AssembleLine: reports are counted, not printed.
- RunLaws.NoGhosting: tau is fixed since the window was cleared, because setting it keeps the energies but restarts the remainder; so it is in Ghosts.GhostsFade and Gaps.GhostsShrink.
- HexLaws.DamagedFileIsRefused: for ranges below 64 KB; a changed length makes the loader read the record elsewhere, and is left out.
- HexLaws.SaveThenLoad: assumes that address plus length stays below 2^32, beyond which the loop counter of the code would wrap; lines read are at most 599 characters, as `fgets` returns them.
- Walks.FillRuns: says nothing of what the two stack cells under CALL COMPA hold afterwards, and no interrupt is pending.
- Walks.SumRuns: no interrupt is pending; the same holds of Copying.MoveRuns.
- Copying.CopyIsExact: a copy longer than the chip from a source that is not wholly in RAM, and a destination that is not, are left out: what comes of the former depends on the contents of the ROM.
- Copying.MoveIsExact: both ranges are clear of the two stack cells under CALL COMPA.
- LongNames.SettlesWithRoom: assumes room in the table for what the passes before may add; without room the condition is on the table, in AssemblerLaws.SettlesWithLongNames.
- Listing.FileComesBack: says what is written; unwritten bytes of the image file hold 0FFH, which may happen to be right. The options that pick a part of the image are not modelled.
- Breakpoints.TwoBreakpoints: the addresses must not share cells with the table nor, for the first, with the stacked second address.
