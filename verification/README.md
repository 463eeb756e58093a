# CN1601

A Dafny model of the CN1601 toolchain and simulator: a 16-bit processor with a two-phase
cycle simulator, its coprocessors on an interrupt bus, and its assembler and disassembler.

**The machine.** `Isa` is the instruction set, one instruction or trap at a time, in integer
arithmetic over structured state: modulo 2^16, sign extension, floor division, carries as
comparisons. `Core` and `Simulator` are the simulator in its own form: a class whose control
registers are one array of 32 words, exec and update over signals that stay behind between cycles, and
two memory interfaces with a request handshake. C's bit operators work on binary digits (`Words`,
`Alu`, `StatusBits`). Each method's contract says what its signals amount to in `Isa`; `Cycles` is
the phase machine they add up to, and `Pipeline` proves that its runs are runs of `Isa` with exact
timing, and `Program` says it of the class from reset on. The theorems about programs (`Protection`,
`TrapStack`, `Transparency`, `Atomicity`, `SleepWake`) are about `Isa` runs or runs of cycles with the interrupt lines, coprocessor values
and over-wide shifts chosen freely at every step. `Timer`, `Nvram`, `CpBus` put coprocessors on the bus.
`Manual`, `Accesses` and `Handlers` give the instruction set by number: what the step on a word does, as arithmetic on
its digits, with registers by their numbers and no table or constant of the model in between; `Devices` does so for the
coprocessors' registers and commands.

**The threads.** `Dlist` is the ring of nodes on the heap with a ghost sequence, `Mbox` the mailbox
over it and the monitor protocol of its waiters, `Uart` the receive thread, transmit thread and
processor interleaved between any two accesses to shared state, `UartBoxes` the same steps on mailboxes,
`UartLine` the status register.

**The toolchain.** `InstrTable`, `Encoder`, `Decoder` and `Printer` are the table and the code it drives,
`Text` is strtol and printf, `Reader`, `Tokens`, `Labels` and `Assembler` the tokenizer and two passes. `Codec` and
`RoundTrip` show that the directions undo each other, `TwoPasses` that the passes agree, `Undeclared` what
becomes of labels nobody declares, and `Landing` that assembled branches and addresses arrive when the machine executes them.
`Mnemonics` does this for every name of the table, `Printed`, `Numbers` and `SourceLines` fix what is printed, how numbers
are written and how a line is laid out, character by character.

Conventions: a function is the specification of the method named with it, methods keep the loops and
state of the source, lemmas state what follows. Effects of the outside (interrupt lines, values read from a
coprocessor, line data, thread switches) are parameters and are never constrained.

Facts of the code that the statements depend on:

- Memory: the array has 65535 words, the interface is told that length and compares with `>` (sim.c:31-32,
  sim_memif.c:57), so an access to 0xFFFF passes the test and is outside the array, undefined in C (`OutsideIff`). The
  model gives memory a word there. No access then faults, and the proofs of `Sim.DataAccess` and `Sim.Cycle`
  show it; a run that does not go to 0xFFFF does not depend on that word (`LastWordIsUnseen`), and
  `MemIf.Access` holds of the array as it is. Of the fault branches only
  what they leave in the core is stated; they do not complete a trap.
- Runs start from reset followed by `goto` (sim.c:461-475); before that no fetch is requested.
- A shift by 32 or more is undefined in C; its result is an input (`wide`) on both sides.
- The user-mode coprocessor test (sim_core.c:530, 546, 562) is always false: `CoprocNeverDenied`.
- An interrupt directly after `mtctl rX, q10` saves the previous UM, RUMODE and argument: `StaleInterrupt`,
  `StaleInterruptReturns`; here and below `Examples` holds an input on which it shows.
- Traps nest right two deep, but not deeper in general, since a trap overwrites all frames below the one
  before it: `MatchedIff` is the exact condition, for every run.
- `sleep` with enables only above bit 7 is not reported: `UnreportedSleep`.
- `dlist_first` never returns null, so a get on an empty box takes the header (mbox.c:43-55): `Mailbox.Get`. The
  timed wait does not look at the length again (mbox.c:69-79); in `Uart` it returns 0 only after a signal and
  has one consumer, and `UartSafety` shows that a return without one would find the box empty.
- A read that fails with EINTR posts the character of the read before: `InterruptedReadDuplicates`.
- The NVRAM keeps 16 of the 32 address digits and compares with a length in bytes: `MeetsItsCellIff`.
- The assembler refuses an image that reaches 65536 words (asm.c:477): `TextRoundTrip`.
- The error text for `.data` offers `%`, which the test before it refuses (asm.c:317); the model follows the test.
- An undeclared label in an `@` operand is not refused: it has the value -1 (asm.c:241-278), or 255 behind `.l`;
  in a `%` operand it is, but for a low byte: `UnknownAcceptedIff`.
- A line of more than 255 characters swallows the rest of the source text (asm.c:107-109): `LinesBackIff`.
- Opcodes in cpuspec.txt and some mnemonics in tests/ are out of date; the table decides.

## Model

| member | source | states |
|---|---|---|
| Isa.Pack | sim_core.h:70-92 | the six fields of the status word determine it and are read back unchanged |
| Isa.PackUnpack | sim_core.h:70-92 | every status word is the packing of its fields, so the fields lose nothing |
| Isa.Pending | sim_core.c:129-142 | the lowest-numbered source from i on that is asserted, enabled and unmasked; none exactly when no such source exists |
| Alu.AluIsCompute | sim_core.c:58-86 | every operation of the arithmetic unit, written with C's bit operators, is modular arithmetic, a carry by comparison, a shift by multiplication or floor division, or a rotation; over-wide shifts stay uninterpreted on both sides |
| Alu.RotIsRotate | sim_core.c:78-80 | shifting left, shifting right and or-ing rotates the word by single digits as often as the low four digits of the operand say |
| Alu.RotateIsFold | sim_core.c:78-80 | k single rotations are one multiplication whose overflow comes back in at the bottom |
| Alu.ShiftInImmediate | sim_core.c:333-341 | mask, shift and or of `shlli` are r * 256 + immediate modulo 2^16 |
| Alu.LowImmediate | sim_core.c:360-386 | `ori` and `xori` work on the low byte and keep the high one |
| Alu.LowMask | sim_core.c:369-377 | `andi` with the mask 0xFF00 works on the low byte and keeps the high one |
| Alu.HighImmediate | sim_core.c:387-413 | `orih` and `xorih` work on the high byte and keep the low one |
| Alu.HighMask | sim_core.c:396-404 | `andih` with the mask 0x00FF works on the high byte and keeps the low one |
| Alu.GetBitValue | sim_core.h:74-92 | shift and mask read the digit of weight 2^k, whatever stands above and below it |
| Alu.SetBitValue | sim_core.h:74-92 | mask, shift and or replace the digit of weight 2^k and no other |
| StatusBits.Um | sim_core.h:90-92 | the user mode macros read and write that field of the status and keep the five others |
| StatusBits.Gie | sim_core.h:86-88 | the global interrupt enable macros read and write that field of the status and keep the five others |
| StatusBits.Rumode | sim_core.h:82-84 | the return mode macros read and write that field of the status and keep the five others |
| StatusBits.Ll | sim_core.h:78-80 | the load link macros read and write that field of the status and keep the five others |
| StatusBits.Umsave | sim_core.h:74-76 | the saved return mode macros read and write that field of the status and keep the five others |
| StatusBits.SetArg | sim_core.h:70-72 | storing the software interrupt argument keeps the five mode flags |
| Decoder.SgnExtendIsSext | instructions.c:13-15 | shifting a field to the top of a 32-bit integer and back is sign extension, for every width |
| Decoder.DecodeInstruction | instructions.c:109-232 | every word decodes without error, into its digits by integer division |
| Core.Core.ExecAlu | sim_core.c:227-326 | the class leaves behind what the instruction means; which opcode and subcode mean which arithmetic is in `Manual.Arithmetic` |
| Core.Core.ExecImmediate | sim_core.c:327-359 | the same for `li`, `shlli`, `inci`, `deci` |
| Core.Core.ExecByte | sim_core.c:360-413 | the same for the immediate bit operations |
| Core.Core.ExecBranch | sim_core.c:423-438 | the same for `ba` and `bal` |
| Core.Core.ExecBranchIf | sim_core.c:439-458 | the same for `bz` and `bnz` |
| Core.Core.ExecJump | sim_core.c:459-474 | the same for `jr` and `jlr` |
| Core.Core.ExecLoad | sim_core.c:475-495 | the same for `ll` and `ldw`; the request names the right address |
| Core.Core.ExecStore | sim_core.c:496-525 | the same for `stw` and `sc`; an `sc` without a link requests nothing and yields 0 |
| Core.Core.ExecCoproc | sim_core.c:526-572 | the same for `mfcp`, `mtcp`, `cpop`; the bus carries the command |
| Core.CoprocNeverDenied | sim_core.c:526-562 | the user-mode coprocessor test is false for every coprocessor and every umcpen |
| Core.Core.ExecSystem | sim_core.c:414-422 | the class does the same for `sleep`, `int`, `rfi`, and the trap that privileged ones take in user mode; by number in `Handlers` |
| Core.Core.ExecControl | sim_core.c:592-613 | the same for `mfctl`, `mtctl` |
| Core.Core.StatusTrap | sim_core.c:106-113 | the trap macro sequence is the transition of the mode flags |
| Core.Core.StatusRfi | sim_core.c:115-121 | the return macro sequence is the inverse transition, two levels deep |
| Core.Core.CheckPendingInterrupt | sim_core.c:129-142 | the loop finds the lowest-numbered wanted source or -1 |
| Core.Core.Exec | sim_core.c:145-657 | one call of exec: what each of stall, sleep, interrupt, instruction fault and instruction leaves for update, and what it leaves alone |
| Core.Core.PropagateSignals | sim_core.c:659-685 | the low byte of IPEND shows the interrupt lines, its two top digits the fault signals; no other register changes |
| Core.Core.GprWrite | sim_core.c:97-104 | a register write reaches the file that the mode selects |
| Core.Core.Count | sim_core.c:832-846 | two 16-bit registers count as one modulo 2^32, and the coprocessor bus falls idle |
| Core.Core.Commit | sim_core.c:711-830 | retiring an effect without memory access gives the state that the instruction set prescribes, and the sleep verdict |
| Core.Core.CommitMemory | sim_core.c:725-796 | a load or store retires in the cycle its answer arrives, and only stalls in the one before; a data fault goes to the fault handler with no register written, the status trapped only in the latch and the request still standing |
| Core.Core.Update | sim_core.c:687-847 | one call of update, for stalls, sleep and every effect |
| Core.ArchPut | sim_core.h:98-118 | writing entry q of the control array is writing the named register or user register that shares the place |
| Core.ArchRead | sim_core.h:98-118 | and reading it reads that register |
| Simulator.MemIf.Access | sim_memif.c:33-75 | the request, delay and quiescent handshake: answered in the second cycle, one access each, memory otherwise untouched |
| LastWord.LastWordIsUnseen | sim.c:31-32 | two machines that differ at 0xFFFF alone run alike, as long as one of them does not fetch, load or store there |
| Simulator.OutsideIff | sim_memif.c:57 | an address passes the length test and is outside the array of 65535 words if and only if it is 0xFFFF |
| Simulator.Sim.constructor | sim.c:376-384 | after reset and `goto` the machine starts a fetch from the power-on state (sim.c:461-475) |
| Simulator.Sim.FetchAndExec | sim.c:338-341 | fetch access and exec in any phase |
| Simulator.Sim.DataAccess | sim.c:349-363 | the data access: no address faults, a load sees memory, a store changes one word |
| Simulator.Sim.UpdateCore | sim.c:371-374 | update closes the cycle and keeps the bus-phase invariant |
| Simulator.Sim.Cycle | sim.c:324-374 | one cycle keeps the bus-phase invariant (request, delay, quiescent and stall signals fixed in each of fetch start, fetch wait, data wait and sleep), is one step of the phase machine and returns the sleep verdict |
| Simulator.Sim.Steps | sim.c:477-498 | the `step` loop runs the cycles asked for, or up to and including the first with a verdict |
| Cycles.RunAppend | sim.c:490-492 | runs of cycles compose |
| Pipeline.TwoCycleAccess | sim_core.c:725-796 | a load or store spread over two cycles, with the lines moving in between, is one access of two ticks |
| Pipeline.StepIsCycles | sim.c:324-374 | the two, three or one cycles of a step of the instruction set lead from one ready state to the next |
| Pipeline.CyclesRefineIsa | sim.c:324-374 | stuttering refinement for every run of cycles from a ready or sleeping state: it is a run of the one-step instruction set plus an incomplete step; n awake steps of which m access memory take exactly 2n + m cycles, a wake-up one |
| Pipeline.StepsAreOneRun | sim.c:324-374 | the steps of a run of cycles are a prefix of those of every longer run, so the ready states passed are those of one run of the instruction set |
| Pipeline.StallsKeep | sim_core.c:693-707 | the cycles of an incomplete step, at most two, change nothing but counter, lines, IPEND and link flag; the latched status stays or is brought up to date |
| Program.ResetGotoStep | sim.c:461-498 | the simulator class from reset, `goto` and `step`: its state is that of a run of the instruction set from power-on, but for stalls, and the cycles taken are counted by its steps |
| Program.FirstStep | sim.c:461-475 | from power-on all 32 control registers and both general files are zero, and the first step is the word at the start address, whatever the lines |
| Manual.GateDigits | sim_core.c:58-66 | the four gates, digit by digit |
| Manual.Arithmetic | sim_core.c:227-326 | for every awake state with nothing pending and every word of opcodes 0 to 3 given by its digits: rD becomes the sum, difference, carry, borrow, gate, shift or rotation that opcode and subcode number, and nothing else changes |
| Manual.Immediates | sim_core.c:327-413 | likewise opcodes 4 to 0x0D, on rD and the low byte of the word |
| Manual.Branches | sim_core.c:423-474 | likewise 0x0F to 0x14: where pc goes, when, and what r7 becomes |
| Accesses.Loads | sim_core.c:475-495 | likewise 0x15 and 0x16: rD becomes mem[(rB + n) mod 2^16], memory is unchanged, and digit 12 of q10 is set or cleared |
| Accesses.Stores | sim_core.c:496-525 | likewise 0x17 and 0x18: that one word of memory becomes rD, or without a link nothing is stored and rD becomes 0 |
| Accesses.CoprocessorWords | sim_core.c:526-572 | likewise 0x19 to 0x1B inside the core |
| Accesses.BusByNumber | sim_core.c:526-572 | and on the bus: the coprocessor, the register and the value that the word names |
| Accesses.WritesFile | sim_cp_if.c:71-91 | 0x1A puts rD into the register of the coprocessor that its digits name, and into no other |
| Accesses.WrittenThenRead | sim_cp_if.c:71-91 | 0x1A, any run that does not write that register, 0x19 of the same two numbers: the value is back |
| Handlers.SoftwareTraps | sim_core.c:573-580 | 0x1C goes to the address in q13, with the return address in q8, the old q8 in q9 and every digit of q10 given |
| Handlers.ReservedTraps | sim_core.c:581-625 | 0x0E, 0x1D, 0x1E and 0x1F in user mode go to the address in q15, to come back to themselves |
| Handlers.ReturnWord | sim_core.c:581-591 | 0x1D in supervisor mode goes to q8, q8 becomes q9, and every digit of q10 is given |
| Handlers.SleepWord | sim_core.c:414-422 | 0x0E in supervisor mode sleeps, and nothing but pc moves |
| Handlers.ControlRead | sim_core.c:592-602 | 0x1E brings any of the 32 control registers: the clock one tick on, and in the low byte of q25 the lines digit by digit |
| Handlers.ControlWritten | sim_core.c:603-613 | 0x1F writes the one it names and no other; a half of the clock counts on from there |
| Handlers.InterruptTraps | sim_core.c:197-210 | the first line that is up, enabled in q24 and let through by digit 14 of q10 goes to the address in q16 and up, from an awake core and a sleeping one |
| Handlers.StepKeeps | sim_core.c:687-847 | no step but an `mtctl` to it changes a control register from q11 on, IPEND and the counter aside |
| Handlers.SoftwareHandler | sim_core.c:573-580 | after `mtctl rA, q13` and any run that does not write q13, `int` arrives at the value rA had |
| Handlers.PrivilegeHandler | sim_core.c:620-625 | the same for q15 and a privileged instruction in user mode |
| Handlers.InterruptHandler | sim_core.c:197-210 | the same for q16 to q23 and the eight interrupts |
| Handlers.ClockCounts | sim_core.c:832-846 | q28 and q29 as one number count the cycles not slept through, over any run that writes neither |
| Handlers.SleepEnds | sim_core.c:169-179 | a sleep can be ended if and only if digit 14 of q10 is set and q24 has a digit below the eighth |
| Handlers.SleepReported | sim_core.c:816-830 | and is reported if and only if that digit is clear or q24 is zero |
| Pipeline.CounterCountsCycles | sim_core.c:832-846 | without `mtctl` to q28 or q29 the counter grows by the cycles not slept through, modulo 2^32 |
| Protection.LatchedStatus | sim_core.c:199-223 | the status an interrupt would save equals the current one, link flag aside, after every step but `mtctl rX, q10`, where it is the previous one and equal only if the write changed nothing |
| Protection.LatchedOverRuns | sim_core.c:199-223 | the same at every state of every run |
| Protection.UserCycle | sim_core.c:573-613 | one cycle in user mode: privileged state stays, or control leaves through a handler vector |
| Protection.CoherentRun | sim.c:324-374 | every run of cycles keeps the phase in step with the sleep flag, and a data wait with a memory access and a fresh latch, so the hypothesis of the two results beside this one holds at every reachable phase |
| Protection.UserRun | sim_core.c:88-121 | a run in user mode of any length never changes supervisor registers, vectors, enables or the trap registers; only a trap to swihdl, privophdl or an exihdl ends it |
| TrapStack.TrapFlags | sim_core.c:806-815 | what a trap, a return and anything else do to the saved frames |
| TrapStack.MatchedIff | sim_core.c:106-121 | in every run that leaves q8-q10 alone, from every state with a fresh latch, at every depth and in every interleaving of traps and returns: each `rfi` resumes the code of its own trap in that code's mode if and only if, at each return, the frame the history has carried to the top (a trap pushes one and overwrites every lower one with the one before it, a return pops) is the one its trap pushed |
| TrapStack.TrapsNest | sim_core.c:106-121 | so with at most two levels each `rfi` resumes its own code and mode, whatever runs in between |
| TrapStack.ThirdTrapLosesTheFirst | sim_core.c:806-815 | a trap on two or more frames and three returns, step by step: the last return resumes the second frame again, so it is right if and only if that equals the first |
| TrapStack.ThirdTrapMatchedIff | sim_core.c:806-815 | the same as a corollary about the whole run |
| Transparency.Enter | sim_core.c:199-205 | an interrupt saves pc and mode of what it interrupts |
| Transparency.HandlerKeeps | sim_core.c:97-104 | a handler run of any length keeps user registers, memory, the saved frame and the mode |
| Transparency.InterruptTransparent | sim_core.c:806-815 | interrupt, any handler run, `rfi`: the interrupted program is back with its pc, mode, registers and memory |
| Transparency.InterruptTransparentIff | sim_core.c:199-205 | from every state, latched status stale or not: interrupt, any handler run and `rfi` give the interrupted program back if and only if the latched UM, RUMODE and argument were the current ones; what comes back otherwise is the program with the latched flags |
| Transparency.StaleInterrupt | sim_core.c:200-205 | directly after `mtctl rX, q10` the interrupt saves the status from before the write; the handler starts from the right saved state if and only if the written value has UM clear and RUMODE and argument as they were |
| Transparency.StaleInterruptReturns | sim_core.c:200-205 | the same condition, carried through any handler run and its `rfi` |
| Transparency.ScheduleIndependent | sim_core.c:129-142 | a user program without `sc` reaches the same pc, registers and memory under every interrupt schedule as with silent lines |
| Atomicity.FlagIsHistory | sim_core.c:475-525 | in a run that does not write q10 the link flag is set exactly when a linking load is the last of the events that make or break a link |
| Atomicity.StoreConditional | sim_core.c:506-525 | an `sc` after an `ll` and any run stores and yields 1 if and only if nothing broke the link; memory is then what it was at the `ll`; otherwise it stores nothing and yields 0 |
| SleepWake.SleepsForever | sim_core.c:169-179 | without GIE and an enable below bit 8 no run of lines wakes the core |
| SleepWake.WakesInOne | sim_core.c:129-142 | an asserted enabled source wakes the core in one cycle, the lowest-numbered one first, to return behind the `sleep` |
| SleepWake.WakeableIff | sim_core.c:169-179 | some run of lines wakes a sleeping core if and only if GIE and an enable below bit 8 are set |
| SleepWake.ReportedSleepIsFinal | sim_core.c:816-830 | after the verdict -1 no run changes pc, registers, status, counter or memory |
| SleepWake.UnreportedSleep | sim_core.c:816-830 | a sleep without end goes unreported if and only if the only enables are above bit 7 |
| Timer.Tick | sim_cp_timer.c:26-50 | a tick takes one off the time left; the last one raises the line and switches off |
| Timer.FiresExactlyOnce | sim_cp_timer.c:26-50 | armed with (hi, lo) the line rises with tick hi * 65536 + lo, or 65536 for lo = 0, and the timer stays off |
| Timer.TimerUnit.Data | sim_cp_timer.c:26-50 | the register code does that tick |
| Timer.TimerUnit.Exec | sim_cp_timer.c:52-65 | the acknowledge lowers the line |
| Timer.SleepsUntil | sim_core.c:169-179 | core and timer together: the core sleeps on up to the programmed tick, and the line rises with it |
| Timer.TimerWakesCore | sim.c:324-374 | one cycle later it starts at exihdl 0 with the address behind the `sleep` saved, registers and memory unchanged |
| Nvram.NvramUnit.Exec | sim_cp_nvram.c:174-241 | a command against the registers: accepted, refused with an error, or ignored while one is pending; a delay runs exactly when a request is pending |
| Nvram.NvramUnit.Data | sim_cp_nvram.c:112-172 | a data step counts down or lets the request take effect |
| Nvram.NvramUnit.Reset | sim_cp_nvram.c:102-110 | reset drops the pending request and nothing else |
| Nvram.PendingIsUndisturbed | sim_cp_nvram.c:174-241 | while a request is pending no command or register write moves it or reaches the array |
| Nvram.AcceptedTakesEffect | sim_cp_nvram.c:112-172 | an accepted request takes effect with the third data step, not before, and once |
| Nvram.MeetsItsCellIff | sim_cp_nvram.c:174-241 | a request meets the cell it names if and only if the address has 16 digits and is below the length in words |
| Nvram.WritesConserved | sim_cp_nvram.c:112-172 | over every run the accepted writes are the completed ones, in order, plus at most one under way |
| Nvram.ArrayIsItsWrites | sim_cp_nvram.c:112-172 | the array is its completed writes applied to its first contents |
| Nvram.ReadReturnsLastWrite | sim_cp_nvram.c:112-172 | a read returns the last write completed to its address |
| CpBus.Header.Reset | sim_cp_if.c:62-69 | all registers become zero |
| CpBus.Serve | sim.c:355-369 | the addressed coprocessor answers a read and takes a write (sim_cp_if.c:71-91); a command to an absent one is dropped |
| CpBus.PutThenGet | sim_cp_if.c:71-91 | through the core: `mtcp`, any run that does not write that register again, `mfcp` brings the value back |
| Devices.TimerWords | sim_cp_timer.c:26-65 | `mtcp` and `cpop` to coprocessor 0 by the digits of the word: registers 0, 1 and 2, and operation 1, which lowers the line |
| Devices.TimerFires | sim_cp_timer.c:26-50 | switched on by digit 0 of register 0 the line rises at 65536 * register 2 + register 1, or 65536 for a zero there, and not before |
| Devices.WriteTakesEffect | sim_cp_nvram.c:151-164 | command 2, registers 2, 3, 4 and status 0, 5, 6 by number: the cell is written with the third tick, and the line rises if and only if digit 1 of register 0 is set |
| Devices.ReadTakesEffect | sim_cp_nvram.c:135-149 | likewise command 1, status 2 and 3, and digit 0 |
| Devices.NvramCommands | sim_cp_nvram.c:174-241 | every other command number, refusals included |
| Devices.WrittenReadsBack | sim_cp_nvram.c:112-241 | what command 2 wrote, command 1 reads back after any run in which no write reaches the same cell |
| Dlist.List.IsEmpty | dlist.h:133-136 | true exactly when there is no member |
| Dlist.List.First | dlist.h:109-112 | the first member, and the header itself when there is none |
| Dlist.List.Last | dlist.h:115-118 | the last member, and the header itself when there is none |
| Dlist.InsertNext | dlist.h:71-78 | behind any node of the ring: the ring is the old one with the node there, well linked both ways and owned |
| Dlist.InsertPrev | dlist.h:81-88 | before any node, likewise |
| Dlist.Unlink | dlist.h:91-98 | the pointer writes, for any node with neighbours, the header included |
| Dlist.Remove | dlist.h:91-98 | of any member: the ring is the old one without it, and it points nowhere |
| Dlist.List.InsertFirst | dlist.h:121-124 | at the front |
| Dlist.List.InsertLast | dlist.h:127-130 | at the back |
| Dlist.SpliceLinked | dlist.h:71-88 | four pointer writes around a new node keep next and prev inverse on the whole ring |
| Dlist.CutLinked | dlist.h:91-98 | two pointer writes around a removed node do |
| Mbox.Mailbox.Post | mbox.c:29-41 | appends to the queue, and signals exactly when somebody waits |
| Mbox.Mailbox.Get | mbox.c:43-55 | takes the oldest message, and the length stays that of the queue; on an empty box it takes the header out of the ring and wraps the length, so it returns a message if and only if there is one |
| Mbox.Mailbox.BeginWait | mbox.c:63-68 | takes the oldest message, or counts the caller as waiting |
| Mbox.Mailbox.Resume | mbox.c:63-68 | a waiter that holds the lock again does the same anew |
| Mbox.Mailbox.EndTimedWait | mbox.c:69-85 | a timed wait that ends with 0 takes the oldest message without looking at the length, and from an empty box the header; otherwise nothing |
| Mbox.Mailbox.Len | mbox.c:91-94 | the length of the queue |
| Mbox.SoundStep | mbox.c:29-89 | each of post, get, wait, resume and spurious wake-up keeps the monitor invariant |
| Mbox.NoLostWakeUp | mbox.c:63-85 | in every interleaving, while a consumer is blocked at least as many woken ones are on their way as messages are queued; what was posted is delivered or queued, in order |
| Uart.BoundedStep | sim_cp_uart.c:79-91 | no step between a length check and its post can fill the box, and none takes from an empty one |
| Uart.UartSafety | sim_cp_uart.c:99-120 | in every interleaving of receive thread, transmit thread and processor both queues hold at most 16; a timed wait that returned 0 would find a byte if and only if it has been signalled; accepted SEND bytes are those written out, then those in flight, in order; RECV yields bytes read, in order, each once; what RECV leaves for the program is in `Devices.ReceivedIsRead` |
| Devices.SendCommand | sim_cp_uart.c:273-280 | command 1 queues the low byte of the value register if fewer than 16 wait, and wakes a blocked transmit thread |
| Devices.ReceiveCommand | sim_cp_uart.c:282-290 | command 2 takes the oldest byte: the value register as a signed 16-bit number is the byte as a signed 8-bit number |
| Devices.CountCommands | sim_cp_uart.c:292-330 | commands 3 and 4 give the two lengths exactly, 8 and 9 switch the queues on and off, and numbers above the commands do nothing |
| Devices.ReceivedIsRead | sim_cp_uart.c:282-290 | whatever the threads do between RECV's check, its get and the next command or bus write, the value register is the byte that was first in the box, as a signed number, and that byte is the last received |
| Devices.SentIsWritten | sim_cp_uart.c:273-280 | SEND behind a bus write accepts the low byte of the word written, whatever the threads did between |
| Devices.CountsAreExact | sim_cp_uart.c:292-302 | in every run the counts are below 17, not wrapped, and the first is the bytes accepted less those taken for writing |
| Devices.ArrivalQueued | sim_cp_uart.c:79-91 | a byte from the line is queued if and only if fewer than 16 wait, or none with the queues off |
| UartBoxes.ReceivePost | sim_cp_uart.c:85-91 | on the mailbox itself, the post is the step of the interleaving |
| UartBoxes.ReceiveMeasure | sim_cp_uart.c:79-81 | the length looked up is that of the step |
| UartBoxes.Receive | sim_cp_uart.c:282-284 | the processor's length check for RECV, likewise |
| UartBoxes.ReceiveGet | sim_cp_uart.c:284-288 | the get of RECV, likewise: the byte it returns is the byte received |
| UartBoxes.Send | sim_cp_uart.c:273-276 | the length check of SEND, likewise |
| UartBoxes.SendPost | sim_cp_uart.c:276-278 | the post of SEND, likewise: it signals if and only if the transmit thread is blocked |
| UartBoxes.TransmitAsk | sim_cp_uart.c:107-109 | the start of the timed wait, likewise |
| UartBoxes.TransmitWake | mbox.c:76-85 | its end after a signal, likewise: the byte taken is the byte to send |
| UartBoxes.TransmitTimeout | mbox.c:76-85 | its end without one, likewise |
| UartBoxes.Apart | dlist.h:71-98 | two mailboxes have no node in common, so a step on one leaves the other alone |
| Uart.SeenIsArrivedIff | sim_cp_uart.c:66-77 | the bytes the receive thread uses are those the line delivered if and only if no read was interrupted |
| Uart.InterruptedReadDuplicates | sim_cp_uart.c:66-77 | an interrupted read is enough for one byte that arrived to be received twice |
| UartLine.UartUnit.Data | sim_cp_uart.c:222-260 | status bits show data and space; each source raises the line once while its latch is clear |
| UartLine.UartUnit.Exec | sim_cp_uart.c:304-337 | the two resets and the acknowledge |
| UartLine.LineUpIff | sim_cp_uart.c:222-260 | over every run the line is up if and only if some step found a source, its enable digit and a clear latch, or it was up before, and nobody has acknowledged since |
| Devices.UartLineCommands | sim_cp_uart.c:304-337 | commands 5 and 6 let the source raise the line again, 10 alone lowers it |
| UartLine.OneRaisePerReset | sim_cp_uart.c:222-260 | received data and free space each raise the line at most once between two of their resets |
| InstrTable.OnlyName | instr_table.c:11-56 | no two names of the table are equal when case is ignored |
| InstrTable.FindsOwn | instructions.c:40-45 | a name is found at its own entry |
| InstrTable.FindsLike | instructions.c:40-45 | however its letters are spelled |
| Mnemonics.AnyCase | instructions.c:40-45 | a text passes for a name exactly when it is that name letter by letter, small or large |
| InstrTable.RegularAll | instr_table.c:11-56 | opcode, subcode, format and syntax of every entry follow from its place; formats and syntaxes correspond one to one |
| Mnemonics.Logic | instr_table.c:12-15 | an accepted line named `or`, `nand`, `and` or `xor`, in any case, assembled, loaded and executed, leaves that gate of two registers in the third |
| Mnemonics.Sums | instr_table.c:16-19 | likewise `add`, `sub`, `addc`, `subc` |
| Mnemonics.Shifts | instr_table.c:20-23 | likewise `shl`, `shr`, `shra`, `rot` |
| Mnemonics.ShiftsBy | instr_table.c:24-27 | likewise `shli`, `shri`, `shrai`, `roti` with a number |
| Mnemonics.Loading | instr_table.c:28-31 | likewise `li`, `shlli`, `inci`, `deci` |
| Mnemonics.LowLogic | instr_table.c:32-34 | likewise `ori`, `andi`, `xori` |
| Mnemonics.HighLogic | instr_table.c:35-37 | likewise `orih`, `andih`, `xorih` |
| Mnemonics.Going | instr_table.c:39-40 | likewise `ba` and `bal` with any operand |
| Mnemonics.GoingBy | instr_table.c:41-44 | likewise `bz`, `bnz`, `jr`, `jlr` |
| Mnemonics.Fetching | instr_table.c:45-46 | likewise `ll` and `ldw`: rD becomes mem[(rB + n) mod 2^16], and memory is unchanged |
| Mnemonics.Storing | instr_table.c:47-48 | likewise `stw` and `sc`: that one word of memory becomes rD, or for `sc` without a link none does |
| Mnemonics.Coprocessing | instr_table.c:49-50 | likewise `mfcp` and `mtcp`, with what the bus carries |
| Mnemonics.Commanding | instr_table.c:51-51 | likewise `cpop` |
| Mnemonics.Controlling | instr_table.c:54-55 | likewise `mfctl` and `mtctl` in supervisor mode |
| Mnemonics.Trapping | instr_table.c:52-52 | likewise `int` |
| Mnemonics.Returning | instr_table.c:53-53 | likewise `rfi` and `sleep` in supervisor mode |
| Mnemonics.Refusing | sim_core.c:620-625 | likewise `sleep`, `rfi`, `mfctl`, `mtctl` in user mode, which go to the address in q15 |
| Text.ReadsBack | dasm.c:72-105 | a printed decimal number is read back, in base 10 and in base 0 |
| Numbers.WrittenReads | asm.c:409-432 | a number of any size and sign, decimal, octal behind 0, hexadecimal behind 0x or 0X in either letter case, zeros in front or not, is read in base 0 as itself up to the first character that is no digit, or as the nearest 64-bit number |
| Numbers.DecimalReads | asm.c:355-400 | the same in base 10, where leading zeros mean nothing |
| Numbers.OperandReads | asm.c:409-432 | an operand keeps the low 32 digits, read as a signed number |
| Numbers.BarePrefix | asm.c:409-432 | a 0x without a digit is a zero |
| Numbers.NoNumber | asm.c:409-432 | text without a digit is a zero |
| Numbers.PrintedIsNumeral | dasm.c:72-105 | %u prints the decimal digits without leading zeros |
| Numbers.NumbersTaken | asm.c:402-446 | which numbers behind # each of the six numeric fields takes, in every writing: if and only if in the range given, and with that value |
| Numbers.RegistersTaken | asm.c:355-400 | likewise behind r, c, q and x |
| Numbers.DataTaken | asm.c:311-334 | a `.data` line gives the low 16 digits of the number written |
| Numbers.OrgMovesTo | asm.c:336-346 | the line behind an accepted `.org` is at the number written, in every base |
| Encoder.Layouts | instructions.c:53-61 | the format strings parse to their fields and widths |
| Encoder.AppendBits | instructions.c:60-64 | shift and masked or of a field of either sign, in 16 bits, is multiplication and addition |
| Encoder.NmemonicSyntax | instructions.c:16-28 | the operand syntax of a name, or -1 |
| Encoder.ResolveNmemonic | instructions.c:75-91 | the name for an opcode and subcode, found by the two searches |
| Encoder.AssembleInstruction | instructions.c:30-73 | the loop over the format packs the operands of the entry found; an unknown name gives -1 |
| Encoder.EncodeIsJoin | instructions.c:53-71 | the packed word has every field at its place, each modulo its width |
| Codec.DecodeAssembled | instructions.c:30-73 | decoding an assembled instruction gives back opcode, subcode and operands, for operands of any size cut to their fields |
| Codec.AssembleDecoded | instructions.c:109-232 | assembling what any word decodes to gives the word with its blank digits zeroed |
| Codec.FieldsDecide | sim_core.c:213-626 | what the machine executes depends on the decoded fields alone |
| Codec.BlanksMeanNothing | instructions.c:109-232 | a word and its canonical form execute alike, and the canonical form is stable |
| Codec.AssembledIsCanonical | instructions.c:30-73 | every assembled word is canonical, for operands of any size |
| Printer.KindsAll | dasm.c:70-117 | the syntax strings parse to their operands |
| Printer.PrintOperands | dasm.c:69-117 | the loop prints every operand of the syntax, separated by commas |
| Printer.Disassemble | dasm.c:53-122 | every word prints without error as the name of its entry and its operands |
| Printed.PrintedText | dasm.c:69-117 | the operands printed, by the digits of the word |
| Printed.PrintedLine | dasm.c:53-122 | the whole line: the name that goes with the number of the word, and those operands |
| Tokens.NextSym | asm.c:134-158 | the first run of symbol characters, and where it ends; -1 if there is none |
| Tokens.SplitLine | asm.c:160-198 | comment, label, operation and up to three arguments |
| Reader.ReadLine | asm.c:94-120 | a line up to its sentinel; one that fills the buffer takes all the rest of the input with it |
| Reader.LinesBackIff | asm.c:94-120 | a text of lines is read back as those lines if and only if none is longer than 255 characters |
| Reader.LastLine | asm.c:94-120 | the last line need not be ended |
| Reader.LongLineEndsAll | asm.c:94-120 | a line of more than 255 characters is cut there and all behind it is lost |
| Tokens.Tokenize | asm.c:488-524 | the statements of the lines read, in order, without the empty ones |
| Tokens.SplitWritten | asm.c:160-198 | a line written as an operation and arguments, with blanks or a comment behind, splits into just those |
| SourceLines.PlainLine | asm.c:160-198 | a line of an operation and arguments with any gaps and a comment, character by character: the operation and the first three arguments |
| SourceLines.LabelledLine | asm.c:160-198 | the same behind a label and its colon, with the label |
| SourceLines.BareLine | asm.c:160-198 | a label alone, and an empty line |
| Labels.GenerateLabels | asm.c:200-238 | the first pass records each label but those on .org lines with its offset |
| Labels.FindOffset | asm.c:241-278 | the first declaration's offset, its high or low byte behind a dot, -1 for an unknown name |
| Labels.FindReloff | asm.c:280-288 | the current offset plus the result is the label's offset; 65537, which no branch can hold, for an unknown label |
| Undeclared.UnknownAcceptedIff | asm.c:402-446 | when a numeric operand that names an undeclared label is accepted, for every suffix: as @L, unless it is a low byte in less than eight digits; as %L only for a low byte whose 255, less the current offset, fits; and with which value |
| Undeclared.UnknownPlainIff | asm.c:402-446 | without a dot it is accepted if and only if it stands as @L where an unsigned number may, with the value -1; as %L it is refused at every offset |
| Undeclared.UnknownData | asm.c:316-334 | a .data line takes every @L: 0xFFFF for an undeclared one, 0x00FF for its low byte |
| Undeclared.UnknownBranchRefused | asm.c:290-486 | a file with `ba`, `bal`, `bz` or `bnz` to an undeclared label is refused, wherever the line stands |
| Assembler.ReadOperand | asm.c:355-462 | one operand against its syntax letter: its value, or a report when letter, sigil or range is wrong |
| Assembler.ParseOperands | asm.c:350-466 | all operands in order, one failing makes the line fail; array places without an operand keep what they held |
| Assembler.Unused | asm.c:468-472 | and what they hold makes no difference to the word |
| Assembler.GenerateOpcodes | asm.c:290-486 | the second pass writes exactly the image of the statements and returns its length, or -1 |
| TwoPasses.AdvanceAgrees | asm.c:307-483 | one line moves both passes alike, never shortens the image and touches nothing above it |
| TwoPasses.LabelsAgree | asm.c:200-238 | in an accepted file each recorded label has the offset of the second pass on reaching its line; the first declaration counts |
| TwoPasses.TwoPassAgreement | asm.c:576-592 | the same for the whole assembler, and the offset is below 65536 |
| TwoPasses.WordInImage | asm.c:468-485 | every word that no later line overwrites stands in the image at its line's offset, which the returned length covers |
| TwoPasses.ImageOfFile | asm.c:576-608 | the same for the whole assembler, and the buffer is untouched from the length on |
| TwoPasses.UnwrittenIsKept | asm.c:468-485 | a word that no line puts anywhere is as it was in the buffer, below the length too |
| TwoPasses.AddressSteps | asm.c:307-483 | the first line is at 0, an operation takes one word, a label alone none |
| TwoPasses.Assemble | asm.c:557-595 | tokenizer and both passes in sequence |
| RoundTrip.WordAssembles | asm.c:348-472 | the text of any word, at any offset and with any labels, assembles to its canonical form |
| RoundTrip.LineSplits | dasm.c:65-117 | the printed line splits into its name and operands whatever comment follows |
| RoundTrip.TextRoundTrip | dasm.c:53-122 | for every sequence of words: disassemble, put any comments behind, assemble; the image is the canonical words. It is refused if and only if there are 65536 words or more |
| RoundTrip.FileRoundTrip | asm.c:496-523 | the output as one text is read back line by line if and only if each line, comment and all, has at most 255 characters; it then assembles to the canonical words |
| RoundTrip.CanonicalIsStable | instructions.c:30-73 | a second round trip changes nothing more |
| RoundTrip.AcceptedPrintsBack | dasm.c:53-122 | from text to words and back: an accepted instruction line, printed from its word, is accepted at any offset and gives the same word |
| RoundTrip.DisassemblerTrailers | dasm.c:166-180 | what the disassembler puts behind a line, with and without comments, is such a comment |
| RoundTrip.LineFits | dasm.c:130-132 | no line comes near the 256 characters of either program's buffer |
| RoundTrip.WrittenLine | asm.c:94-120 | a printed line with a trailer of up to 222 characters is a line that fits the assembler's buffer |
| Landing.BranchDecodes | asm.c:402-424 | an accepted `ba %L` or `bal %L` is a branch by the distance to L |
| Landing.BranchIfDecodes | asm.c:402-424 | likewise `bz rN, %L` and `bnz rN, %L` |
| Landing.BranchLands | sim_core.c:423-438 | assembled, loaded and executed, `ba %L` and `bal %L` arrive at the address of L's line, and `bal` leaves the return address in r7 |
| Landing.BranchIfLands | sim_core.c:439-458 | `bz` and `bnz` arrive there exactly when taken, else behind themselves |
| Landing.AddressLoads | sim_core.c:327-341 | `li r, @L.hi` and then `shlli r, @L.lo` leave exactly the address of L's line in r |
| Landing.AddressStored | asm.c:316-334 | `.data @L` leaves the address of L's line in memory |
| Examples.StaleInterruptHappens | sim_core.c:200-205 | a concrete machine on which an interrupt after `mtctl r0, q10` saves the wrong mode |
| Examples.StaleReturnModeHappens | sim_core.c:200-205 | a concrete supervisor that writes 0x6000 to q10 to leave for user mode: interrupted before its `rfi`, it stays in supervisor mode |
| Examples.ThirdTrapHappens | sim_core.c:806-815 | a concrete program whose third nested trap makes the last `rfi` miss its frame |
| Examples.UnreportedSleepHappens | sim_core.c:816-830 | a concrete machine whose `sleep` never ends under any lines and returns 0 |
| Examples.WrongCellHappens | sim_cp_nvram.c:174-241 | a concrete read at address 0x10000 that is accepted and returns cell 0 |
| Examples.OutsideHappens | sim_memif.c:57 | `ba #-1` at address 0 goes to 0xFFFF, and what follows depends on the word that the array does not have |
| Examples.UndeclaredLabelHappens | asm.c:241-278 | the one-line file `li r0, @nowhere` is accepted and loads 255 |
| Examples.LongLineHappens | asm.c:94-120 | a comment of 300 characters takes the instruction line behind it out of the program |

## Left out

- Fault paths: instruction and data faults, their handlers and `ll_inval`; proved unreachable instead.
- Core.Core.Update: is for cycles without a fault signal, and every cycle of `Sim.Cycle` is one.
- Simulator.MemIf.Access: an access to a word beyond the array is undefined in C and excluded.
- Simulator.Sim.constructor: gives the program's array the one word more that its addresses can reach.
- Cycle-level coprocessors all at once: timer, NVRAM and UART are each put beside a free environment, not into one system.
- NVRAM on the core's bus: its commands, register writes and data steps form its own runs.
- Uart.UartSafety: has no step for the command `CLEAR`, which drains the outgoing box by the length of the incoming one, for reset, which drains each box, or for a timed wait that returns 0 without a signal.
- UART poll and line errors, end of file, thread start and stop; pthread internals, replaced by an atomic lock and nondeterministic wake-ups.
- Message allocation and freeing; a message is its node with the character in it.
- dlnode_next, dlnode_prev, dlnode_owner, dlnode_is_terminal: field reads.
- Assembler.GenerateOpcodes: a word below the buffer (a negative `.org`), a missing argument and an unknown name are undefined or crash in C before they are reported; here there is no image. An unknown name is refused without matching its operands against the syntax of the line before.
- Labels.GenerateLabels: a `.org` without an argument stops C in this pass; here the second pass refuses it.
- Tokens.Tokenize: the input is a text; reading it from a descriptor is not part of this model.
- Text: strtol without leading blanks, which no token has, and printf for %u and %d only.
- Printer.Disassemble: the data mode (`-d`) prints lines that the assembler does not take.
- Labels of more than 255 characters, which no line can hold.
- Command lines, the interactive interpreter beyond `goto` and `step`, printing and tracing, file loading and image writing.
- sim_physmem.c, sim_utils.c, fifostdio.c, sim_core_test.c and old/: plumbing, or out of step with the headers.
