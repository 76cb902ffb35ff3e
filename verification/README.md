# Verification of the RV32IM core and its SoC

A Dafny model of the repository's hardware and host tools, with machine-checked proofs. `dafny verify dfyconfig.toml`
checks all of it.

**Cores.** `Isa`, `Golden` and `Pipeline` model the single-cycle reference core and the five-stage pipelined core over
an arbitrary lawful datapath; `Rv32` is the datapath in the RTL, and `Conformance`, `Encoding` and `ByteLanes` prove it
lawful and right by the RISC-V Unprivileged ISA 20191213. `Refinement` and `Traces` prove that what the pipelined core
executes, stores and commits is a prefix of what the reference core does, for every program, halt schedule and memory
latency. `IsaMeaning` states on numbers what each instruction does, `IsaSteps`, on the integers of `WordInts`, proves
each step of the reference core to be that, and `CsrEdge` states trap entry, interrupt and return bit by bit for every
clock. `Progress` bounds stalls and cycles per instruction. `TrapOrder` isolates the one place where the cores part,
`Overtaking` shows that every program which allows it has a schedule that reaches it, `Harmless` proves the exact
condition on a program under which the cores agree on every schedule, and `OvertakingExample` has a two-instruction
program that violates it. `Cores` has both cores as clocked objects, whose block methods only tie that form to the
functions the refinement is about.

**SoC.** `Soc` proves that block RAM with registered addresses and address-change valid tracking meets the handshake
contract, composes the two, and bounds the clocks per instruction; `SocTraps` says which halts bring the trap ordering
problem onto the board and how far the condition on the program is necessary there; `SocDebug` adds the debug UART as
the source of halt and of the loaded program, `LoadedProgram` takes a program from the host's wire to its execution;
`Board` has the RAM and the top level as clocked objects and instantiates the result.

**Serial link and debugger.** `Uart` has the two UART state machines, `SerialLink` proves the looped-back link a pure
delay and the baud tolerance exact. `DebugUart` has the command state machine and its safety, `DebugUnit` joins it to
the transmitter and proves recovery, `DebugCommands` proves what each command does and sends back, `DebugHost` is the
Python client on top, `DebugLink` and `DebugSession` carry whole sessions of a host that blocks on its replies from wire
to wire, and `HostSchedule` shows that such sessions exist.

**The rest.** `Framebuffer` proves the double-buffered display tear-free, `Bootloader` the upload protocol from both
ends, `Mif` the memory-image printer and parser, `Fuzz` the fuzz-program generator, `Convergence` that the differential
test stops exactly at a program's final loop, `FuzzProgram` that this is so for whatever the generator writes, and
`FuzzAssembler` that what it writes can be assembled. `Options` is the option type they share.

Three pieces of the model stand for what the program is connected to: the datapath laws (`Isa.Lawful`, discharged by
`Conformance.CoreLawful`), the memory handshake (`Refinement.Contract`, discharged by `Soc.SocContract`), and a byte
source with pauses for the bootloader.

## Where code and documentation differ

The model follows the code in each case.

- `src/peripherals/debug_uart.sv:280-309`: memory commands are documented as ignored while the core runs. Only their
  first byte is; the argument bytes are then read as commands (`DebugCommands.IgnoredWhileRunning`,
  `DebugCommands.RunningWriteCanHalt`).
- `fpga/dp_ram_model.sv:58-62`: the comment says a read returns old data during a write; with the registered address the
  output is the memory after the write.
- `fpga/riscv_top.sv:175`: the RAM is said to lie at 0x0 to 0x3FFF; its decoder selects it up to 0xFFFF, where its words
  repeat (`Board.RamIs`).
- `src/peripherals/vga_framebuffer.sv:136-140`: `frame_start` is described as a pulse once per frame; it lasts CLK_DIV
  clocks, during which a second swap request can be carried out or dropped (`Framebuffer.SwapRecorded`).
- `src/peripherals/vga_framebuffer.sv:43-47`: control and status reads are documented as one clock; the registered
  decode makes every read take two.
- `src/riscv_core/riscv_core.sv:866-886`: a trap entry in EX is said to win only over a CSR instruction retiring in the
  same clock; it also overtakes one that is still in MEM, which then overwrites it (`TrapOrder.ClobberOutcome`,
  `Harmless.AgreesOnAllSchedules`, `OvertakingExample.ExampleDiverges`).

## Model

| member | source | states |
|---|---|---|
| Traces.PipelineRefinesGolden | src/riscv_core/riscv_core.sv:254-362 | For every program whose CSR instructions on mstatus come with no trap or return anywhere in its run and whose mip register has bit 7 clear when read, and every halt and memory-latency schedule that asserts vld only over right data and never has a trap in EX right behind a CSR instruction on mepc or mcause in MEM: executed pcs with trap causes, stores, and register and CSR commits are prefixes of the single-cycle core's, in order, each exactly once, and the register file is the reference one after the committed instructions |
| Traces.RunRefines | src/riscv_core/riscv_core.sv:545-816 | Every reachable state of such a run lines up with the reference run: the instruction in each stage is the next golden one after the stage behind it |
| Traces.RefinesKept | src/riscv_core/riscv_core.sv:297-362 | One clock, in any combination of halt, mem_wait, flush and stall, keeps that line-up and extends the three traces by exactly what the reference core does |
| Traces.ExecsAgree | src/riscv_core/riscv_core.sv:866-895 | What leaves EX has the reference pc, and a trap records the reference cause |
| Traces.StoresAgree | src/riscv_core/riscv_core.sv:768-776 | What MEM presents to memory is the reference store: address, shifted data and byte mask |
| Traces.CommitsAgree | src/riscv_core/riscv_core.sv:836-907 | What WB writes to the register and CSR files is what the reference instruction writes |
| Refinement.InvKept | src/riscv_core/riscv_core.sv:297-907 | The whole pipeline invariant survives one clock of the core and its memory |
| Refinement.StagesKept | src/riscv_core/riscv_core.sv:684-816 | Each occupied stage register holds the fields of its golden instruction after the clock, so no squashed or duplicated instruction moves on |
| Refinement.FrontKept | src/riscv_core/riscv_core.sv:297-362 | Unless EX is about to redirect, IF and ID are on the golden path, and no resolved redirect is dropped by a same-cycle wait or stall |
| Refinement.RegStable | src/riscv_core/riscv_core.sv:260-272 | A source register with no pending writer in EX, MEM or WB already has its architectural value after all older instructions |
| Refinement.IssueFresh | src/riscv_core/riscv_core.sv:519-605 | An instruction leaving ID has captured the operands the reference core uses |
| Refinement.PrivCsrsFresh | src/riscv_core/riscv_core.sv:254-259 | With ECALL/EBREAK or MRET in EX, mtvec respectively mepc has the value the reference core reads: no older CSR write to it is in flight |
| Refinement.FlushTarget | src/riscv_core/riscv_core.sv:326-332 | next_pc of a flush is the reference successor of the instruction in EX |
| Refinement.IssuePath | src/riscv_core/riscv_core.sv:326-332 | If the instruction entering EX will not redirect, IF is fetching its golden successor |
| Refinement.RegsCommit | src/riscv_core/riscv_core.sv:897-907 | WB leaves the register file as the reference instruction does |
| Refinement.CsrsCommit | src/riscv_core/riscv_core.sv:836-865 | WB leaves the CSR file as the reference instruction does |
| Refinement.TrapRecorded | src/riscv_core/riscv_core.sv:879-886 | A trap leaving EX records the reference mepc and mcause |
| Refinement.CsrsKept | src/riscv_core/riscv_core.sv:852-895 | mepc and mcause follow the youngest trap that has left EX, the other compared CSRs the oldest uncommitted instruction |
| Refinement.PrivKept | src/riscv_core/riscv_core.sv:254-272 | The privileged-CSR hazard keeps every CSR write that a trap or MRET depends on out of the stages before it |
| Refinement.StoreIsStep | src/riscv_core/riscv_core.sv:768-776 | The store in MEM changes memory as its golden instruction does |
| Refinement.MemoryKept | src/riscv_core/riscv_core.sv:768-776 | A store held in MEM through waits and halts, possibly written several times, leaves the golden memory |
| Progress.RetiresLinearly | src/riscv_core/riscv_core.sv:260-289 | From any reachable state n instructions retire within 4n + 4 clocks in which the core runs and no memory keeps it waiting |
| Progress.DistanceStep | src/riscv_core/riscv_core.sv:297-319 | Every such clock brings the next commit one closer, and no other clock pushes it back |
| Progress.StallsAtMostThree | src/riscv_core/riscv_core.sv:260-272 | A register or privileged-CSR hazard holds one instruction in ID for at most three clocks in which mem_wait and halt are low |
| Progress.StallStep | src/riscv_core/riscv_core.sv:581-593 | While a hazard holds, the same instruction stays in ID and the youngest producer moves one stage |
| Progress.RedirectCostsTwo | src/riscv_core/riscv_core.sv:301-319 | A taken redirect leaves EX empty for exactly two slots before its target enters it |
| Progress.BubblesKept | src/riscv_core/riscv_core.sv:346-350 | An empty ID or EX slot holds no instruction |
| TrapOrder.SeparatedProgramsRefine | src/riscv_core/riscv_core.sv:836-895 | On every schedule the refinement needs of such a program only that a trap directly after a CSR instruction on mepc or mcause is one that a register hazard holds back |
| Overtaking.CleanOnAllSchedules | src/riscv_core/riscv_core.sv:866-886 | The refinement's side condition holds on every schedule that keeps the memory contract iff the program keeps its traps apart in that sense |
| Overtaking.ReachClobber | src/riscv_core/riscv_core.sv:866-886 | For every program and every instruction k of its run that is a CSR instruction on mepc or mcause with an undelayed trap behind it, a run from reset under the memory contract, free of the problem up to then, has the CSR instruction in MEM and the trap in EX |
| Overtaking.ParkAt | src/riscv_core/riscv_core.sv:297-362 | Memory latency alone can bring any golden instruction to wait in ID with all older ones committed and every stage ahead of it empty |
| Harmless.AgreesOnAllSchedules | src/riscv_core/riscv_core.sv:836-895 | The pipelined core agrees with the reference core on every schedule - traces, registers, CSRs, and memory once drained - iff, wherever the program puts an undelayed trap right behind a CSR instruction on mepc or mcause, the trap's value equals the one the instruction should read if it writes a register, and both the old value and the trap's lead it to write the trap's value |
| Harmless.HarmlessAgrees | src/riscv_core/riscv_core.sv:836-895 | Sufficiency, through the clocks in which the CSR file already shows a trap that is still behind a CSR instruction |
| Harmless.HarmlessRunAgrees | src/riscv_core/riscv_core.sv:836-895 | The same for one run: it agrees if no overtaking in it does harm |
| Harmless.OvertakingEnds | src/riscv_core/riscv_core.sv:836-895 | After three running clocks in which nothing else is issued, exactly which commit, registers and CSRs an overtaking leaves |
| Harmless.EndsShow | src/riscv_core/riscv_core.sv:836-895 | If it does harm, agreement has failed by then |
| Harmless.HarmShows | src/riscv_core/riscv_core.sv:866-886 | Necessity: any other program has a run whose commits or drained CSRs differ from the reference core's |
| Harmless.MidLeft | src/riscv_core/riscv_core.sv:852-907 | After a harmless overtaking one running clock restores the whole pipeline invariant |
| OvertakingExample.ExampleDiverges | src/riscv_core/riscv_core.sv:866-886 | On the RTL's datapath, csrrw x5, mepc, x1 followed by ecall, from any register and CSR values with mtvec 8: a run from reset ends with x5 = 4 where the reference core has the old mepc, and mepc = x1 where it has 4 |
| OvertakingExample.ExampleEnds | src/riscv_core/riscv_core.sv:866-886 | The same program wherever an overtaking comes about in its run |
| OvertakingExample.ExampleOnBoard | fpga/riscv_top.sv:194-225 | The same program on the board's RAM: a halt in every second clock until the ecall overtakes, then three running clocks, keep the debug protocol and end with x5 = 4 and mepc = x1 |
| TrapOrder.ClobberOutcome | src/riscv_core/riscv_core.sv:866-886 | Where one does, exactly when it matters: the older instruction's destination is right iff it has none or the trap's value equals the old one, and the CSR is right iff rewriting the trap's value leaves it unchanged |
| TrapOrder.OvertakenCommit | src/riscv_core/riscv_core.sv:836-865 | What a CSR instruction commits once a younger trap has written its CSR |
| TrapOrder.StatusAgrees | src/riscv_core/riscv_core.sv:884-894 | Over any clock whose WB does not write mstatus: after a trap the pipelined core has the mstatus that the reference core keeps iff MIE and MPIE are clear, after an MRET iff both are set |
| TrapOrder.PendingAgrees | src/riscv_core/riscv_core.sv:833-834 | The two cores agree on reading mip, with the timer quiet, iff bit 7 of the register is clear |
| CsrEdge.EntryEdge | src/riscv_core/riscv_core.sv:870-890 | One clock with ECALL, EBREAK or an enabled timer interrupt in EX: bit 7 of the new mstatus is bit 3 of the old, bit 3 is 0, mepc is the pc in EX, mcause is 11, 3 or 0x80000007, and every other bit and register is what the WB write leaves |
| CsrEdge.ReturnEdge | src/riscv_core/riscv_core.sv:891-894 | One clock with MRET in EX: bit 3 of the new mstatus is bit 7 of the old, bit 7 is 1, and every other bit and register is what the WB write leaves |
| CsrEdge.OtherEdge | src/riscv_core/riscv_core.sv:852-895 | In every other clock, halted and waiting ones included, only the WB write changes the CSR file, and while halted nothing does |
| CsrEdge.WbWrite | src/riscv_core/riscv_core.sv:836-865 | The WB write puts the new value of a valid CSR instruction into its register and into no other |
| CsrEdge.PendingBit | src/riscv_core/riscv_core.sv:833-834 | A CSR instruction reads mip with the timer line as bit 7 and its other bits, and every other register, as stored |
| CsrEdge.ReadToRegister | src/riscv_core/riscv_core.sv:897-907 | A CSR instruction leaving WB puts what it read, of mip with the live timer line, into rd and leaves the other registers |
| CsrEdge.CsrFileLaws | src/riscv_core/riscv_core.sv:836-865 | The eight CSRs do not share storage: a read after a write gives the value written at the same address and the old value at any other; every other address reads as 0 and ignores writes |
| CsrEdge.InterruptTarget | src/riscv_core/riscv_core.sv:326-332 | An interrupt taken in a running clock sends the core to mtvec, empties ID and EX, and lets the instruction in EX go on to MEM |
| Soc.SocRefinesGolden | fpga/riscv_top.sv:194-225 | The pipelined core on registered-address block RAM with address-change valid tracking is core and memory under the handshake contract and does what the reference core does on ideal memory - traces, registers, CSRs, and memory once drained - for programs that leave their code alone, keep their data in RAM, and do no harm where an undelayed trap follows a CSR instruction on mepc or mcause; never halted it does so even where they do |
| Soc.ValidMeansCurrent | fpga/riscv_top.sv:201-225 | While imem_rvalid is high, and dmem_rvalid for a RAM load with no debug access in the previous clock, the word returned is memory at the current address after all earlier byte-masked writes |
| Soc.SocContract | fpga/riscv_top.sv:323-346 | The SoC keeps the handshake contract the core was proved against |
| Soc.SocIsSysRun | fpga/riscv_top.sv:323-346 | Every SoC run in which no overtaking trap does harm is a run of core and memory under that contract |
| Soc.PortsKept | fpga/dp_ram_model.sv:50-63 | Both RAM ports hold the word index of the address driven one clock earlier |
| Soc.FreeRunning | fpga/riscv_top.sv:194-225 | The one-clock read latency leaves a bubble in front of every instruction in EX, so a free-running core never meets the trap ordering problem |
| SocTraps.BoardAgreesExactly | fpga/riscv_top.sv:194-225 | The board agrees with the reference core on every debug schedule iff no debug schedule lets a trap overtake where that does harm |
| SocTraps.BoardNeedsHarmless | fpga/riscv_top.sv:194-225 | How far the program's condition is necessary: a program that agrees on every debug schedule does no harm at any trap right behind a CSR instruction on mepc or mcause that is not held back by one of the three instructions before it |
| SocTraps.StepToTrap | fpga/riscv_top.sv:194-225 | Halting in every second clock, as stepping does, brings each such CSR instruction into MEM with its trap in EX, or an earlier one that does harm |
| SocTraps.BoardEnds | fpga/riscv_top.sv:194-225 | Three running clocks after a trap has overtaken, the board has drained both instructions |
| Soc.SocRetiresLinearly | fpga/riscv_top.sv:194-225 | A free-running SoC without debug access retires n instructions within 16n + 19 clocks of reset, wait states of both ports included |
| Soc.WaitStep | fpga/riscv_top.sv:201-225 | Every clock in which a port keeps the core waiting uses up one of at most three wait states |
| SocDebug.FsmKeepsProtocol | fpga/riscv_top.sv:323-346 | Whatever bytes it receives, the debug FSM steers port B only while it holds halt and for one clock more |
| SocDebug.DebuggedSocRefines | fpga/riscv_top.sv:323-346 | With the debug UART halting, stepping and reading as it is told, for any received bytes and from any FSM state that holds halt where it must, the SoC still refines the reference core, CSRs and drained memory included, under the same condition on the program |
| SocDebug.LoadedSocRefines | fpga/riscv_top.sv:323-346 | Load, then run, for any bytes: while the debug unit holds the core in its reset state it writes memory as it is told, and driven from there by the same FSM the SoC refines the reference core on the loaded memory |
| SocDebug.LoadedState | fpga/riscv_top.sv:323-346 | Such a session leaves the core alone and each word of the RAM as the number that the four bytes in the debug unit make, least significant first |
| SocDebug.HostWords | tools/reg_debugger.py:175-182 | After load_program the word at place base/4 + i modulo 4096 of the core memory, read as a number, is the i-th word of the list, and every other word is as before |
| SocDebug.AsWordNumber | src/peripherals/debug_uart.sv:417-440 | The 32-bit word that four bytes of the debug unit make has the value of struct.unpack on those bytes |
| SocDebug.SameIndex | fpga/dp_ram_model.sv:40-63 | The debug unit and the RAM select the same word for every address |
| SocDebug.SessionRead | fpga/riscv_top.sv:323-346 | In such a session what the RAM answers on port B to a debug read is, as a number, the word that the debug unit takes for its answer |
| LoadedProgram.ProgramRuns | fpga/riscv_top.sv:310-346 | End to end from the wire to execution: the frames of load_program, for any words that fit, to a board in reset put exactly those words, as numbers, into the memory that the core starts from; from any clock after the last write on, whatever bytes come to resume, halt, step and read, the SoC does what the reference core does on that memory |
| LoadedProgram.SessionHolds | tools/reg_debugger.py:175-182 | The session before it: the words are in memory, the FSM is idle, and in no clock was the core released |
| Board.BoardRefinesGolden | fpga/riscv_top.sv:194-225 | The same for the actual datapath and RAM, for harmless programs or without halts |
| Board.RamIs | fpga/riscv_top.sv:159-175 | The RAM answers exactly below 0x10000, with word addr/4 modulo 4096 |
| Board.DebugRead | fpga/riscv_top.sv:323-346 | A clock in which the debug UART reads leaves the RAM alone, and word addr/4 modulo 4096 is on port B in the next |
| Board.PeripheralAccess | fpga/riscv_top.sv:246-266 | At and above 0x10000 a store leaves the RAM alone and a load gets the word of the peripheral, extended |
| Board.DpRam.WriteMasked | fpga/dp_ram_model.sv:40-45 | A masked write changes exactly the enabled byte lanes of one word |
| Board.LanesMerge | fpga/dp_ram_model.sv:40-45 | Writing the enabled byte lanes one after the other is the masked merge |
| Board.DpRam.Clock | fpga/dp_ram_model.sv:50-57 | One edge: both addresses registered, the masked write of port B, every other word unchanged |
| Board.SocTop.MemoryEdge | fpga/riscv_top.sv:323-346 | The store of MEM reaches port B unless the debug UART steers it |
| Board.SocTop.Clock | fpga/riscv_top.sv:201-225 | One edge of core, RAM and both address registers is one step of the SoC model |
| Cores.PipelinedCore.ProgramCounter | src/riscv_core/riscv_core.sv:297-320 | Next pc under mem_wait > ex_flush > front_stall |
| Cores.PipelinedCore.IfIdReg | src/riscv_core/riscv_core.sv:334-362 | Next IF/ID register |
| Cores.PipelinedCore.IdExReg | src/riscv_core/riscv_core.sv:545-605 | Next ID/EX register |
| Cores.PipelinedCore.ExMemReg | src/riscv_core/riscv_core.sv:684-747 | Next EX/MEM register |
| Cores.PipelinedCore.MemWbReg | src/riscv_core/riscv_core.sv:780-816 | Next MEM/WB register, a bubble while waiting |
| Cores.PipelinedCore.CsrFile | src/riscv_core/riscv_core.sv:852-895 | Next CSR file: the WB write with the trap entry or return of EX on top |
| Cores.PipelinedCore.Clock | src/riscv_core/riscv_core.sv:297-907 | One edge of all registers is one step of the pipeline that the refinement is about |
| Cores.SingleCycleCore.ProgramCounter | src/riscv_core/riscv_core_single_cycle.sv:138-149 | Next pc of the reference core |
| Cores.SingleCycleCore.CsrFile | src/riscv_core/riscv_core_single_cycle.sv:409-427 | Next CSR file of the reference core |
| Cores.SingleCycleCore.Clock | src/riscv_core/riscv_core_single_cycle.sv:138-463 | One edge is the golden step of whatever program and memory agree with the words handed in; halted or stalled, nothing changes |
| Conformance.CoreLawful | src/riscv_core/riscv_core_single_cycle.sv:164-355 | The RTL datapath has the properties the refinement asks for: unused operands have no influence, bubbles do nothing, repeating a store changes nothing |
| Conformance.CoreRamLaw | fpga/dp_ram_model.sv:40-63 | The RAM reads and writes the word addr[13:2] selects |
| Conformance.DecodeInvertsEncode | src/riscv_core/riscv_core_single_cycle.sv:226-301 | Every legal operation decodes from any word carrying its opcode and function bits |
| Conformance.DecodesExactly | src/riscv_core/riscv_core_single_cycle.sv:226-301 | Every one of the 2^32 words decodes to an operation exactly if it carries the opcode, funct3 and function bits of that operation |
| IsaSteps.UnknownStep | src/riscv_core/riscv_core_single_cycle.sv:138-463 | A word that decodes to no operation moves pc on by 4, writes 0 to the register in its rd field if instr[6:2] is of a format with one, and changes nothing else |
| IsaSteps.WideShifts | src/riscv_core/riscv_core_single_cycle.sv:308-355 | SLLI and SRLI with instr[25] set give 0; SRAI heeds five bits only |
| Encoding.RegisterRoundTrip | src/riscv_core/riscv_core_single_cycle.sv:164-289 | Register-register instructions, RV32M included: operation, three registers and operand flags come back from the encoding |
| Encoding.ImmediateRoundTrip | src/riscv_core/riscv_core_single_cycle.sv:164-289 | Register-immediate operations, shifts, loads and JALR: operation, registers and sign-extended immediate come back |
| Encoding.StoreRoundTrip | src/riscv_core/riscv_core_single_cycle.sv:164-289 | Stores: operation, registers and split immediate come back |
| Encoding.BranchRoundTrip | src/riscv_core/riscv_core_single_cycle.sv:164-289 | Branches: operation, registers and scrambled 13-bit offset come back |
| Encoding.UpperRoundTrip | src/riscv_core/riscv_core_single_cycle.sv:164-289 | LUI and AUIPC: operation, destination and upper immediate come back |
| Encoding.JumpRoundTrip | src/riscv_core/riscv_core_single_cycle.sv:164-289 | JAL: destination and scrambled 21-bit offset come back |
| Encoding.CsrRoundTrip | src/riscv_core/riscv_core_single_cycle.sv:164-289 | CSR instructions: operation, CSR address, destination and register or immediate operand come back |
| IsaSteps.StepExecutes | src/riscv_core/riscv_core_single_cycle.sv:138-463 | For every legal instruction, one step of the reference core on its encoded word is what the instruction says on integers: register numbers as numbers with x0 reading 0 and ignoring writes, sums and differences modulo 2^32, comparisons and products of signed or unsigned values, shifts bit by bit, bytes of a flat memory, pc, rd and CSRs by address - except for JALR, of which this holds iff bit 0 of the target is clear |
| IsaSteps.RegisterComputes | src/riscv_core/riscv_core_single_cycle.sv:304-355 | The same for the ALU on two registers, RV32M included |
| IsaSteps.ImmediateComputes | src/riscv_core/riscv_core_single_cycle.sv:304-355 | The same for the ALU on a register and an immediate |
| IsaSteps.BranchTakes | src/riscv_core/riscv_core_single_cycle.sv:433-440 | The branch unit decides by the values of its operands |
| IsaSteps.JumpRegStep | src/riscv_core/riscv_core_single_cycle.sv:443-443 | JALR jumps to the sum with its bit 0 as it is; that is the standard exactly for even sums |
| WordInts.SumIsModular | src/riscv_core/riscv_core_single_cycle.sv:304-355 | The 32-bit adder adds the values modulo 2^32, by digits and carries |
| WordInts.DifferenceIsModular | src/riscv_core/riscv_core_single_cycle.sv:304-355 | Subtraction likewise |
| WordInts.SignedOrder | src/riscv_core/riscv_core_single_cycle.sv:345-346 | The signed comparison is that of the two's-complement values |
| WordInts.UnsignedOrder | src/riscv_core/riscv_core_single_cycle.sv:304-305 | The unsigned comparison is that of the values |
| Conformance.ImmediateI | src/riscv_core/riscv_core_single_cycle.sv:197-203 | I-type immediates: decode inverts encode |
| Conformance.ImmediateS | src/riscv_core/riscv_core_single_cycle.sv:197-203 | S-type immediates: decode inverts encode |
| Conformance.ImmediateB | src/riscv_core/riscv_core_single_cycle.sv:197-203 | B-type immediates: decode inverts encode |
| Conformance.ImmediateU | src/riscv_core/riscv_core_single_cycle.sv:197-203 | U-type immediates: decode inverts encode |
| Conformance.ImmediateJ | src/riscv_core/riscv_core_single_cycle.sv:197-203 | J-type immediates: decode inverts encode |
| Conformance.ComparisonsAreSigned | src/riscv_core/riscv_core_single_cycle.sv:345-346 | SLT, BLT and BGE, built from an unsigned compare and the sign bits, are the two's-complement order |
| Conformance.SraIsArithmetic | src/riscv_core/riscv_core_single_cycle.sv:308-313 | The truncated 64-bit logical shift is an arithmetic shift, bit for bit |
| Conformance.MultiplyLow | src/riscv_core/riscv_core_single_cycle.sv:315-322 | MUL is the low word of the signed product |
| Conformance.MultiplyHigh | src/riscv_core/riscv_core_single_cycle.sv:315-322 | MULH, MULHSU and MULHU are the high words of the signed, mixed and unsigned products |
| ByteLanes.LanesRefineBytes | src/riscv_core/riscv_core_single_cycle.sv:365-375 | Over any sequence of LB/LBU/LH/LHU/LW/SB/SH/SW that do not cross a word boundary the word memory with byte enables and shifts behaves exactly like a flat little-endian memory of 16384 bytes with values 0 to 255, addressed modulo its size |
| ByteLanes.StoreIsFlat | src/riscv_core/riscv_core_single_cycle.sv:446-454 | A store changes exactly its bytes at addr modulo 16384, to the value modulo 256, its quotient by 256, and so on |
| ByteLanes.LoadIsFlat | src/riscv_core/riscv_core_single_cycle.sv:365-375 | A load returns the number its bytes make, as a word; for LB and LH minus 256 or 65536 if the top bit of the number is set |
| ByteLanes.ByteIndexIs | fpga/dp_ram_model.sv:40-63 | Word number and lane of an address together are the address modulo 16384 |
| Uart.UartTx.constructor | src/peripherals/uart.sv:254-262 | Reset state of the transmitter |
| Uart.UartTx.Clock | src/peripherals/uart.sv:254-322 | One clock of the transmitter is one step of the link model |
| Uart.UartRx.constructor | src/peripherals/uart.sv:114-121 | Reset state of the receiver |
| Uart.UartRx.Clock | src/peripherals/uart.sv:96-201 | One clock of the receiver and its synchroniser is one step of the link model |
| SerialLink.LoopbackIsDelay | src/peripherals/uart.sv:96-322 | At every divisor N >= 2 the looped-back link is a pure delay: a byte is reported in clock t, for one clock, exactly if it was offered 9N + 2h + 7 clocks before, and it is that byte |
| SerialLink.StreamDecoded | src/peripherals/uart.sv:138-193 | A receiver of divisor N decodes every stream of two-stop-bit frames of bit period M within the tolerance: each byte reported once, for one clock, at a fixed delay, and nothing else is reported |
| SerialLink.ToleranceIsExact | src/peripherals/uart.sv:138-193 | All bytes are received iff 8(M-N) <= h+1 and 8(N-M) <= M-h-2, with h = (N-1)/2 |
| SerialLink.FrameDecoded | src/peripherals/uart.sv:138-193 | One frame that finds the receiver idle is reported with its byte at the fixed delay |
| SerialLink.IdleBetween | src/peripherals/uart.sv:122-136 | The receiver is back in IDLE, seeing a high line, from a report until the next start bit |
| SerialLink.FrameReceived | src/peripherals/uart.sv:138-172 | The receiver samples its line at h + 1 + N(k+1) clocks for data bit k |
| SerialLink.TxSendsFrame | src/peripherals/uart.sv:264-307 | A byte taken in clock c is on the line as start bit, eight data bits and two stop bits of N clocks from clock c + 2 |
| SerialLink.TxBusyFor | src/peripherals/uart.sv:264-322 | The transmitter is then busy for 11N + 1 clocks without reporting, and then idle, tx_done high for that one clock |
| SerialLink.LoopCarries | src/peripherals/uart.sv:254-322 | Bytes offered only when not busy make a well-formed stream of frames |
| DebugUart.DebugFsm.constructor | src/peripherals/debug_uart.sv:225-244 | Reset state: idle, halted, nothing offered to the transmitter |
| DebugUart.DebugFsm.Clock | src/peripherals/debug_uart.sv:245-475 | One clock of the command FSM is one step of the FSM model |
| DebugUart.DebugFsm.Command | src/peripherals/debug_uart.sv:253-312 | A command byte in CMD_IDLE |
| DebugUart.DebugFsm.Argument | src/peripherals/debug_uart.sv:314-345 | An argument byte in any of the five waiting states |
| DebugUart.DebugFsm.Send | src/peripherals/debug_uart.sv:356-396 | The word sender |
| DebugUart.DebugFsm.Pulse | src/peripherals/debug_uart.sv:346-354 | The states that last one clock |
| DebugUart.SteeringOnlyHalted | src/peripherals/debug_uart.sv:213-223 | In every reachable state memory or MMIO steering and the write strobe occur only with halt high, and halt stays high one clock longer |
| DebugUart.StepDropsHaltOnce | src/peripherals/debug_uart.sv:346-354 | A STEP taken while halted drops halt for exactly one clock |
| DebugUart.WritePulseOnce | src/peripherals/debug_uart.sv:417-440 | The write strobe rises exactly when the last data byte of a WRITE_MEM arrives, and lasts one clock |
| DebugUart.ReadHoldsTwice | src/peripherals/debug_uart.sv:446-475 | The last address byte of a READ_MEM steers the memory port to that address for two clocks, and the word present in the second is the one sent |
| DebugUart.PeripheralHoldsTwice | src/peripherals/debug_uart.sv:446-475 | The same for READ_MMIO and the peripheral port |
| DebugUart.HaltHeld | src/peripherals/debug_uart.sv:280-309 | Commands that need halt are only entered halted, and nothing on their way clears it |
| DebugUnit.UnitKept | src/peripherals/debug_uart.sv:364-396 | FSM and transmitter stay joined: the transmitter works exactly while the FSM waits for it, whatever bytes arrive |
| DebugUnit.QuietCounts | src/peripherals/debug_uart.sv:245-250 | A clock without a received byte brings the FSM exactly one clock closer to idle |
| DebugUnit.OwedKept | src/peripherals/debug_uart.sv:363-396 | Reply bytes are conserved: what has been sent and what is still owed add up to the same throughout |
| DebugUnit.OwedNothing | src/peripherals/debug_uart.sv:363-396 | Once the last reply byte is handed over the FSM is idle within 11N + 2 clocks |
| DebugUnit.LeftBounds | src/peripherals/debug_uart.sv:160-169 | The remaining time is at most 20 bit periods and one clock while an argument is awaited, and at most 33 words of frames when sending |
| DebugUnit.Recovers | src/peripherals/debug_uart.sv:314-475 | From any reachable state, after any history of lost or garbled bytes, n quiet clocks leave the FSM idle iff n has reached the computable remaining time |
| DebugCommands.CommandRuns | src/peripherals/debug_uart.sv:253-475 | From idle, every command whose bytes arrive within the timeout of each other completes within its stated time, and not before, with the stated effect on halt and on the memory the unit writes, and exactly the stated reply |
| DebugCommands.SendsByte | src/peripherals/debug_uart.sv:363-396 | One byte takes 11N + 4 clocks, is taken by the transmitter once, and leads to the next byte, word or idle |
| DebugCommands.SendsWords | src/peripherals/debug_uart.sv:356-396 | READ_ALL sends x0 to x31 and then the pc, in order |
| DebugCommands.AddressArrives | src/peripherals/debug_uart.sv:398-413 | Four bytes assemble a little-endian address, from which a write or a read continues |
| DebugCommands.WriteMemRuns | src/peripherals/debug_uart.sv:417-440 | WRITE_MEM changes exactly the addressed word to the data |
| DebugCommands.ReadMemRuns | src/peripherals/debug_uart.sv:446-491 | READ_MEM and READ_MMIO reply with the addressed word, latched after the RAM's one-clock latency |
| DebugCommands.IgnoredWhileRunning | src/peripherals/debug_uart.sv:280-309 | While the core runs a memory command is without effect iff none of its argument bytes is itself an acting command |
| DebugCommands.RunningWriteCanHalt | src/peripherals/debug_uart.sv:280-309 | A concrete WRITE_MEM to a running core that is not ignored: an address byte halts it |
| DebugCommands.UnknownIgnored | src/peripherals/debug_uart.sv:253-312 | A byte that is none of the ten command codes has no effect, halted or running |
| DebugCommands.WaitsTwenty | src/peripherals/debug_uart.sv:314-345 | An argument is awaited for exactly 20 bit periods |
| DebugHost.UnpackPack | tools/reg_debugger.py:110-114 | struct pack then unpack is the identity on 32-bit words |
| DebugHost.PackUnpack | tools/reg_debugger.py:110-114 | Unpack then pack is the identity on four bytes, so the word returned is the only one with the bytes read |
| DebugHost.PackedIx | src/peripherals/debug_uart.sv:398-401 | A packed byte address selects the word it lies in, modulo the RAM |
| DebugHost.RegDebugger.constructor | tools/reg_debugger.py:99-105 | A host on an idle link to a unit just out of reset |
| DebugHost.RegDebugger.Write | tools/reg_debugger.py:116-173 | ser.write of one command: it returns with the unit still at work, bound to end in the command's whole effect, with its frames back to back or further apart, up to the timeout within the command |
| DebugHost.WriteEnds | tools/reg_debugger.py:116-173 | A command whose first byte arrives when the unit has finished with the one before ends in its effect, after exactly the work of that command |
| DebugHost.BackToBackPauses | tools/reg_debugger.py:175-182 | Frames written one behind the other without a pause are within what the host class allows, at every divisor within the tolerance |
| DebugHost.RegDebugger.ReadWord | tools/reg_debugger.py:110-114 | Blocks until four bytes have come and returns the word they make, or times out iff fewer than four are still to come; what the unit will end in is unchanged |
| DebugHost.RegDebugger.ReadReg | tools/reg_debugger.py:126-130 | Returns the register of a held core, or the error for an index outside 0 to 31; of a running core a word, or the same error |
| DebugHost.RegDebugger.ReadMem | tools/reg_debugger.py:149-153 | Returns the word at the address and changes nothing |
| DebugHost.RegDebugger.WriteMem | tools/reg_debugger.py:143-147 | Changes exactly the addressed word |
| DebugHost.RegDebugger.LoadProgram | tools/reg_debugger.py:175-182 | Halts and leaves exactly the listed words at consecutive addresses, every other word unchanged |
| DebugHost.RegDebugger.ReadMemRange | tools/reg_debugger.py:155-160 | Returns n consecutive words |
| DebugHost.RegDebugger.ReadAll | tools/reg_debugger.py:136-141 | Returns x0 to x31 and the pc of a held core, thirty-three words in any case |
| DebugHost.LoadThenRead | tools/reg_debugger.py:155-182 | End to end: loading a program that fits, its frames back to back or further apart, and reading the range back returns it, and no other word changes |
| DebugSession.LoadAndReadOverTheWire | tools/reg_debugger.py:155-182 | End to end on the wires, the host blocking on every reply: the frames of load_program and read_mem_range for any words that fit leave exactly those words in the memory that HALT found, no other word changed, and exactly their bytes are heard back |
| DebugSession.SessionOverTheWire | tools/reg_debugger.py:110-182 | From the frames on the host's line to the replies heard on the unit's line, for any list of allowed commands: the host writes a command's frames at most 20 bit periods apart and begins the next command once it has heard the whole reply. Within the baud tolerance both ways the unit ends idle with halt as the commands mean, and if from the first HALT on the core stays held, memory ends as they mean and exactly the replies are heard, in order |
| DebugSession.PacedIsTimely | tools/reg_debugger.py:110-182 | Such a host leaves every command the time the unit needs, without counting clocks: when the last reply byte is heard, what remains of the work is shorter than the way of the next byte |
| DebugSession.GapCovers | tools/reg_debugger.py:110-114 | The step behind it, for one command with a reply |
| HostSchedule.SessionsExist | tools/reg_debugger.py:99-182 | Every allowed session has such a line: frames back to back, spaced by a fixed pause, at the host's pace |
| HostSchedule.LineCarries | src/peripherals/uart.sv:264-307 | The line that shows any frames at least a frame apart, and is high between them, carries exactly those |
| DebugSession.SessionRuns | src/peripherals/debug_uart.sv:253-475 | The same for the bytes of a session with any pauses within the timeout, from any idle state |
| DebugSession.RoundTripPlays | tools/reg_debugger.py:155-182 | What load_program followed by read_mem_range means |
| DebugLink.WireFeeds | src/peripherals/debug_uart.sv:171-199 | The FSM sees the bytes of the frames on its line with their spacing |
| DebugLink.SentIsHeard | src/peripherals/debug_uart.sv:364-396 | A receiver within the tolerance hears exactly the bytes the unit has sent, in order, a fixed lag later |
| Framebuffer.FrameIsSnapshot | src/peripherals/vga_framebuffer.sv:82-140 | With CLK_DIV >= 2 and DOUBLE_BUF_EN kept set, under any CPU writes the pixel registered in the last clock of each of the 640 x 480 positions of a frame is bit x%32 of word 5y + x/32 of one snapshot of the front buffer |
| Framebuffer.NoTear | src/peripherals/vga_framebuffer.sv:164-206 | In double-buffer mode no clock outside the frame-start window changes which buffer is scanned or what it holds |
| Framebuffer.Snapshot | src/peripherals/vga_framebuffer.sv:164-206 | The same over any run between windows |
| Framebuffer.CountersAt | src/peripherals/vga_framebuffer.sv:82-118 | The counters in closed form: columns within lines within frames of CLK_DIV-clock periods |
| Framebuffer.ScanReads | src/peripherals/vga_framebuffer.sv:211-251 | In either mode the word fetched and the bit shown at a position are those of the scanned buffer at that position, before what the bus writes in that clock |
| Framebuffer.SwapHonoured | src/peripherals/vga_framebuffer.sv:167-188 | A pending swap waits for the next frame start, is carried out there exactly once, and brings forward all that was drawn, a word written in that very clock included |
| Framebuffer.DrawnIsShown | src/peripherals/vga_framebuffer.sv:164-251 | End to end: in double-buffer mode the last word written at 0x1000 + 4(5(y/4) + x/128) before a swap is on the screen in the frame that the swap starts: the pixel at (x, y) is its bit x/4 modulo 32 |
| Framebuffer.DrawWrites | src/peripherals/vga_framebuffer.sv:164-206 | One clock writes the data into word (addr - 0x1000)/4 of the back buffer, in single-buffer mode of the shown one, for a write to the 2400 bytes from 0x1000 on, and changes no other word of either buffer |
| Framebuffer.BackKept | src/peripherals/vga_framebuffer.sv:164-206 | A word of the back buffer stays until it is written again or the buffers swap |
| Framebuffer.DarkOutside | src/peripherals/vga_framebuffer.sv:211-251 | The colour is off in every clock of a period outside columns 144 to 783 and lines 35 to 514 |
| Framebuffer.SwapRecorded | src/peripherals/vga_framebuffer.sv:167-188 | A swap request is recorded unless it is written in the very clock in which an earlier one is carried out |
| Framebuffer.PeekIsShown | src/peripherals/vga_framebuffer.sv:161-165 | In double-buffer mode the peek addresses read the buffer being shown and the draw addresses the other; in single-buffer mode the reverse |
| Framebuffer.ReadTakesTwo | src/peripherals/vga_framebuffer.sv:264-309 | A read of 0x1000 to 0x2FFF answers two clocks later with word (addr modulo 4096)/4 of the draw or peek buffer when issued, or zero from word 600 on |
| Framebuffer.ControlReads | src/peripherals/vga_framebuffer.sv:264-309 | A read below 0x1000 answers in bit 0 alone: the mode at register 0, the pending swap at register 1, zero elsewhere; what is not selected, not a read or beyond 0x2FFF answers zero |
| Framebuffer.ModeStep | src/peripherals/vga_framebuffer.sv:167-188 | Only a write to offset 0 changes the mode, to bit 0 of its data |
| Framebuffer.ModeLasts | src/peripherals/vga_framebuffer.sv:167-188 | Double-buffer mode lasts until a write that clears it |
| Framebuffer.SyncRam.Clock | src/peripherals/dp_ram_sync_read.sv:29-43 | Registered reads of the old contents and the write, both ports |
| Framebuffer.VgaFramebuffer.constructor | src/peripherals/vga_framebuffer.sv:82-110 | Reset state |
| Framebuffer.VgaFramebuffer.Tick | src/peripherals/vga_framebuffer.sv:82-118 | Pixel enable and counters |
| Framebuffer.VgaFramebuffer.Steer | src/peripherals/vga_framebuffer.sv:167-188 | Mode bits, swap request and swap |
| Framebuffer.VgaFramebuffer.Clock | src/peripherals/vga_framebuffer.sv:82-326 | One clock of the peripheral and its two RAMs is one step of the framebuffer model |
| Bootloader.UploadBoots | src/bootloader/bootloader.asm:34-106 | Whatever failed handshakes come first, any file whose padded size is at most 0x3000, sent by the host loader, boots: the bootloader sends the ready byte for every attempt and then OK, no failed attempt is answered, and 0x1000 holds the padded file, the bootloader untouched |
| Bootloader.AlteredUpload | src/bootloader/bootloader.asm:65-106 | A frame with exactly one payload byte altered on the way is refused: 0xEE and no OK, whatever failed handshakes come first |
| Bootloader.OneByteAltered | tools/uart_loader.py:33-38 | Altering exactly one byte alters the checksum |
| Bootloader.ChecksumParity | tools/uart_loader.py:33-38 | Bit k of the checksum is the parity of the bytes with bit k set |
| Bootloader.FrameLoads | src/bootloader/bootloader.asm:43-106 | The answer is OK iff the received checksum is the XOR of all payload bytes; either way the payload lies from 0x1000 on and no other word has changed |
| Bootloader.AfterRestarts | src/bootloader/bootloader.asm:123-146 | Timed-out attempts leave traces only in the program area and are announced but not answered, and the next burst starts afresh |
| Bootloader.Bootloader.Attempt | src/bootloader/bootloader.asm:34-106 | One handshake on any byte stream: outcome, answer bytes, bytes consumed and the whole memory |
| Bootloader.Bootloader.RecvLoop | src/bootloader/bootloader.asm:65-89 | recv_loop terminates on any stream; it completes iff the size is a multiple of four that fits and enough bytes come, with every payload word stored and x23 their XOR |
| Bootloader.Bootloader.RecvSize | src/bootloader/bootloader.asm:43-58 | Little-endian size assembly |
| Bootloader.Bootloader.RecvWord | src/bootloader/bootloader.asm:67-84 | Little-endian word assembly with the checksum over its bytes |
| Bootloader.Bootloader.StoreWord | src/bootloader/bootloader.asm:86-88 | The store and both counters, x22 wrapping at 32 bits |
| Bootloader.Bootloader.RxByte | src/bootloader/bootloader.asm:133-146 | The next byte, or the timeout |
| Bootloader.Bootloader.Boot | src/bootloader/bootloader.asm:123-146 | The handshake restarted after every timeout: outcome, memory and every byte sent |
| Bootloader.PadToWord | tools/uart_loader.py:25-30 | The shortest zero padding to a multiple of four |
| Bootloader.Checksum | tools/uart_loader.py:33-38 | XOR of all bytes |
| Bootloader.Upload | tools/uart_loader.py:66-119 | Size, the whole padded file in chunks of 256, and the checksum, in that order |
| Mif.BothBranchesAgree | tools/reg_debugger.py:185-248 | For every byte string and depth, parsing the printed file gives the zero-padded words followed by zeros up to the depth, and both loader branches return the same trimmed list |
| Mif.TextRoundTrip | tools/reg_debugger.py:185-220 | Parsing printed text gives the words back, whatever the depth |
| Mif.FileParsed | tools/reg_debugger.py:185-220 | Parsing any file of entries gives the last word at each address named, 0 at the others below the highest, whatever the order of the lines, each of the four radixes for addresses and for data, the case of the radix names and digits, and the depth |
| Mif.NumeralRoundTrip | tools/reg_debugger.py:203-215 | In every radix, either case and any padding, int of a printed number is that number |
| Mif.Bin2Mif | src/bootloader/bin2mif.py:4-28 | The printed text for the padded words and the zero fill |
| Mif.Layout | src/bootloader/bin2mif.py:17-28 | Depth and width in decimal, both radixes HEX, the markers and the content, in this order |
| Mif.Columns | src/bootloader/bin2mif.py:23-27 | Each content line of a 32-bit word below address 0x10000 has four upper-case digits of address and eight of data in fixed columns, which read back |
| Mif.ReadWords | src/bootloader/bin2mif.py:8-15 | The little-endian words of the zero-padded file |
| Mif.PrintEntries | src/bootloader/bin2mif.py:23-27 | Content lines of the words, then of zeros up to the depth |
| Mif.ParseMif | tools/reg_debugger.py:185-220 | The parser's loop is the parsing function that the round trip is about |
| Mif.EntryParsed | tools/reg_debugger.py:209-216 | A content line is parsed as the address and data it was written for, in each radix |
| Mif.RadixesOfText | tools/reg_debugger.py:194-204 | Both radix searches find the base that the file names |
| Mif.ContentOfText | tools/reg_debugger.py:207-208 | The block between the markers is exactly the content lines |
| Mif.TrimZeros | tools/reg_debugger.py:245-248 | The popping loop removes exactly the trailing zero words |
| Mif.LoadRaw | tools/reg_debugger.py:239-248 | The raw-binary branch of the image loader |
| Mif.LoadMif | tools/reg_debugger.py:236-248 | The MIF branch of the image loader |
| Fuzz.GenerateFuzzProgram | test/utils.py:192-294 | For every random source the program text goes forward: n instructions, of which max(1, n/6) are branches if n > 0, and the loop, each referenced label defined exactly once and two to four instructions ahead, or at the loop if that is nearer, operands of all lines, branches included, from the pool, accesses aligned and in range |
| Fuzz.ReachesLoop | test/utils.py:203-207 | Whatever the branches decide, the instruction index strictly increases until the loop, which is reached within n steps and never left |
| Fuzz.ChooseTargets | test/utils.py:263-271 | Distinct branch positions with targets ahead, clamped to the loop |
| Fuzz.MakeFillers | test/utils.py:228-261 | The first pass |
| Fuzz.Rng.Sample | test/utils.py:269-269 | Distinct indices in range |
| FuzzProgram.FuzzSetting | test/utils.py:192-294 | Every text of the generator, assembled at word addresses that do not wrap, is a forward program without CSR instructions ending in a self-loop, as the convergence theorem needs |
| FuzzProgram.TestFuzzProgram | test/utils.py:192-294 | The differential test on every generated program: fifteen samples with period three come within 4n + 15, and whenever they do their least is the address of the program's loop |
| FuzzProgram.FillerDecodes | test/utils.py:228-261 | Each filler instruction's encoding decodes to its operation |
| FuzzAssembler.TextAssembles | test/utils.py:192-294 | Every text of the generator, with fewer than 32 registers and its data within the reach of an offset, can be assembled: there is a program with the encoding of every line at its place |
| FuzzAssembler.FillerEncodable | test/utils.py:228-261 | Every filler instruction has an encoding |
| FuzzAssembler.LineEncodable | test/utils.py:192-294 | Every line, branches with their resolved distance and the final jump included, has an encoding |
| Convergence.AwaitLoop | test/utils.py:101-133 | On the pipelined core with zero-latency memory a forward program makes the test bench return its loop's address and nothing else, within 4n + 15 samples |
| Convergence.AwaitPcConvergence | test/utils.py:121-133 | Returns the least of the last period of the first periodic window, or times out iff there is none |
| Convergence.OnlyLoopSettles | test/utils.py:101-120 | No window of fifteen samples before the loop has period three |
| Convergence.LoopSettles | test/utils.py:101-120 | The loop is entered within 4n clocks and recognised fifteen samples later |
| Convergence.LoopSamples | src/riscv_core/riscv_core.sv:297-332 | In the self-loop pc runs through P, P + 4, P + 8 over and over |
| Convergence.PcAt | src/riscv_core/riscv_core.sv:297-362 | pc is 0, 1 or 2 instructions past the next one to execute, as ID and EX are occupied, on the right path or not |
| Convergence.FrontAdvances | src/riscv_core/riscv_core.sv:260-319 | On zero-latency memory an instruction executes at least once in every four clocks |

## Left out

- Timer interrupts in the refinement: the reference core has none, and the pipelined core takes mepc from a bubble. What
  one does to the pipelined core is `CsrEdge.EntryEdge` and `CsrEdge.InterruptTarget`; the refinement is for a quiet
  timer line.
- The reset window: runs start after reset with equal registers, CSRs and memory.
- Self-modifying code: the program a run executes is the one in memory at reset. On the SoC this is a condition on the
  program, that no store of the run lands on a word it executes.
- CSR instructions on mstatus in a program that also traps or returns, and on mip while bit 7 of the register is set;
  `TrapOrder.StatusAgrees` and `TrapOrder.PendingAgrees` say when the cores agree on them.
- Accesses that cross a word boundary, misaligned targets (neither core clears the low bit of JALR's target,
  `IsaSteps.JumpRegStep`), and peripheral loads and stores with side effects.
- Debug writes to memory once the core has run: a session may load memory while the core is held in its reset state
  (`SocDebug.LoadedSocRefines`) and then halt, step and read. The effect of later writes is proved at the debug unit.
- SocTraps.BoardNeedsHarmless: does not cover a trap that one of the three instructions before it holds back by a
  register or mtvec; halts alone may then never bring it right behind the CSR instruction. The exact condition over
  schedules is `SocTraps.BoardAgreesExactly`.
- A core stopped with a store in MEM repeats that store after a debug write to the same word; the debug round trips are
  stated for a core that holds none.
- `KEY` and `SW` overrides, clock divider, displays, pin files, Quartus IP, `vga_spi.sv`, `vga.sv`, hsync and vsync.
- UART configurations other than 8 data bits, no parity, 2 stop bits, and divisor changes in mid-frame.
- Swap writes held for several clocks by a slower core: the framebuffer is modelled at its own ports.
- The bootloader's polling loops and its 2,000,000-iteration count: a byte arrives or the timeout does. A size that runs
  past the end of RAM ends the model's run, since the next store would wrap into the bootloader's own code.
- A host that writes its next command before it has read the reply of the last one; overlapping commands are not
  modelled.
- `int()` in the MIF parser accepts signs, prefixes and underscores, and `splitlines` further separators; the model's
  numerals are plain digits and its lines end in newline. Printed files contain neither.
- The assembler itself: that the words of the program are the encodings of the generator's lines, with labels resolved,
  is a hypothesis (`FuzzProgram.Assembled`), which `FuzzAssembler.TextAssembles` shows can be met.
- DebugSession.SessionOverTheWire: memory and replies are claimed only while the core is held; what a core stores and
  shows the debugger while it is stepped or resumed in between is not part of the debug unit's view.
- Random draws: probabilities are arbitrary bits of an arbitrary stream, so nothing is claimed of how often an operand
  is the register just written.
- Web server, browser UI, shell, serial port drivers, toolchain calls, critical-path estimator, C library stubs.
- DebugHost.RegDebugger.ReadMem: requires a halted core; what its bytes do to a running one is
  `DebugCommands.IgnoredWhileRunning`.
