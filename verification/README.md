# VSync: machine-checked models of the processor, its peripherals and its shell

VSync is an RV32IM processor with a hardware RTOS, an AXI4/APB bus, a UART, interrupt controllers and a small
shell. This project models its synchronous hardware as step functions, one clock edge per step, together with
classes whose registers are updated in place on each edge, and the shell's algorithms as methods with loops. It
proves what each block is for over whole runs: every sequence of inputs, every schedule of ready signals, every
program, every waveform.

`dafny verify dfyconfig.toml` checks everything.

## How the project is laid out

| files | what they are about |
|---|---|
| `Words`, `Registers` | 32-bit words and bits, the register file |
| `Fetch`, `Pipeline`, `PipelineInvariant`, `PipelineRefinement`, `PipelineMemory`, `Core` | the five-stage pipeline over an arbitrary datapath: step function, invariant, theorems about every run, data memory, the core as an object |
| `Decode`, `AluBits`, `Isa`, `Encoding`, `Rv32` | decoder and ALU of the core, RV32I with multiplications and its formats, instruction words as numbers, the core against RV32I |
| `FirstCycles`, `LoadReplay`, `StaleJump`, `LostDivision` | how every run starts, and three programs on which the core departs from RV32IM |
| `DataBus`, `WholeSystem` | the core with the AXI bus, the memory adapter and the block RAM; what that system does with every program, clock by clock |
| `DeviceIo`, `IoProgram` | the same system with programs that access peripherals: what the APB sees of them |
| `MulDiv`, `DivideInCore`, `SumAsResult` | multiplier and restoring divider; the unit clocked with the pipeline, and when the sum of its operands is a division's result |
| `ContextSwitch`, `Plic`, `ByteMemory`, `Clint` | context-switch unit, interrupt controller, byte lanes over the data memory, timer |
| `Fifo`, `Uart`, `UartSampling`, `UartRates`, `UartStreams`, `UartTransmit`, `UartLoopback` | the UART: ring buffers, step function and registers, when the receiver samples, rate tolerance of frames and of streams, what the transmitter sends, the stream in loopback |
| `AxiChannels`, `AxiMaster`, `Interconnect`, `ApbBridge`, `BridgeTransactions`, `Bus`, `Apb` | the bus: each unit, the bridge against any master, and the three in composition |
| `Uptime`, `Numbers`, `LineEditor` | the shell: long division, timer read, number conversion, line editor, tokenizer |

Runs are functions from cycle numbers to states, `run: nat -> State`, with a predicate `Clocked` (in the whole
system `Edge`) that says cycle `t + 1` follows from cycle `t`; a theorem about a run is therefore about every run.
Where a claim needs more than the state, an observer (`Track`, `Log`) keeps what has been accepted, committed, handed
over or counted.

## Results that are not as the code's own comments promise

* A load-use replay can lose an operand. The hazard unit replays the instruction behind a load while the
  instruction in front of the load drains out of MEM/WB; the replayed instruction keeps the operands it latched
  (rtl/core/decode_stage.sv:401-414), so it loses a value that was about to be forwarded. `ReplayIsExact` says
  exactly when, for every run up to and including the first unsafe replay (`ReplaySafe`); `LostOperands` says what
  the instruction gets instead; `ReplayLosesOperand` follows a four-instruction program into it, in every run.
* A jump or branch behind a load can raise an exception that the program does not. The exception unit looks at the
  branch unit's target whether or not the load the jump depends on has been answered
  (rtl/core/rv32im_core.sv:585-587), although the redirect itself is gated for that reason (lines 298-311). So
  `lw x1, 0(x0); jalr x0, 0(x1)` traps when bit 1 of the word that x1 held before the load is set (JALR clears bit
  0), wherever the loaded word points. `SpuriousTrap` gives the exact condition (`JumpSafe`), `QuietExactly` the same on
  any datapath, and `TrapsInCycle5` a program that runs into it in every run.
* The core does not wait for a division. The divider's busy output is low in the cycle in which it starts, so the
  instruction moves on with the ALU's result (rtl/core/execute_stage.sv:206-211): `DivisionIsNotAwaited` says that it
  takes the sum of its operands along unless the divisor is zero or the signed division overflows. That is right, by
  accident, for few operands: `SumIsResultExactly` lists them (REMU, for instance, is right exactly if the sum
  overflows and the divisor divides 2^32). `NineInCycle7` follows a program into it: in every run, 7 / 2 gives 9. The
  unit itself is right (`DividerIsCorrect`), and as long as no division starts it does not show
  (`DividerIsInvisible`).
* The receiver tolerates a sender that is too fast by almost one eighth and none that is slower by a whole clock
  per bit: `RateTolerance` is an equivalence. It never looks at the level of the stop bit. In a stream without gaps it
  tolerates less: it is ready again one clock more than nine of its bits after a start bit, so from one ninth on it
  falls behind with every frame. `StreamTolerance` is the equivalence for streams of each length, `EveryLength` the
  condition for all of them.
* `dec_to_uint32` misses overflows that do not make the running value shrink. `DecParseIsRight` gives the exact
  condition, `OverflowUnnoticed` an input.
* `div64by32` is exact for every dividend precisely for divisors up to 2^31 (`Div64by32IsExactUpTo31Bits`); the
  shell divides by 25,000,000.
* A slave of the interconnect sees the address of a read for one cycle only. `OnlyChance`: if it is not ready in that
  cycle (rtl/bus/axi4_interconnect.sv:248-261 leaves the idle state without looking), the read never finishes, whatever
  the slave does later. The APB bridge is always ready then (`AddressNeverLost`).
* A byte pushed into a full receive FIFO is lost even if an entry is read in the same cycle; `ReaderSeesStream` is
  an equivalence.

## Model

| member | source | states |
|---|---|---|
| Fetch.StreamIsSequential | rtl/core/fetch_stage.sv:60-153 | For every pattern of stalls and redirects: unless suppressed, the memory's output is the word at the delayed PC; a valid IF/ID entry pairs an address with its own word; the addresses delivered after a redirect are target, target + 4, ... with none skipped or repeated |
| Fetch.FetchStage.Clock | rtl/core/fetch_stage.sv:76-153 | The stage with its registers and the memory's output register, updated in place, takes the specified step |
| Registers.WriteThenRead | rtl/core/register_file.sv:40-64 | A register holds what was written to it last; x0 is zero whatever is written |
| Registers.RegisterFile.Read | rtl/core/register_file.sv:59-64 | A read port shows the file as it will be after the write of the same cycle, and zero for x0 |
| Registers.RegisterFile.Clock | rtl/core/register_file.sv:40-48 | The write port changes one register and never x0 |
| PipelineInvariant.Operand | rtl/core/hazard_unit.sv:131-166 | A forwarded operand in EX is the architectural value in front of a load in EX/MEM, and behind any other instruction there |
| PipelineInvariant.TrueBranch | rtl/core/branch_unit.sv:45-78 | Without a load-use hazard in EX, taken branches and their targets are the architectural ones |
| PipelineInvariant.StallKeeps | rtl/core/rv32im_core.sv:252-296 | A memory stall keeps the invariant: it freezes the instructions in flight, and a pending redirect is not lost |
| PipelineInvariant.AdvanceKeeps | rtl/core/rv32im_core.sv:242-314 | A clock edge without stall or replay moves every instruction one stage on with its architectural values, squashes the instructions behind a taken branch, and never forwards a jump's ALU output as its link |
| PipelineInvariant.ReplayKeeps | rtl/core/hazard_unit.sv:86-104 | A replay behind a load keeps the invariant if the replayed instruction's registers survive |
| PipelineInvariant.ReplayedOperand | rtl/core/decode_stage.sv:377-414 | After a replay an operand is the architectural one if and only if its register is the load's, or was left alone by the instruction in front of the load |
| PipelineRefinement.HazardIsReplay | rtl/core/hazard_unit.sv:86-104 | When a load leaves EX/MEM, the hazard unit replays the instruction behind it exactly if the program's instructions call for it: that instruction names the loaded register, or it falls through and the word after it does |
| PipelineRefinement.ReplayIsExact | rtl/core/decode_stage.sv:377-414 | In every run whose earlier replays were safe, the instruction replayed in a cycle has the architectural operands afterwards if and only if ReplaySafe holds of the load |
| PipelineRefinement.LostOperands | rtl/core/decode_stage.sv:377-414 | An operand that a replay loses is left with its value in front of the instruction before the load |
| PipelineRefinement.PipelineRefinesSequential | rtl/core/rv32im_core.sv:242-314 | For every program that does not trap and every schedule of mem_ready, up to the first unsafe replay and the first exception: the register writes and completed stores after every cycle are those of the first count instructions executed one at a time, and so is the register file |
| PipelineRefinement.ExactTiming | rtl/core/rv32im_core.sv:242-314 | Dynamic instruction i is in MEM/WB exactly in the cycles whose number, memory stalls not counted, is 5 + i + 3 per earlier taken branch or jump + 1 per earlier replay |
| PipelineRefinement.MemoryFreeTiming | rtl/core/fetch_stage.sv:60-153 | Without loads and stores that is clock cycle 5 + i + 3 per earlier taken branch or jump |
| PipelineRefinement.QuietExactly | rtl/core/rv32im_core.sv:561-600 | On a program that does not trap itself, a cycle of any run is free of exceptional events if and only if every load that has come to EX/MEM so far is StaleSafe: the jump or branch behind it, evaluated on the registers in front of the load, does not target a misaligned address |
| PipelineMemory.PipelineWithMemory | rtl/core/rv32im_core.sv:242-334 | With a data memory that gives each load what the committed stores left, at whatever pace, the loads in flight get what the loads of the one-instruction-at-a-time machine find, so registers and commits are that machine's |
| CoreUnit.Core.ClockStages | rtl/core/execute_stage.sv:217-262 | ID/EX lets a flush win over a stall, EX/MEM a stall over a flush; MEM/WB and the register file follow |
| CoreUnit.Core.Clock | rtl/core/rv32im_core.sv:242-314 | One clock edge of the core's registers, updated in place, is one step of the pipeline |
| Decode.Pack | rtl/core/decode_stage.sv:44-68 | Cutting an assembled instruction word gives back its fields |
| Encoding.EncodesAs | rtl/core/decode_stage.sv:44-68 | The word of every encoded instruction is the sum of its fields at the manual's bit weights, with the manual's opcode, funct3 and funct7 numbers |
| Encoding.DecodesByOpcode | rtl/core/decode_stage.sv:89-360 | The control signals of every 32-bit word, legal or not, by the numbers of its opcode, funct3, funct7 and rs2 fields; every other opcode is illegal |
| Encoding.RegisterFields | rtl/core/decode_stage.sv:44-68 | The register numbers of every word are bits 11 to 7, 19 to 15 and 24 to 20 |
| Encoding.EveryWord | rtl/core/decode_stage.sv:89-360 | The encoded instructions are exactly the words of RV32I without system instructions, and of the multiplications, any FENCE included |
| Encoding.DecodesWordOf | rtl/core/decode_stage.sv:89-360 | The decoder delivers every instruction from the word the manual gives for it |
| Isa.DecodeRecovers | rtl/core/decode_stage.sv:89-360 | Decoding an encoded instruction of any format recovers its operands and raises exactly its control signals; which words those are is said by Encoding.EncodesAs |
| Isa.RegistersRead | rtl/core/decode_stage.sv:89-360 | Which instructions read rs1 and which rs2; on the others a lost operand does not matter |
| Isa.AluComputes | rtl/core/alu.sv:40-57 | Every ALU operation computes the architecture's one, which works digit by digit (AND, OR, XOR) or one place at a time (shifts) |
| Isa.ExecuteIsPerform | rtl/core/execute_stage.sv:93-212 | The datapath does to PC and registers what RV32I with multiplications, defined on its own over a byte-addressed memory, says for every encoded instruction, a load being given the word that holds its bytes |
| AluBits.LogicalOperations | rtl/core/alu.sv:47-51 | AND, OR and XOR, bit by bit |
| AluBits.LogicalShifts | rtl/core/alu.sv:44-48 | SLL and SRL move every bit by the low five bits of the second operand and fill with zeros |
| AluBits.ArithmeticShift | rtl/core/alu.sv:49 | SRA moves every bit and fills with the sign |
| Rv32.CoreImplementsRv32 | rtl/core/rv32im_core.sv:242-314 | For every program in memory in its encoding that does not trap in RV32I, every initial data memory and every schedule on which it serves loads: after every cycle, as long as replays were safe and no exception was raised, the core's register writes, stores and register file are those of RV32I with multiplications, and the words that the stores leave are its bytes |
| Rv32.SpuriousTrap | rtl/core/rv32im_core.sv:561-600 | On such a program a cycle raises no exception if and only if every load that has come to EX/MEM so far is JumpSafe: the instruction behind it continues at a word boundary even on the registers in front of the load |
| Rv32.LoadFreeProgram | rtl/core/rv32im_core.sv:242-314 | Programs without loads are ReplaySafe and JumpSafe throughout |
| LoadReplay.ImageIsProgram | rtl/core/decode_stage.sv:89-360 | Four concrete instruction words are the encoded program of the counterexample, and it does not trap |
| LoadReplay.ReplayLosesOperand | rtl/core/decode_stage.sv:401-414 | In every run of that program, whatever else the memories and their output registers hold: if the data memory is first ready for the load in cycle t and gives it its word, then in cycle t + 3 the core has written 0 to x4, where RV32I writes 5 |
| StaleJump.TrapsInCycle5 | rtl/core/rv32im_core.sv:561-600 | In every run of a three-instruction program the core raises an exception in cycle 5, whatever the memories hold and however they answer, while RV32I does not trap whenever the loaded word is a multiple of four |
| DataBus.AdapterUnit.Clock | rtl/top/vsync_top.sv:797-886 | The adapter between AXI and the block RAM, updated in place together with the RAM, takes the specified step |
| DataBus.StrobesAreEnables | rtl/top/vsync_top.sv:654-668 | The strobes that the top level derives from the access width are the byte enables of the memory stage, for every aligned store |
| DataBus.StrobesByLane | rtl/top/vsync_top.sv:654-668 | The strobes for every width and address, misaligned ones included, lane by lane |
| DataBus.SynchronousStep | rtl/top/vsync_top.sv:670-672 | One clock edge of core, master, interconnect, adapter and RAM, with arbitrary peripherals: the access in EX/MEM moves one cycle on, and the RAM holds what the committed stores left, with the present one if it is already written |
| WholeSystem.SystemRunsProgram | rtl/top/vsync_top.sv:654-886 | The system runs every encoded program of the data memory that does not trap and whose loads are safe for the instructions behind them: instruction i enters MEM/WB at clock 5 + i + 3 per earlier taken branch or jump + 1 per earlier replay + 4 per load and 5 per store up to i, and not before; at that clock register file and RAM are those of RV32I after i + 1 instructions |
| DeviceIo.EveryAccessOnce | rtl/top/vsync_top.sv:654-886 | In the same system, for every path of instructions that access data memory, peripherals, other slaves and unmapped addresses, and any behaviour of the devices: after every clock the finished bus commands are the loads and stores among the first n instructions, one for each, in program order, with its reply taken; the APB transfers are their peripheral accesses, one for each, and at most the one of the access in EX/MEM beyond; between accesses the RAM holds what the stores to it left; and every clock was an unstalled cycle or belongs to a command |
| DeviceIo.Windows | rtl/bus/axi4_interconnect.sv:152-196 | The data memory is the 16 KB from 0x10000 on; the APB is the windows of CLINT, PLIC, UART and GPIO |
| DeviceIo.ToldIsProgram | rtl/bus/axi4_interconnect.sv:201-310 | What finished commands show on the APB, if they are the program's, is what its instructions do to the peripherals |
| IoProgram.IoStep | rtl/core/execute_stage.sv:93-212 | The datapath does to PC and registers what RV32I says when devices answer the loads outside the data memory |
| IoProgram.SystemRunsIo | rtl/top/vsync_top.sv:654-886 | The system runs every encoded program that does not trap, with its data memory and its devices: after every clock with safe replays, registers, RAM and the sequence of APB reads and writes are those of RV32I after n instructions, up to the access in EX/MEM |
| MulDiv.MultiplyIsExact | rtl/core/multiplier_divider.sv:99-117 | Slicing the 64-bit products gives the exact low or high half for MUL, MULH, MULHSU and MULHU |
| MulDiv.MultiplyAtOnce | rtl/core/multiplier_divider.sv:123-288 | The unit answers a multiplication in the cycle in which it starts, with the exact half, and stays idle |
| MulDiv.DivisionStep | rtl/core/multiplier_divider.sv:151-232 | A busy clock edge is one step of long division; the remainder stays below the divisor, so dropping its bit 32 loses nothing |
| MulDiv.DividerIsCorrect | rtl/core/multiplier_divider.sv:123-288 | Every start in the idle state gives the result of Table 7.1 of the unprivileged ISA for DIV, DIVU, REM and REMU: at once for a zero divisor and signed overflow, otherwise after exactly 32 busy cycles |
| MulDiv.DivResultIsUnique | rtl/core/multiplier_divider.sv:123-128 | Table 7.1 determines the result |
| MulDiv.DividerUnit.Clock | rtl/core/multiplier_divider.sv:174-288 | The unit's registers, updated in place, take the specified step, and its outputs are the specified ones |
| DivideInCore.BusyIsCalc | rtl/core/rv32im_core.sv:265-280 | What holds fetch, decode and execute besides the data memory is the unit's busy output, which keeps new requests from it, so the stall is well defined |
| DivideInCore.DividerIsInvisible | rtl/core/execute_stage.sv:177-212 | Clocked together, core and unit make the run that the pipeline makes alone, with the unit as reset left it, as long as no exceptional event happens and no division starts |
| DivideInCore.DivisionIsNotAwaited | rtl/core/execute_stage.sv:177-212 | When DIV, DIVU, REM or REMU meets the idle divider, it is not held in EX; what it takes to EX/MEM is the result of Table 7.1 for a zero divisor and the signed overflow, and the sum of its operands otherwise; so it is right exactly in those cases and where SumIsResult holds of the operands |
| SumAsResult.SumIsResultExactly | rtl/core/execute_stage.sv:206-211 | For other operands the sum modulo 2^32 is the result of Table 7.1 exactly under conditions on the operands alone: DIVU, with s = x + y - 2^32, if s >= 0 and s * y <= x < s * y + y; REMU if s >= 0 and y divides 2^32; DIV if y >= 2 and x = -y - 1, or for two single pairs; REM if the signs differ and |y| <= |x| < 2|y|, or for one single pair |
| LostDivision.NineInCycle7 | rtl/core/execute_stage.sv:206-211 | In every run of a four-instruction program, whatever the data memory answers, DIV is in EX in cycle 5 with the operands 7 and 2 and the divider idle, no exception is raised, and in cycle 7 its register reads as 9, where Table 7.1 requires 3 |
| ContextSwitch.SixteenRegisterFiles | rtl/rtos/context_switch.sv:106-209 | Whenever the pipeline is not stalled, the physical register file is the running task's private one, and the banks hold those of all other tasks |
| ContextSwitch.SwitchStalls62 | rtl/rtos/context_switch.sv:98-101 | A switch stalls exactly the 62 cycles after its request and is done in the next |
| ContextSwitch.ResumedAsSuspended | rtl/rtos/context_switch.sv:106-209 | A task suspended in one cycle and next resumed in another gets back exactly the registers and PC it had, whatever ran in between, including a switch from a task to itself |
| ContextSwitch.StartsFromZero | rtl/rtos/context_switch.sv:137-209 | A task that has not run yet is given registers of zero and address 0 |
| ContextSwitch.BankUntouched | rtl/rtos/context_switch.sv:171-182 | Between two unstalled cycles, the bank and the saved PC of a task that does not run stay as they are, whatever the other tasks do |
| ContextSwitch.ContextSwitchUnit.Clock | rtl/rtos/context_switch.sv:137-209 | The unit with its bank array and saved PCs, updated in place, takes the specified step |
| Fifo.WindowNext | rtl/peripherals/uart_apb.sv:85-114 | Moving the pointers and writing one entry is one clock edge of a bounded queue |
| Fifo.RingBuffer.Clock | rtl/peripherals/uart_apb.sv:85-114 | A ring buffer with five-bit pointers is a queue of at most 16 bytes; a push into a full queue is dropped |
| Uart.Configuration | rtl/peripherals/uart_apb.sv:432-453 | Writes at 0x0C set the four flags from bits 0 to 3, writes at 0x10 the divisor, and nothing else changes them |
| Uart.StatusBits | rtl/peripherals/uart_apb.sv:470-477 | A read at 0x08 shows transmit FIFO full and empty, receive FIFO full and empty, and transmitter busy in bits 0 to 4 |
| Uart.ReadBack | rtl/peripherals/uart_apb.sv:432-483 | Flags and divisor read as they were written |
| Uart.InterruptLine | rtl/peripherals/uart_apb.sv:493-495 | The line is up exactly when software sees, in status and flags, an enabled cause |
| Uart.ReceiveRegister | rtl/peripherals/uart_apb.sv:466-469 | A read at 0x04 shows the oldest byte of the receive FIFO and takes it |
| Uart.ByteRoundTrip | rtl/peripherals/uart_apb.sv:89 | The low byte of a word written to the transmit register is the word a reader gets for it |
| Uart.Device.Outputs | rtl/peripherals/uart_apb.sv:457-495 | Read data and interrupt line |
| Uart.Device.Clock | rtl/peripherals/uart_apb.sv:85-454 | The device with its FIFO arrays, counters, state machines and registers, updated in place, takes the specified step |
| UartSampling.BeginsExactly | rtl/peripherals/uart_apb.sv:360-365 | An idle receiver begins a frame exactly if it is enabled and the pin was low two clocks before |
| UartSampling.HearsNothing | rtl/peripherals/uart_apb.sv:360-365 | An idle receiver that is disabled stays idle and hands over nothing, whatever the pin shows |
| UartSampling.TickIsOnTime | rtl/peripherals/uart_apb.sv:296-317 | Zero drift: the j-th receiver tick falls exactly floor(j * n / 16) clocks after the start was detected, for every divisor n of at least 16 |
| UartSampling.SampleTimes | rtl/peripherals/uart_apb.sv:325-412 | Data bit i is sampled exactly (i + 1) * n clocks after the detection, the start bit checked after n / 2, the byte handed over after 9 * n |
| UartSampling.FrameIsSampled | rtl/peripherals/uart_apb.sv:283-416 | For every waveform: a start bit that does not last n / 2 clocks is dropped; otherwise the receiver hands over, at 9 * n clocks and not before, the levels of the pin n, 2n, ..., 8n clocks after the edge |
| UartRates.RateTolerance | rtl/peripherals/uart_apb.sv:296-412 | A receiver with divisor n recovers every byte of a single frame with bit period m if and only if m <= n and 8 * n < 9 * m |
| UartStreams.StreamTolerance | rtl/peripherals/uart_apb.sv:283-416 | A receiver with divisor n hands over exactly the bytes of every stream of so many frames without gaps, with bit period m, if and only if m <= n and 8 * n + (frames - 1) * Lag < 9 * m, where Lag is 9 * n + 1 - 10 * m or 0 |
| UartStreams.EveryLength | rtl/peripherals/uart_apb.sv:283-416 | That holds of streams of every length if and only if m <= n and 9 * n < 10 * m |
| UartStreams.PausesTolerated | rtl/peripherals/uart_apb.sv:283-416 | Under the same condition every stream arrives whatever the pauses between its frames |
| UartStreams.FewBytes | rtl/peripherals/uart_apb.sv:357-416 | On any waveform that ends high: bytes handed over take 9 * n + 1 clocks each from one detection to the next |
| UartTransmit.FrameSent | rtl/peripherals/uart_apb.sv:196-258 | A byte taken from the FIFO is on the line as a start bit, eight data bits and a stop bit of n clocks each, from the second clock on, and the transmitter is busy for exactly 10 * n clocks |
| UartTransmit.StartsAtOnce | rtl/peripherals/uart_apb.sv:209-214 | An idle, enabled transmitter takes the oldest byte of a FIFO that is not empty in that very cycle; otherwise it stays idle and keeps the FIFO |
| UartTransmit.FifoSent | rtl/peripherals/uart_apb.sv:196-258 | Left alone, the device puts the bytes of its FIFO on the line in order, one clock apart, and is silent otherwise |
| UartTransmit.DeviceToDevice | rtl/peripherals/uart_apb.sv:69-416 | Between two devices with divisors m and n, m <= n and 9 * n < 10 * m, the receiver hands over exactly the bytes of the sender's FIFO |
| UartLoopback.SameBit | rtl/peripherals/uart_apb.sv:196-416 | In loopback, whenever the receiver samples, the transmitter is four clocks into the same bit |
| UartLoopback.StreamIsPreserved | rtl/peripherals/uart_apb.sv:69-416 | In loopback, in every reachable state and for all register accesses that keep divisor and receiver enable: bytes accepted = bytes handed over, then at most one in flight, then the transmit FIFO, in order |
| UartLoopback.ReaderSeesStream | rtl/peripherals/uart_apb.sv:116-163 | The reader sees exactly the accepted stream if and only if the receive FIFO is never full when a byte arrives |
| UartLoopback.EveryByteArrives | rtl/peripherals/uart_apb.sv:196-416 | Progress: while the transmitter is enabled, every byte accepted by cycle t has been handed over (waiting + 1) * (10 * n + 1) clocks later, waiting being the bytes in the transmit FIFO at t |
| AxiMaster.MasterDiscipline | rtl/bus/axi4_master.sv:139-279 | Against any slave, a finished read made one AR then one R transfer, a finished write one AW and one W in either order, then B, all with the command's address, data and strobes |
| AxiMaster.ValidIsStable | rtl/bus/axi4_master.sv:257-279 | Section A3.2.1 of ARM IHI 0022E: a VALID stays raised with a stable payload until READY |
| AxiMaster.MasterUnit.Clock | rtl/bus/axi4_master.sv:128-255 | The master's registers, updated in place, take the specified step |
| Interconnect.InterconnectUnit.Clock | rtl/bus/axi4_interconnect.sv:201-310 | The interconnect's registers, updated in place, take the specified step |
| ApbBridge.BridgeUnit.Clock | rtl/bus/axi4_apb_bridge.sv:108-235 | The bridge's registers, updated in place, take the specified step |
| BridgeTransactions.OneForOne | rtl/bus/axi4_apb_bridge.sv:108-272 | Against any master and any APB slave: the APB transfers are the requests taken, in order, with address and data, the last one possibly in progress; the replies are those of the transfers; no write data is taken without its address |
| BridgeTransactions.TakesWhenIdle | rtl/bus/axi4_apb_bridge.sv:119-176 | With nothing to do it takes a request in the cycle in which it is offered, a read in front of a write |
| Bus.BusSystem.Clock | rtl/bus/axi4_interconnect.sv:420-540 | The three units wired together take one step of the composition |
| Bus.ExactlyOnce | rtl/bus/axi4_interconnect.sv:201-540 | In the composition, with arbitrary commands, APB answers and slaves at all other ports: commands finish in order; one to the slave at any of the six ports made exactly one AR and one R, or one AW, one W and one B, at that port alone, with its address, data and strobes, and returned that slave's data and error; one to the APB also caused exactly one APB transfer and returned its data and error; an unmapped one caused none and returned an error; there are no other transfers at any port or on the APB |
| Bus.OnlyChance | rtl/bus/axi4_interconnect.sv:248-268 | A read whose slave is ready in the one cycle in which it sees the address goes on to its data; any other never does |
| Interconnect.AddressMap | rtl/bus/axi4_interconnect.sv:152-196 | Which port an address belongs to, by the prefixes of the address map |
| Bus.ExactLatency | rtl/bus/axi4_apb_bridge.sv:119-176 | With w wait states a read is done exactly 5 + w and a write 7 + w cycles after acceptance; 3 and 4 for unmapped addresses |
| Bus.ApbProtocol | rtl/bus/axi4_apb_bridge.sv:108-235 | Section 3 of ARM IHI 0024: one setup cycle in front of every access, a stable transfer until the slave is ready, and select drops behind it |
| Bus.MasterMoves | rtl/bus/axi4_interconnect.sv:420-540 | A command to any port goes on to its next transfer in exactly the cycle in which the slave there takes or offers the present one, with its data and error |
| Bus.FinishesAtPort | rtl/bus/axi4_interconnect.sv:242-310 | Progress at all six ports: unless its read address is lost, a command is done exactly 2 clocks after a read address or 4 after a write address is first presented, plus the clocks in which the slave there kept it waiting |
| Bus.AddressNeverLost | rtl/bus/axi4_interconnect.sv:425-459 | Whenever the interconnect is idle so is the bridge, so it takes an address in the only cycle in which it is presented |
| ByteMemory.MemoryIsByteMap | rtl/core/memory_stage.sv:61-130 | Whatever aligned loads and stores the memory stage presents to the block RAM on consecutive clock edges, each load returns after its edge, through the registered read port, what a little-endian byte map would, and the word array ends up standing for that byte map |
| ByteMemory.LoadByte | rtl/core/memory_stage.sv:97-130 | Loads 0 and 4 return the byte at the address, with its sign and without |
| ByteMemory.LoadHalf | rtl/core/memory_stage.sv:97-130 | Loads 1 and 5 return two bytes, the lower one first, with their sign and without |
| ByteMemory.LoadFour | rtl/core/memory_stage.sv:97-130 | Load 2 returns four bytes, the lowest first |
| ByteMemory.StoresByCode | rtl/core/memory_stage.sv:61-95 | Stores 0, 1 and 2 change one, two and four bytes, the lowest first, and no others |
| ByteMemory.StoreDataIs | rtl/core/memory_stage.sv:61-95 | The word that a store puts on the bus, peripherals included: its byte or halfword in its lanes, zero elsewhere |
| ByteMemory.UntouchedByte | rtl/core/memory_stage.sv:61-95 | A byte that no store addresses never changes |
| ByteMemory.BlockRam.Clock | rtl/memory/bram_dmem.sv:46-59 | Byte-enabled write into the word array, and the registered read of the old word |
| Plic.Best | rtl/interrupt/plic.sv:147-161 | Arbitration picks the lowest-numbered eligible source of maximal non-zero priority, or none |
| Plic.PlicUnit.Arbitrate | rtl/interrupt/plic.sv:147-161 | The arbitration loop computes that source and its priority |
| Plic.BestIsUnique | rtl/interrupt/plic.sv:147-161 | That description leaves no choice |
| Plic.IrqMeansAboveThreshold | rtl/interrupt/plic.sv:167-171 | The interrupt line is up exactly when some pending, enabled and unclaimed source exceeds the threshold |
| Plic.Configuration | rtl/interrupt/plic.sv:193-212 | Writes at 4 * s set the priority of source s, at 0x100 the enable bits, at 0x200 the threshold, and nothing else changes them |
| Plic.ReleasedByCompletion | rtl/interrupt/plic.sv:187-218 | In every run a source is released exactly by a write of its number at 0x204, and becomes claimed only by a read there that finds it best |
| Plic.ClaimableAgain | rtl/interrupt/plic.sv:126-218 | After its completion and a new edge, an enabled source of the highest priority is claimed by the next read at 0x204 |
| Plic.PlicUnit.ExternalIrq | rtl/interrupt/plic.sv:167-171 | The line computed from the arbitration loop is up in exactly that case |
| Plic.Conservation | rtl/interrupt/plic.sv:114-221 | In every run and for each source, with edges counted from the source line and claims and completions from the accesses at 0x204: every edge has been claimed, is pending, or found the source pending; claims and effective completions differ exactly by the claimed flag |
| Plic.PendingUntilClaimed | rtl/interrupt/plic.sv:126-138 | A pending source stays pending until it is claimed, an edge always leaves it pending, and only a pending, enabled, unclaimed source with a priority is claimed |
| Plic.PlicUnit.UpdatePending | rtl/interrupt/plic.sv:126-138 | The loop over the pending bits: an edge sets, a claim clears, the edge wins |
| Plic.PlicUnit.Clock | rtl/interrupt/plic.sv:102-221 | The controller's registers, updated in place, take the specified step |
| Clint.TimerAdvances | rtl/interrupt/clint.sv:54-67 | Without writes and below its overflow the timer counts cycles |
| Clint.Configuration | rtl/interrupt/clint.sv:54-104 | Writes at 0xBFF8, 0xBFFC, 0x4000 and 0x4004 replace one half of timer or compare register, writes at 0 the software interrupt; nothing else does |
| Clint.TimerFires | rtl/interrupt/clint.sv:54-76 | With a compare value d cycles ahead and no further writes the timer interrupt rises after exactly d cycles and stays up |
| Clint.ClintUnit.Clock | rtl/interrupt/clint.sv:54-112 | Timer, compare and software-interrupt registers take the specified step |
| Uptime.DivideLoops | sw/examples/shell.c:809-839 | The two loops compute the long division, bit by bit |
| Uptime.Div64by32IsExactUpTo31Bits | sw/examples/shell.c:809-839 | Quotient modulo 2^32 and remainder are right for every 64-bit dividend if and only if the divisor is at most 2^31 |
| Uptime.ReadTimer | sw/examples/shell.c:843-849 | The high-low-high loop ends with the first round that finds the same high word twice, and returns the timer as it stood at that round's low read |
| Uptime.TwoRoundsSuffice | sw/examples/shell.c:843-849 | Of two consecutive rounds within 2^32 cycles one finds the same high word twice |
| Uptime.ConsistentRead | sw/examples/shell.c:843-849 | Equal high words around the low read make the pair the timer at the low read |
| Uptime.Command | sw/examples/shell.c:841-864 | Days, hours, minutes and seconds are the only ones in range that make up the timer's whole seconds modulo 2^32 |
| Numbers.HexNibbleIs | sw/examples/shell.c:70-96 | The hexadecimal digits of either case have their values; no other character has one |
| Numbers.Uint32ToHex | sw/examples/shell.c:131-140 | The static buffer holds the eight digits, each the upper-case digit of its place, and a NUL |
| Numbers.HexToUint32 | sw/examples/shell.c:70-96 | The parser's loop on a NUL-terminated string |
| Numbers.HexParseIsExact | sw/examples/shell.c:70-96 | Exactly the texts of one to eight hexadecimal digits, with or without prefix, are accepted, with their value |
| Numbers.HexAccepted | sw/examples/shell.c:70-96 | Accepted are exactly one to eight of the 22 digit characters, alone or behind 0x or 0X |
| Numbers.LowerCaseParses | sw/examples/shell.c:70-96 | Every 32-bit value written in lower case is read back, with and without either prefix |
| Numbers.HexRoundTrip | sw/examples/shell.c:70-140 | Every 32-bit value survives printing and parsing, with and without either prefix |
| Numbers.Uint32ToDec | sw/examples/shell.c:150-163 | The text, filled in from the right within the 11-byte buffer, is the decimal numeral and a NUL |
| Numbers.DecToUint32 | sw/examples/shell.c:104-121 | The parser's loop on a NUL-terminated string |
| Numbers.DigitIs | sw/examples/shell.c:104-121 | The decimal digits have their values, and no other character is one |
| Numbers.NoLeadingZero | sw/examples/shell.c:150-163 | No numeral but that of zero starts with a zero |
| Numbers.DecRejects | sw/examples/shell.c:110 | Anything but digits is rejected |
| Numbers.DecParseIsRight | sw/examples/shell.c:104-121 | The parser is right about a text of digits if and only if its value fits into 32 bits or the running value modulo 2^32 shrinks somewhere |
| Numbers.OverflowUnnoticed | sw/examples/shell.c:111-113 | 4772185890 does not fit into 32 bits and should be rejected; it is accepted as 477218594 |
| Numbers.DecRoundTrip | sw/examples/shell.c:104-163 | Every 32-bit value survives printing and parsing |
| LineEditor.Readline | sw/examples/shell.c:255-299 | For every keystroke sequence the buffer is the line of a push/pop model followed by NULs, in bounds, or is emptied by Ctrl-C; the echo is the model's |
| LineEditor.TerminalShowsLine | sw/examples/shell.c:277-297 | What has been echoed, backspaces included, leaves exactly that line on a terminal |
| LineEditor.KeyByKey | sw/examples/shell.c:277-297 | Keys 8 and 127 take back the last character, keys 32 to 126 add one if it fits, every other key changes nothing |
| LineEditor.LineRead | sw/examples/shell.c:255-299 | Typing a printable text that fits and then carriage return, line feed or Ctrl-C ends the line with exactly that text |
| LineEditor.LineFits | sw/examples/shell.c:293-297 | The line never fills the buffer and holds no NUL |
| LineEditor.BufferIsLine | sw/examples/shell.c:255-299 | Read as a C string, the buffer is the line |
| LineEditor.ParseArgs | sw/examples/shell.c:315-334 | Tokenizing in place yields the first five words of the line, in order, each readable as a C string at its pointer |

## Left out

- CSR, ECALL, MRET, trap and interrupt paths of the core: the path theorems are about code that does not use them; CSR read data is not wired through EX/MEM and a trap flush also drops the instruction in MEM.
- DIV and REM inside the pipeline beyond the two cycles that show the lost result; what the core does while the abandoned division goes on.
- DivideInCore.DividerIsInvisible: runs are compared up to the first division or exceptional event.
- UartStreams.StreamTolerance: the sender's bits last a whole number of clocks, the same for all.
- The core's own context-switch and system-call state machines, debug halt and the RTOS blocks around them.
- Rv32.CoreImplementsRv32: the hypothesis that load-use replays are safe is stated on the decoded path, because the hazard unit compares raw register fields, also of instructions that do not use them; the data memory is the 16 KB RAM, whose addresses wrap around.
- Rv32.SpuriousTrap: what the core does after an exception; a run of the model ends there.
- WholeSystem.SystemRunsProgram: programs that also access peripherals; IoProgram.SystemRunsIo covers them, with wait states counted by the record of the bus in place of a closed formula.
- CoreUnit.Core.Clock: the exception, system-call, context-switch, debug and divider terms of the stall and flush signals, which are low as long as no exception is raised and no such instruction or request comes.
- Interconnect.InterconnectUnit.Clock: the transaction ID register; the master's IDs are constant.
- DataBus.AdapterUnit.Clock: the transaction ID register; the master's IDs are constant.
- ApbBridge.BridgeUnit.Clock: the transaction ID and the two flags that remember which of address and data have been received; no output depends on the flags.
- Uart.Device.Outputs: reading the receive register of an empty FIFO shows whatever the buffer holds.
- LineEditor.Readline: the key sequence is given in advance and contains a key that ends the line; the terminal is one line without wrap-around.
- Uptime.Command: the text output of the command and its leading zeros.
- Bus.ExactlyOnce: transaction IDs, burst and size signals, which are constant; the bridge drops write strobes, and the model's APB has none.
- The HyperRAM controller, GPIO, the duplicate immediate generator, the adapter in front of the instruction memory, and the top-level wiring of the peripherals.
- Metastability, unknown values, asynchronous reset timing and the iverilog variants: plain synchronous semantics after reset.
- Register read-back of the interrupt controller and the timer, apart from claims and the timer reads of the shell.
- The shell's commands, system calls and UART polling.
