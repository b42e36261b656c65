# PIO simulator: model and proofs

A Dafny model of a simulator for the RP2350's programmable I/O: the state machine
engine, the pads, the DMA controller, the assembler and the clock tree, with proofs
about every run, every program text and every register sequence. The modelled build
is the default one (`PIO_SIM_PIO_VERSION` 1: 48 GPIOs, three blocks, 16 DMA channels).

Layout, one module per file unless noted:

- `Bits`, `ReverseWord` (in `Bits.dfy`), `PinMask`, `Options`: 32-bit words as bit
  sequences, machine-integer bit reversal, 64-bit pin masks.
- `Fifo`, `Isa`, `Pads`, `Machine`, `Runs`: the engine. A tick is a list of small acts
  (open the write window, clock one state machine, close, clock the synchroniser); host
  calls are acts too. A run is any list of acts, so theorems over runs cover standalone
  ticks, group ticks and host calls in any order.
- `Instructions`, `WaitPin`, `Window`, `Relocate`, `Shift`, `Autopush`, `Ws2812`,
  `Handshake`, `Rate`: theorems about the engine. `PadResolve`, `TickPads`, `PadRuns`,
  `PadLevels`, `PadInit`: pad arbitration. `StateMachine` (over `FifoRing.Ring`),
  `Simulator`: shift-register handlers, tick and pin-write loops in place, each proved equal to its engine function.
- `Gpio`, `GpioRegisters`: the pad registers as masks, as values and in place.
- `Crc`, `Dma`, `DmaFairness`, `DmaStarvation`, `DmaChain`, `DmaCopy`, `DmaSniff`,
  `DmaTimer`, `Echo`: the DMA controller and its theorems; `DmaController`: the
  controller in place.
- `Expr`, `ExprRoundTrip`, `Defines`, `Resolvable`, `ExprEvaluator`, `Assembler`,
  `AssemblerPasses`, `Loading`: expressions, defines, the three passes,
  and the way from accepted lines to loaded programs.
- `ClockTree`: frequency and time conversions.

Reading notes where the code decides:

- The clock accumulator survives a divider change, so rate exactness needs
  `clk_accum` below the divider; `Rate.RateExactIff` gives the exact condition, for
  every number of ticks and for every positive one.
- `rr_next` is shared by both DMA priority classes, so a normal channel can starve even
  when high-priority traffic fills only half the ticks: `DmaStarvation.NoBoundInGeneral`
  builds the controller, `DmaFairness.WaitingBoundedIff` gives the exact condition.
- Parsing goes on after an error; only the verdict changes. Literals keep their first 33
  characters, over-long names are refused.
- The override pipeline drives low when LOW and HIGH are both set while the getter
  reports HIGH; no operation sequence reaches that state.
- `sm_init` clears the enable flag without resolving the pads, so directions can go
  stale: `PadInit.InitCurrentIff` says when, `PadInit.InitLeavesStale` gives an input.
  Group sharing repoints pads without resolving. Neither is an act of a run.
- Transfer counts are unbounded in the model, so `DmaStarvation.NoBoundInGeneral` fits
  the 32-bit count for n up to 2^32 - 2.

## Model

| member | source | states |
|---|---|---|
| Bits.DecrementIsMinusOne | lib/src/pio_sim.c:1109-1149 | the borrow used by `x--`/`y--` is arithmetic minus one, wrapping from 0 to the maximum |
| ReverseWord.Reverse32Involution | lib/src/pio_sim_internal.h:36-45 | reversing twice gives every word back |
| ReverseWord.Reverse32IsReverse | lib/src/pio_sim_internal.h:36-45 | the five swap stages are bit reversal: the result read from the top shows the argument read from the bottom, for every prefix length |
| ReverseWord.SwapNetworkReverses | lib/src/pio_sim_internal.h:36-45 | the bit sequence of the swapped word is the reversed bit sequence of the argument |
| FifoRing.RingRefinesQueue | lib/src/pio_sim.c:16-43 | every sequence of push/pop/clear on the ring behaves like a bounded FIFO queue of its capacity |
| FifoRing.Fifo.Push | lib/src/pio_sim.c:23-32 | accepts exactly when there is room, and then appends the word to the contents |
| FifoRing.Fifo.Pop | lib/src/pio_sim.c:34-43 | delivers the oldest word exactly when there is one |
| FifoRing.Ring.Push | lib/src/pio_sim.c:23-32 | the in-place ring update has the queue's effect |
| FifoRing.Ring.Pop | lib/src/pio_sim.c:34-43 | the in-place ring update has the queue's effect |
| FifoRing.Ring.Store | lib/src/pio_sim.c:1441-1464 | a register-file write replaces one slot in place and leaves the cursors alone |
| Isa.EncodeDecode | lib/src/pio_sim.c:1946-2042 | for every encodable operation and delay field, the emitted word decodes to the same operation, operands (32 as field 0) and field |
| Isa.PlaceIsOr | lib/src/pio_sim.c:1946-2042 | the encoders' OR of fields has no overlap: it is the sum of the shifted fields |
| Isa.PackAccepts | lib/src/pio_asm.c:758-801 | exactly the delay/side-set requests that fit the declaration are accepted |
| Isa.PackDecode | lib/src/pio_asm.c:758-801 | an accepted request decodes to the same delay and the same, possibly absent, side value |
| Isa.WordSplit | lib/src/pio_sim.c:1577-1629 | every 16-bit word is exactly its opcode, delay and operand fields |
| Machine.ExecOp | lib/src/pio_sim.c:1577-1629 | every instruction leaves configuration, clock, delay, stall flag and all other state machines alone, and touches pads only by re-resolving them when its outputs change |
| Instructions.IrqFieldNames | lib/src/pio_sim.c:1169-1225 | the index field the assembler builds for a plain, prev, next or rel index is the block and flag the engine then addresses, the relative number rotating inside its group of four |
| Instructions.JmpMeans | lib/src/pio_sim.c:1109-1149 | a JMP is taken exactly when its numeric condition holds; X and Y change only by the post-decrement, taken or not |
| WaitPin.StaysUntilSeen | lib/src/pio_sim.c:1227-1263 | a machine at a pin WAIT stays there, program counter unmoved, through every run in which none of its cycles finds the wanted level, whatever other machines and the host do |
| WaitPin.ReleasedExactlyWhenSeen | lib/src/pio_sim.c:1227-1263 | after every such run its next cycle leaves the WAIT exactly when the sampled GPIO, PIN or JMPPIN level is the wanted one; a PIN index beyond the IN count reads low |
| Instructions.DelayLoopLasts | lib/src/pio_sim.c:1652-1729 | `loop: jmp x-- loop [d]` started with X = n is left after (n+1)(d+1) cycles with X at its maximum |
| Instructions.DelayLoopHolds | lib/src/pio_sim.c:1652-1729 | through the first n(d+1) cycles the program counter stays on that loop |
| Runs.EnvActFrame | lib/src/pio_sim.c:694-710 | host calls change at most enable flag, write window, FIFOs and debug flags of a state machine, each only by its own call |
| Runs.DoKeepsCode | lib/src/pio_sim.c:1652-1729 | no tick and no host act rewrites instruction memory |
| Window.ActConfined | lib/src/pio_sim.c:1652-1729 | a machine whose own window closes under its jumps and wrap never leaves it, under every act and whatever the rest of the memory holds |
| Relocate.RelocationPreservesRuns | lib/src/pio_asm.c:2111-2154 | loading at any fitting offset is in lock step with loading at 0 through every run: same registers, FIFOs, IRQs and pads at every act, pc shifted, never leaving the program |
| Relocate.LoadsStartInLockStep | lib/src/pio_asm.c:2111-2154 | two loads of the same position-independent program start in lock step |
| Relocate.LoadMem | lib/src/pio_asm.c:2111-2154 | a load puts each relocated word in its own slot, marks it used, and leaves every other slot as it was |
| Relocate.DecodeRelocated | lib/src/pio_asm.c:2119-2128 | relocating a JMP whose target stays below 32 shifts exactly the target; condition and delay field stay |
| Relocate.RelocateAll | lib/src/pio_asm.c:2119-2128 | the loader's loop relocates every word of the program |
| PadResolve.ResolveDirection | lib/src/pio_sim.c:164-206 | a claimed pin takes the direction of its greatest claimant under (enabled, owner slot, state machine number) |
| PadResolve.ResolveUnclaimed | lib/src/pio_sim.c:164-206 | an unclaimed pin is an input |
| PadResolve.DirectionDecided | lib/src/pio_sim.c:164-206 | every pin is unclaimed or has a greatest claimant |
| PadResolve.ResolveLevel | lib/src/pio_sim.c:164-206 | a pin's level is that of its last writer of the cycle, or the latched one |
| PadResolve.LevelDecided | lib/src/pio_sim.c:164-206 | every pin is unwritten or has a last writer |
| PadResolve.ResolveLoops | lib/src/pio_sim.c:164-206 | the two priority loops, written as loops over running masks, compute that resolution |
| TickPads.TickResolvesOnce | lib/src/pio_sim.c:1733-1769 | all the resolves inside a tick equal one resolve at its end from the levels at its start |
| TickPads.GroupTickResolvesOnce | lib/src/pio_sim.c:1865-1890 | the same for a group tick of blocks on shared pads |
| TickPads.LevelAfterTick | lib/src/pio_sim.c:1733-1769 | after every tick a pin has the level of its last routed writer of the tick, or keeps the level it had before |
| TickPads.LevelAfterGroupTick | lib/src/pio_sim.c:1865-1890 | the same after a group tick, over the writers of all blocks |
| PadRuns.RunsStayCurrent | lib/src/pio_sim.c:803-847 | after every step of every run (ticks, pin and pindir writes by programs and host, forced instructions, enable edges, FUNCSEL writes) the directions are what arbitration gives the current registers |
| PadRuns.DirectionInEveryRun | lib/src/pio_sim.c:164-206 | pin by pin: in every state such a run reaches the greatest routed claimant decides and an unclaimed pin is an input |
| PadRuns.EnableCurrent | lib/src/pio_sim.c:266-272 | an enable edge re-resolves: directions are current after it |
| PadRuns.RouteCurrent | lib/src/pio_gpio.c:36-66 | a FUNCSEL write re-resolves: directions are current after it |
| PadRuns.ForceCurrent | lib/src/pio_sim.c:1908-1942 | a forced instruction leaves directions current, stalled or not |
| PadRuns.HostStepCurrent | lib/src/pio_sim.c:608-625 | engine acts, host pindir writes and forced instructions each leave directions current |
| PadLevels.LevelsInEveryRun | lib/src/pio_sim.c:164-206 | in every run of engine acts and host calls, after a step that resolves a pad set and until code runs or a window opens, each pin with a routed writer has its last writer's level |
| PadLevels.StepSettled | lib/src/pio_sim.c:164-206 | each resolving step establishes this, and every other step that runs no code and opens no window keeps it |
| PadInit.InitCurrentIff | lib/src/pio_sim.c:577-606 | directions are still the arbitration's after an initialisation iff each pin's winner before and its winner after agree on the direction |
| PadInit.InitSafe | lib/src/pio_sim.c:577-606 | they are when the machine was disabled already or drives no routed direction |
| PadInit.InitLeavesStale | lib/src/pio_sim.c:577-606 | they are not in a concrete world: an enabled output machine is initialised while a disabled one claims its pin as input |
| Simulator.DriveLoop | lib/src/pio_sim.c:803-833 | the per-pin write loop sets exactly the span's ones, clears the rest of the span and records the span, wrap-around of the 32-pin window included |
| Simulator.Simulation.ClearWrites | lib/src/pio_sim.c:1735-1740 | the loop opens the write window of the four state machines and changes nothing else |
| Simulator.Simulation.ClockOne | lib/src/pio_sim.c:1741-1765 | the in-place divider step and cycle is the engine's clock step |
| Simulator.Simulation.TickBlock | lib/src/pio_sim.c:1733-1769 | the tick loop is the act list of a block tick |
| Simulator.Simulation.TickGroup | lib/src/pio_sim.c:1865-1890 | the group tick loops are the act list of a group tick, the shared synchroniser clocked once |
| Shift.SerialiseRoundTrip | lib/src/pio_sim.c:1344-1370 | for every word and every split of 32 into chunks, OUT then IN of each chunk rebuilds the word when directions match |
| Shift.OppositeDirectionsSwap | lib/src/pio_sim.c:1265-1299 | 32 one-bit steps in opposite directions deliver pio_reverse32 of the word, the swap network itself |
| Shift.MovReverseSwaps | lib/src/pio_sim.c:1468-1480 | MOV with `::` delivers pio_reverse32 of its source |
| Shift.OutThenIn | lib/src/pio_sim.c:1265-1299 | the chunk transfer is what the OUT and IN instructions do to OSR and ISR |
| Shift.AutopullStreamsExactly | lib/src/pio_sim.c:963-972 | over every run of a machine whose own window holds OUTs of one width and no PULL, whatever else the block's memory holds: bits delivered by OUT plus the stream left equal the stream at the start plus the words put, each word giving its first t bits in shift order |
| Autopush.AutopushDeliversExactly | lib/src/pio_sim.c:1265-1299 | over every run of a machine whose own window holds INs of one width and no PUSH, whatever else the block's memory holds: bits read by the host plus bits still collected equal the bits collected before plus the bits IN sampled, in order; a stalled IN samples nothing |
| Autopush.InGathers | lib/src/pio_sim.c:1265-1299 | an IN that does not stall adds exactly its bits in arrival order, pushing the ISR when the threshold is reached |
| Autopush.GetReads | lib/src/pio_sim.c:703-710 | a host read takes exactly the oldest pushed word's bits |
| StateMachine.Registers.In | lib/src/pio_sim.c:1265-1299 | in place: stall before shifting when the push would not fit, else shift, count and drain |
| StateMachine.Registers.Out | lib/src/pio_sim.c:1344-1370 | in place: stall on an exhausted OSR, else deliver and remove the bits in shift order |
| StateMachine.Registers.Push | lib/src/pio_sim.c:1388-1407 | in place: IfFull, register-file and full-FIFO cases of PUSH |
| StateMachine.Registers.Pull | lib/src/pio_sim.c:1408-1433 | in place: IfEmpty, the autopull barrier, substitution from X and refill of PULL |
| StateMachine.Registers.MovFromRxFifo | lib/src/pio_sim.c:1441-1464 | in place: OSR from the RX register file, in get modes only |
| StateMachine.Registers.MovToRxFifo | lib/src/pio_sim.c:1441-1464 | in place: ISR to the RX register file, in put modes only |
| StateMachine.Registers.RefillOsr | lib/src/pio_sim.c:963-972 | in place: one TX word into the OSR exactly when there is one |
| StateMachine.Registers.TopUp | lib/src/pio_sim.c:1665-1667 | in place: the background refill at the top of a cycle |
| StateMachine.Registers.DrainIsr | lib/src/pio_sim.c:975-983 | in place: the ISR into RX exactly when there is room |
| StateMachine.Registers.Commit | lib/src/pio_sim.c:1691-1728 | in place: the stall flag, the injection slot and the delay after a presentation |
| Ws2812.FrameStep | examples/04_ws2812.c:26-39 | every cycle advances the ten-cycle frame by one position, except a stall while waiting for a bit |
| Ws2812.WaveformFollowsBits | examples/04_ws2812.c:26-39 | over every run the machine's side-set output follows the frame clock driven by the bits taken, cycle by cycle, from any position of the frame |
| Ws2812.RunDrawsFrames | examples/04_ws2812.c:26-39 | in every run from the start of a frame, the levels are a prefix of: for each bit OUT delivered, its stall cycles low, then three low, two high and five at the bit's level |
| Ws2812.FramesAreTheWords | examples/04_ws2812.c:26-39 | and those bits, followed by the stream still pending, are the bits of the TX words in order |
| Ws2812.PadShowsLevel | lib/src/pio_sim.c:164-206 | after a tick in which the machine is the last writer of its side-set pin, the pad itself has the level the frame prescribes |
| Handshake.FirstPresentationRaises | lib/src/pio_sim.c:1517-1547 | the first presentation of `irq n wait` raises its flag and parks the machine for at least that cycle |
| Handshake.RetryPolls | lib/src/pio_sim.c:1517-1547 | later presentations never raise; the instruction commits exactly when it sees the flag clear |
| Handshake.WaitConsumes | lib/src/pio_sim.c:1227-1263 | `wait 1 irq` commits exactly when it finds the flag raised, and takes it down |
| Handshake.OneRaisePerCommit | lib/src/pio_sim.c:1691-1697 | over every run, the raises and commits of an `irq wait` balance, one parked at most |
| Handshake.OneReleasePerRise | lib/src/pio_sim.c:1227-1263 | over every run, across state machines and linked blocks, commits of `wait 1 irq` never exceed the rises of its flag |
| Rate.PhaseConserved | lib/src/pio_sim.c:1741-1765 | over every run each tick adds 256 of phase, each due cycle removes one divider, and the accumulator stays below it |
| Rate.RateIsExact | lib/src/pio_sim.c:1741-1765 | n ticks from accumulator a < D give exactly floor((a + 256 n) / D) cycles and leave the remainder |
| Rate.EqualDividersStayInPhase | lib/src/pio_sim.c:435-442 | machines started in phase with equal dividers have had equally many cycles after every equal number of ticks |
| Rate.RateExactIff | lib/src/pio_sim.c:544-575 | with an accumulator a kept across a divider change: the count is floor((a + 256 n) / D) for every n iff a < D, and for every n >= 1 iff a + 256 < 2 D |
| Rate.CyclesAreTicks | lib/src/pio_sim.c:1741-1765 | in every run, from any accumulator, the cycles a machine got depend only on its divider, its accumulator and its number of ticks |
| Rate.AccumulatorFits | lib/src/pio_sim.c:1741-1765 | in range, the accumulator never leaves 32 bits |
| DmaFairness.BoundedWaiting | lib/src/pio_dma.c:496-513 | a channel that bids in every round, high priority or unopposed by high priority, is served within 16 rounds |
| DmaFairness.ReadyChannelIsServed | lib/src/pio_dma.c:490-513 | the same for the real controller: a channel ready at every arbitration is served within 16 ticks under that side condition |
| DmaFairness.WaitingBoundedIff | lib/src/pio_dma.c:496-513 | for the set of channels configured high priority: a channel that always bids is served within 16 rounds of every schedule iff it is in that set or the set is empty |
| DmaStarvation.NoBoundInGeneral | lib/src/pio_dma.c:490-513 | otherwise no bound exists: for every n there is a controller state whose channel 5 is ready at n consecutive arbitrations and chosen at none, with high-priority traffic in every second tick only |
| DmaStarvation.ReadyButNeverServed | lib/src/pio_dma.c:490-513 | the same for every controller in that pattern, through its timers, transfers and seat updates |
| DmaFairness.PickNearest | lib/src/pio_dma.c:496-513 | the scan serves the ready channel at the least cyclic distance from the seat |
| DmaChain.CountsNeverUnderflow | lib/src/pio_dma.c:478-487 | in every reachable state a busy channel has a positive count, so the decrement never wraps |
| DmaChain.TransferChannel | lib/src/pio_dma.c:471-487 | what a transfer does to every channel's busy flag, count, program and interrupt, chaining and NULL triggers included |
| DmaChain.TickPassesToken | lib/src/pio_dma.c:159-187 | in a ring of chained channels one tick passes the busy token if it served the ring and otherwise keeps it |
| DmaChain.RingRunsForever | lib/src/pio_dma.c:159-187 | with no outside trigger or abort exactly one ring channel is busy after every tick of every run, at the place the served count determines |
| DmaChain.FullRun | lib/src/pio_dma.c:159-187 | each ring channel runs its full reload count before the token moves on with the next channel's reload |
| DmaChain.RingInterrupts | lib/src/pio_dma.c:478-487 | a ring channel's INTR is raised at the end of its run exactly when it is not quiet, and at no other time |
| DmaCopy.CursorsFollow | lib/src/pio_dma.c:397-417 | in every run the k-th element's addresses are fixed, linear, or window base + (low + k bytes) mod 2^ring |
| DmaCopy.CopyIsExact | lib/src/pio_dma.c:431-469 | however paced and whatever other channels do, as long as their writes (`OthersWrite`) miss source and destination: after k elements the destination holds the k source elements, bytes reversed per element iff bswap, and nothing else changed but where the others wrote |
| DmaCopy.CopyCompletes | lib/src/pio_dma.c:431-469 | when a copy channel nobody chains into goes idle the whole block is copied, other channels running elsewhere |
| DmaCopy.DisjointIsApart | lib/src/pio_dma.c:431-469 | disjoint linear regions satisfy the copy's side condition |
| DmaCopy.OthersStayAway | lib/src/pio_dma.c:397-417 | channels programmed to write FIFOs, one place, a ring window or upwards outside a region write nothing in it over any run: the copy's condition read off the channel table |
| DmaCopy.MovedByte | lib/src/pio_dma.c:419-429 | the byte swapper reverses the bytes of the element and keeps them otherwise |
| DmaSniff.SnifferFoldsReads | lib/src/pio_dma.c:431-454 | in every run, however paced and whatever other channels do, the accumulator is the CRC fold of exactly the bytes the sniffed channel read, in order |
| DmaSniff.SniffedCopy | lib/src/pio_dma.c:295-334 | for a block copy, other channels running elsewhere: after k elements it is the CRC of the first k elements' source bytes, whatever the element size |
| DmaTimer.PacingConserved | lib/src/pio_dma.c:219-231 | over every run phase gained equals requests plus phase left, and every paced transfer spends its own request |
| DmaTimer.TimerRateIsExact | lib/src/pio_dma.c:209-231 | a timer set to num <= den makes exactly floor(n num / den) requests in n ticks and paces at most that many transfers over all channels |
| DmaTimer.RateExactIff | lib/src/pio_dma.c:219-231 | for a fresh timer the rate is exact for every n iff num <= den |
| DmaController.Controller.AdvanceTimers | lib/src/pio_dma.c:219-231 | the timer loop steps every timer once |
| DmaController.Controller.StartMask | lib/src/pio_dma.c:159-178 | the trigger loop loads counts, marks busy and raises quiet NULL triggers, channel by channel |
| DmaController.Controller.TransferOne | lib/src/pio_dma.c:431-488 | the in-place transfer, byte loops included, is the transfer on values |
| DmaController.Controller.RunTick | lib/src/pio_dma.c:496-513 | the two nested scans serve exactly the arbitration's choice and report whether an element moved |
| DmaController.Controller.LoadBytes | lib/src/pio_dma.c:436-447 | the little-endian assembly loop reads the element's bytes in address order |
| Echo.EchoConserves | lib/src/pio_dma.c:431-513 | with one channel memory to TXF, one RXF to memory and the pull/mov/push loop running, every interleaving of acts and DMA ticks keeps: words taken = words delivered ++ RX ++ in flight ++ TX, memory elsewhere unchanged |
| Echo.EchoFromIdle | examples/02_fifo_echo.c:21-26 | from an idle line the same, stated between source and destination memory |
| Echo.TransferKeepsDebug | lib/src/pio_dma.c:364-391 | no transfer of any channel, however programmed, sets TXOVER, RXUNDER or another debug flag: every DMA put and get succeeds |
| Echo.TickKeepsDebug | lib/src/pio_dma.c:490-513 | the same for a whole DMA tick |
| Echo.CycleMoves | lib/src/pio_sim.c:1382-1433 | a cycle of the echo loop moves the word one place or stalls, keeping contents and order |
| Crc.ReflectedIsConjugate | lib/src/pio_dma.c:275-293 | the reflected byte update is the bit-reversal conjugate of the MSB-first one, for every polynomial and width |
| Crc.Crc32Conjugate | lib/src/pio_dma.c:295-334 | the CRC-32 pair of the sniffer, polynomial of section 3.2.9 of IEEE 802.3 |
| Crc.Crc16Conjugate | lib/src/pio_dma.c:295-334 | the 16-bit pair on its low 16 bits |
| Crc.PolynomialsReflect | lib/src/pio_dma.c:295-334 | the reflected polynomial constants are the mirrors of the direct ones |
| Crc.UpdateMsbLoop | lib/src/pio_dma.c:275-283 | the eight-round loop computes the byte update |
| Crc.UpdateLsbLoop | lib/src/pio_dma.c:285-293 | the eight-round loop computes the reflected byte update |
| Crc.ElementSizeIrrelevant | lib/src/pio_dma.c:295-334 | in all four CRC modes the accumulator depends only on the byte stream, not on how elements cut it (`DmaSniff` states it over runs) |
| Gpio.PipelineIsPerPin | lib/src/pio_sim.c:71-148 | the 64-bit mask pipeline (mux, overrides, output disable, isolation, external, keeper, pulls, float, IE and INOVER) computes one per-pin function on every pin |
| Gpio.WordsRefineSets | lib/src/pio_sim.c:71-120 | the mask pipeline is the engine's pin-set pipeline |
| Gpio.SetPipelineIsPerPin | lib/src/pio_sim.c:95-135 | live level, input view and keeper of the pin-set pipeline are the same per-pin function |
| Gpio.OverrideHonouredIff | lib/src/pio_gpio.c:109-121 | the pipeline does what the override getter reports, for both levels, iff LOW and HIGH are not both set |
| Gpio.OverrideWritten | lib/src/pio_gpio.c:83-89 | an override write reads back as written on its pin, stays one-hot, and changes no other pin |
| Gpio.AlwaysSound | lib/src/pio_gpio.c:36-121 | under every sequence of register operations the caches agree with FUNCSEL on physical pins and overrides stay one-hot |
| Gpio.InitialSound | lib/src/pio_sim.c:138-148 | the initial pad set has agreeing caches and one-hot overrides |
| Gpio.IsoFreezes | lib/src/pio_gpio.c:232-246 | while ISO stays set a pin's drive is constant under every sequence of other operations short of a pad reset |
| Gpio.IsoRaisesSmoothly | lib/src/pio_gpio.c:232-246 | raising ISO changes no pin's drive at that moment |
| GpioRegisters.Registers.ApplyFuncsel | lib/src/pio_gpio.c:36-58 | the nested loops rebuild exactly the caches the FUNCSEL table prescribes |
| GpioRegisters.Registers.SetFunction | lib/src/pio_gpio.c:68-76 | stores the truncated FUNCSEL and rebuilds the caches |
| GpioRegisters.Registers.SetIso | lib/src/pio_gpio.c:232-246 | latches the drive on a rising ISO, in place |
| GpioRegisters.Registers.GetOutOver | lib/src/pio_gpio.c:109-127 | the getter reads the pin's override in HIGH, LOW, INVERT order |
| GpioRegisters.Registers.ResetHw | lib/src/pio_gpio.c:254-272 | the pad reset values, isolation included |
| ExprRoundTrip.PrintThenParse | lib/src/pio_asm.c:285-489 | for every tree within the caps, the text printed with parentheses only where precedence needs them parses back to that tree |
| ExprRoundTrip.Reads | lib/src/pio_asm.c:285-489 | every tier, at any position and depth, reads exactly the text printed for it and stops at what follows |
| Defines.PrintedValue | lib/src/pio_asm.c:491-501 | resolving the printed text of a tree yields its wrapping 64-bit value truncated to 32 bits |
| Defines.ResolveIsDenotation | lib/src/pio_asm.c:211-248 | memoised, cycle-checked resolution succeeds exactly when the text has a value in the memo-free denotation, with that value; flags are restored and memoised values stay correct (`Resolvable.ResolvesExactlyWhenClean` says when it has one) |
| Defines.EvalSound | lib/src/pio_asm.c:211-248 | whatever the memo holds, evaluation keeps it correct, and a delivered value is the denotation |
| Defines.EvalComplete | lib/src/pio_asm.c:211-248 | a tree with a denotation evaluates to it, as long as nothing it needs is on the stack |
| Resolvable.ResolvesExactlyWhenClean | lib/src/pio_asm.c:211-248 | resolution succeeds exactly when every reachable text parses, every reachable name is declared, no reachable operation is illegal and no reachable define lies on a reference cycle; the value is then the denotation |
| Resolvable.CleanHasValue | lib/src/pio_asm.c:211-248 | a clean text has a value already at a nesting depth of the number of defines |
| Resolvable.ValueIsClean | lib/src/pio_asm.c:211-248 | a text with a value at any depth is clean throughout what it reaches |
| Defines.QuotientTruncates | lib/src/pio_asm.c:383-412 | division truncates toward zero: the remainder is smaller than the divisor with the dividend's sign |
| ExprEvaluator.ParseUint | lib/src/pio_asm.c:70-115 | the digit loop with its overflow test returns exactly the positional value when that fits 32 bits |
| ExprEvaluator.Context.Resolve | lib/src/pio_asm.c:491-501 | the cursor evaluator's result, verdict and table are those of parse-then-evaluate |
| ExprEvaluator.Context.Value | lib/src/pio_asm.c:211-248 | in-place lazy resolution of a define, flags and memo included |
| ExprEvaluator.Cursor.Reverse | lib/src/pio_asm.c:467-486 | the `::` tier with its depth counter |
| ExprEvaluator.Cursor.Binary | lib/src/pio_asm.c:366-461 | the left-associative operator loops of the four binary tiers |
| ExprEvaluator.Cursor.Primary | lib/src/pio_asm.c:285-364 | operands: unary minus over a multiplicative chain, parentheses, literals, names |
| ExprEvaluator.Cursor.ScanLiteral | lib/src/pio_asm.c:305-318 | a literal keeps its first 33 characters and the cursor passes all of them |
| ExprEvaluator.Cursor.ScanName | lib/src/pio_asm.c:328-346 | a name over 31 characters is refused |
| AssemblerPasses.PassesAgree | lib/src/pio_asm.c:1990-2040 | every pass that gets through some lines has selected the same program and counted the same slots, at most 32 |
| AssemblerPasses.ScanRecords | lib/src/pio_asm.c:1881-1930 | the scan maps every declared label to the slot of the line that declares it |
| AssemblerPasses.ScanOnlyDeclared | lib/src/pio_asm.c:1881-1930 | and every name the scan adds is declared by an active line |
| AssemblerPasses.EmitFills | lib/src/pio_asm.c:1932-1958 | the emit pass puts every slot line's word into the slot counted for that line, where it stays |
| AssemblerPasses.EveryLineEmitted | lib/src/pio_asm.c:2042-2109 | for every accepted program each line's word decodes to the operation, delay and optional side value that the line's operand, delay and side texts denote over the collected symbols; a .word is its value |
| AssemblerPasses.JumpReachesLabel | lib/src/pio_asm.c:812-857 | a JMP to a label, declared before or after, emits a jump to the slot of the declaring line, with the delay and side value its texts denote |
| AssemblerPasses.WrapWithinProgram | lib/src/pio_asm.c:2069-2084 | on success 1 <= count <= 32 with wrap_bottom and wrap_top below count |
| AssemblerPasses.EncodeCarries | lib/src/pio_asm.c:1324-1343 | a packed word carries its operation, delay and side value |
| AssemblerPasses.CheckedIsEncodable | lib/src/pio_asm.c:812-1284 | operand values that pass the encoders' range checks always fit their instruction fields |
| AssemblerPasses.RunPassLoop | lib/src/pio_asm.c:1990-2040 | the line loop, with its stop at the next program and at the first error, is the pass |
| Loading.AcceptedIsRelocatable | lib/src/pio_asm.c:1990-2154 | every accepted program whose JMPs go to labels at instructions and whose other lines, raw words included, write neither PC nor EXEC, wrapping or jumping at its end, meets the loader's relocation condition |
| Loading.AcceptedRunsAnywhere | lib/src/pio_asm.c:2111-2154 | from text to runs: such a program loaded at two offsets runs in lock step through every run |
| Loading.LoadedJump | lib/src/pio_asm.c:2111-2128 | after a load at offset a the JMP of a line, fetched from a plus its slot, goes to a plus the slot of the line that declares its label |
| Loading.SlotTaken | lib/src/pio_asm.c:1932-1958 | every slot below the count was filled by some active line |
| ClockTree.SysHzBounds | lib/src/pio_clk.c:83-96 | a valid tree runs at 1 Hz to 1.6 GHz, its source over the 16.16 divider rounded to nearest |
| ClockTree.NoOverflow | lib/src/pio_clk.c:83-96 | no 64-bit intermediate of a valid tree overflows |
| ClockTree.InvalidIsZero | lib/src/pio_clk.c:83-96 | the frequency is 0 exactly for invalid trees |
| ClockTree.RoundIsExact | lib/src/pio_clk.c:102-110 | the split form is round(ticks scale / hz) modulo 2^64, hence exact iff that fits |
| ClockTree.CeilIsExact | lib/src/pio_clk.c:116-121 | the split form is ceil(time hz / scale) modulo 2^64, hence exact iff that fits |
| ClockTree.NeverShort | lib/src/pio_clk.c:123-136 | ticks_to_ns(ns_to_ticks(x)) >= x whenever both conversions fit |
| ClockTree.NeverShortInRange | lib/src/pio_clk.c:123-136 | in particular for every x below 2^63 ns |
| ClockTree.TicksSurvive | lib/src/pio_clk.c:123-136 | ns_to_ticks(ticks_to_ns(t)) is t or t + 1 |
| ClockTree.NeverShortUs | lib/src/pio_clk.c:128-141 | ticks_to_us(us_to_ticks(x)) >= x whenever both conversions fit |
| ClockTree.ClockRegisters.ConfigurePll | lib/src/pio_clk.c:67-81 | a PLL change is all or nothing, so a valid tree stays valid |
| ClockTree.BootFrequency | lib/src/pio_clk.c:14-27 | the default tree is valid and runs at 150 MHz |

## Left out

- Callbacks (device, trace and completion hooks): foreign code, treated as absent.
- Character-level text handling of the assembler (tokens, comments, verbatim blocks, error strings) and the keyword tables: a line arrives as its instruction shape with the texts of its operands, delay and side value, which are resolved as expressions in the emit pass.
- Pass-1 metadata directives other than side-set and wrap: one item that is legal or not. The public-label export after the passes and its limit of eight are not modelled.
- `.clock_div` and the floating-point divider setter: the divider starts from its integer and fraction.
- DRIVE, SLEWFAST and SCHMITT fields, interrupt routing lines and plain getters and setters: stored values without behaviour.
- set_pc, restart, FIFO clearing and reconfiguration between acts are not acts of a run; runs start from any valid state, so they may precede one. Host pindir writes and forced instructions are steps of the runs of `PadRuns` and `PadLevels` only.
- Nested EXEC and configuration structures that bypass the clamping setters.
- The handlers of JMP, WAIT, IRQ, SET, MOV and of OUT destinations update a state machine record as a value; aliasing inside a block is not modelled. Shift-register and FIFO handlers, tick, pin-write, CRC, DMA, FUNCSEL, expression and pass loops are also modelled in place.
- In the engine a 64-bit pin mask is the set of its one bits (`Gpio.WordsRefineSets` connects the two).
- `Runs.Route`: a FUNCSEL write reaches the engine as new caches plus a resolve.
- GpioRegisters.Registers.SetFunction: takes the resolved direction and level words as arguments; `PadResolve` computes them.
- DmaCopy.CopyIsExact: no other channel may chain into the copying one; a channel chained into after its block starts another copy.
- Host memory is an unbounded byte map; pointer width only bounds the ring size.
- The RP2040 variants.
- Runs.EnvActFrame: covers the acts of a run only; host calls that are not acts are not framed.
- Machine.ExecOp: its own contract is the frame; what the instructions do is stated by the lemmas of Instructions, Shift, Handshake, Echo and Ws2812.
