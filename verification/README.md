# Lucario minikernel: a verified model

Lucario runs up to twenty user programs on one simulated decimal processor. This project models the processor with its
memory protection and interrupts, the round-robin scheduler, the partition allocator, process creation from a virtual
disk, the system calls, and the DMA handshake. It proves what the kernel is for: that programs are isolated from each
other, that multiplexing them is invisible to each of them, that none starves, and that memory is neither leaked nor
handed out twice.

The model has two levels. `Processor`, `Kernel`, `FileSystem` and `Partitions` describe the state as values and each C
function as a function on values. `Machine`, `Lucario`, `VfsStore`, `Disk` and `Mmu` are classes whose methods change
arrays and fields in place, with the loops and branches of the C code; each method is proved to have exactly the effect
of its value function. The theorems are about the value functions, single steps first, whole runs of interleaved steps
last.

| file | content |
|---|---|
| Definitions, Words | constants, C division, the sign-magnitude decimal codec |
| Processor, Machine | memory access, instructions, interrupts and system calls, as values and as code |
| Context, SystemCalls | saving a context on the user's own stack, interrupt service, blocking calls |
| DmaWindow | when DMA instructions respect the protection window |
| Instructions | what each instruction means, from the word in memory: the reference for the processor's functions |
| Storage, DmaPrograms | what is stored is there when loaded again; what a program of DMA instructions transfers |
| Privileged | masking interrupts, setting the timer, changing the mode |
| Confinement | what one cycle of a confined program can change |
| Arithmetic, UserStack | what a program can rely on across its cycles |
| Partitions, Disk, FileSystem | allocator, disk geometry, catalog and loader |
| Kernel, KernelMachine, Creation | scheduler, worker loop and createProcess, as steps and as code |
| Invariants, Scheduling | the kernel invariant, lifecycle, sleep, waiting, resources |
| Isolation, Fidelity, Progress, Multiplexing | the whole-system theorems |
| Processes | one process's own cycles in a run of the whole system, and what it computes and stacks across them |
| MonitorCalls | print and read calls in a run of the whole system, their output and their delivery |
| Handshake | the two-thread DMA protocol |

## Assumptions

* A *confined* instruction uses addressing modes 0 to 2 and is not DHAB, TTI, CHMOD, STRRX, STRRB, STRRL or a DMA
  instruction. A *guarded* DMA instruction also uses modes 0 to 2; its operand is readable, or, if it is SDMAON, the DMA
  registers ask for a transfer to disk or name a RAM cell of the program's own window. A *contained* run executes only
  confined and guarded instructions, in programs of any size that createProcess accepts. A *tame* run, which the results
  about disk files ask for, in addition transfers to no sector below the file system's cursor; nothing in the code
  prevents that, and `DmaWindow.ExtentKept` says when it destroys a file. The kernel invariant, the lifecycle, sleep and
  waiting results need none of this: they hold for any programs.
* The DMA registers are global, zero after a reset and not part of a saved context, so a program must set them itself
  before SDMAON. `DmaWindow` shows exactly when SDMAON and SDMAM respect the window, and exactly when a DMA instruction
  leaves a fault latched that then ends another process.
* Interrupt service keeps the interrupted context on the user's own stack. If fewer words fit below SP than are pushed,
  the missing ones read back as zero; `Confinement.WhatSurvives` says exactly which registers survive. PSH keeps SP at
  or above RX, the program's word count, which alone does not protect the base register of a program of one or two
  words. What does is the timer: a service follows every second cycle, and with fewer than six words below SP it resumes
  the process inside its own frame, whose words read as additions. So SP never falls below four, as
  `Confinement.DepthKept` shows with the invariant `Steady`.
* Transparency of multiplexing is about *disciplined* processes: they fetch and read only code, data and pushed words, and
  have seven words between RX and SP whenever they return from an interrupt. Other words are where frames are written,
  which a process alone on a processor without a timer would not see.
* The environment supplies, per cycle, whether the monitor is open, the typed number, and the value of the variable that
  a failed LOAD leaves uninitialised.
* While a DMA request is outstanding, other threads leave the RAM cell and the disk sector it is about alone (the loader
  writes both RAM and disk); everything else they may write.
* The C code takes no lock around the process table and the partition map. The model treats each of these as one atomic
  step: an iteration of the worker loop, the reservation of an entry, finding or loading the file, one allocator call,
  each copied word, and the publication of a new process.
* Where the code and its documentation differ the code is followed: EXIT is service 1 and not 0, STRSP and LOADSP access
  M[SP] and leave SP alone, and the data check of a memory write accepts -999999 to 33999999.

## Model
| member | source | states |
|---|---|---|
| Definitions.TruncDivMod | inc/definitions.h:221-226 | the modelled `/` and `%` satisfy C's division law, with the remainder bounded by the divisor and signed like the dividend |
| Definitions.StorableRange | inc/definitions.h:229 | the data check of a memory write holds exactly for -999999 to 33999999 |
| Words.WordToIntRange | src/hardware/cpu.c:187-189 | decoding any machine word at all gives a seven-digit value |
| Words.IntToWordRange | src/hardware/cpu.c:192-213 | encoding any integer gives a canonical, storable word that decodes to the integer cut to seven digits, hence to itself when it fits |
| Words.WordMeans | src/hardware/cpu.c:187-189 | a word is seven magnitude digits and an eighth that tells the sign |
| Words.WordRoundTrip | src/hardware/cpu.c:187-213 | encoding a decoded word gives it back if and only if the word is canonical, so negative zero is never produced |
| Words.NoIntermediateOverflow | src/hardware/cpu.c:246-292 | for any words, no sum, difference, product, quotient or effective address leaves the C type it is computed in, and the product's cut value always encodes without overflow |
| DiskDrive.Geometry | src/hardware/disk.c:7-29 | track, cylinder and sector are in bijection with linear disk positions |
| DiskDrive.Disk.ReadSector | src/hardware/disk.c:9-18 | a read inside the geometry yields that position of the disk image; outside it yields zero and an error |
| DiskDrive.Disk.WriteSector | src/hardware/disk.c:21-29 | a write changes exactly one position of the disk image, or nothing and reports an error |
| MachineState.Machine.GetPhysicalAddress | src/hardware/memory.c:25-53 | a granted user access lies in [RB,RL] and in RAM; refusals carry the right status |
| MachineState.Machine.ReadMemory | src/hardware/memory.c:56-86 | the word at the translated address, or the caller's old value when the access is refused |
| MachineState.Machine.WriteMemory | src/hardware/memory.c:89-128 | exactly one RAM word changes, and only if data check and translation pass |
| MachineState.Machine.Encode | src/hardware/cpu.c:192-213 | the branchy encoder equals the specification of the codec and sets only the condition code |
| MachineState.Machine.InternalPush | src/hardware/cpu.c:30-39 | SP moves even when the write is refused |
| MachineState.Machine.InternalPop | src/hardware/cpu.c:42-54 | SP moves and a refused read yields zero |
| MachineState.Machine.SaveContext | src/hardware/cpu.c:57-71 | seven pushes in the code's order have the effect of the list-driven specification |
| MachineState.Machine.RestoreContext | src/hardware/cpu.c:73-91 | pops refill the registers, each translated with what the previous ones restored, sparing AC after an overflow |
| MachineState.Machine.BlockOnMonitor | src/kernel/syscalls.c:46-58 | the process is marked and its saved program counter stepped back |
| MachineState.Machine.HandleSyscall | src/kernel/syscalls.c:11-160 | verdict, machine, table entry and output are those of the call specification |
| MachineState.Machine.HandleInterrupt | src/hardware/cpu.c:139-184 | each handler's effect on machine, table and output, and whether the process goes on |
| MachineState.Machine.CheckInterrupts | src/hardware/cpu.c:107-136 | the most urgent latch, and only that one, is serviced, if interrupts are enabled |
| MachineState.Machine.FetchOperand | src/hardware/cpu.c:224-243 | operand by addressing mode, with the latch each failure raises |
| MachineState.Machine.ExecuteArithmetic | src/hardware/cpu.c:246-292 | AC, flags, latch and overflow value agree with the specification for all four operations |
| MachineState.Machine.ExecuteDataMovement | src/hardware/cpu.c:308-390 | loads and stores, including the stack-top ones that keep SP |
| MachineState.Machine.ExecuteBranching | src/hardware/cpu.c:393-439 | a jump is taken exactly when AC and M[SP] compare as the opcode says |
| MachineState.Machine.ExecuteComparison | src/hardware/cpu.c:442-461 | only the condition code changes |
| MachineState.Machine.ExecuteDma | src/hardware/cpu.c:464-546 | DMA register setting and transfer, keeping the registers inside the disk geometry |
| MachineState.Machine.DmaTransfer | src/hardware/dma.c:28-63 | one pass of the worker's body has the effect of the atomic transfer |
| MachineState.Machine.ExecuteStackManipulation | src/hardware/cpu.c:549-578 | PSH and POP with their guards |
| MachineState.Machine.ExecuteReturn | src/hardware/cpu.c:587-597 | the return address is popped without a guard |
| MachineState.Machine.Fetch | src/hardware/cpu.c:600-619 | a successful fetch advances the program counter, a refused one changes only MAR |
| MachineState.Machine.Execute | src/hardware/cpu.c:631-713 | every opcode is dispatched to its specification |
| MachineState.Machine.CpuStep | src/hardware/cpu.c:716-745 | a whole cycle equals the value-level step, in registers, RAM, disk, latches, process table and output |
| Context.SaveContextEffect | src/hardware/cpu.c:57-71 | with seven words of room and storable registers the frame holds every saved register and nothing else changes |
| Context.RestoreContextEffect | src/hardware/cpu.c:73-91 | a frame restores to exactly the registers it holds although mode and base are popped while translation depends on them |
| Context.ContextRoundTrip | src/hardware/cpu.c:57-91 | save then restore returns every register and alters no RAM but the seven words below SP, in user and kernel mode |
| Context.TransparentService | src/hardware/cpu.c:107-136 | timer, I/O completion and unknown services resume the process with every register intact |
| Context.ArithmeticEffect | src/hardware/cpu.c:246-292 | AC decodes to the unbounded result cut to seven digits, and an overflow is latched if and only if digits were lost |
| Context.OverflowServiceAgrees | src/hardware/cpu.c:139-153 | the handler recomputes the very word the ALU stored; every register including the overflow flag survives |
| Context.OverflowCycle | src/hardware/cpu.c:716-745 | a whole overflowing cycle leaves the cut result, the overflow flag, the next instruction, and only dead words changed |
| Context.UnderflowService | src/hardware/cpu.c:154-157 | the underflow handler leaves zero in AC and every other register as it was |
| Instructions.DecodeFields | src/hardware/cpu.c:622-628 | opcode, mode and value are read back from the decimal digits of any instruction word |
| Instructions.OperandFetched | src/hardware/cpu.c:216-243 | the operand is the value field, or the word at that address, or at the address plus the decoded AC; the fetch fails exactly when that word is unreadable |
| Instructions.CycleCompletes | src/hardware/cpu.c:716-745 | with room for a frame, a cycle that faults nowhere ends with the registers the instruction left, whatever is serviced |
| Instructions.LoadMeans | src/hardware/cpu.c:321-369 | LOAD leaves its operand in AC, LOADRX, LOADRB and LOADRL their register and LOADSP the stack top; the condition code tells zero and sign digit, nothing else changes |
| Instructions.FlagIsSign | src/hardware/cpu.c:17-28 | the condition code after a load is the sign of the loaded value |
| Instructions.StoreMeans | src/hardware/cpu.c:312-347 | STR and STRSP change exactly the cell they name, if it is writable and AC between -999999 and 33999999, and otherwise only latch an invalid address |
| Instructions.RegisterStoreMeans | src/hardware/cpu.c:329-340 | STRRX, STRRB and STRRL set their own register and nothing else |
| Instructions.BranchMeans | src/hardware/cpu.c:393-439 | opcodes 9 to 12 jump exactly if AC equals, differs from, is less or greater than the stack top, and otherwise go on; nothing else changes |
| Instructions.PushMeans | src/hardware/cpu.c:549-558 | PSH stores AC one below SP and moves SP, or latches an invalid address, before moving SP at RX and after moving it where the store is refused; no other register changes |
| Instructions.PopMeans | src/hardware/cpu.c:559-571 | POP loads the word at SP with its condition code and moves SP, or at RL only latches an invalid address |
| Instructions.ReturnMeans | src/hardware/cpu.c:587-597 | RETRN goes where the word at SP says, moves SP and changes nothing else |
| Instructions.NoStackTop | src/hardware/cpu.c:393-408 | with an unreadable stack top the conditional jumps and RETRN latch an invalid address and do nothing else |
| Instructions.JumpMeans | src/hardware/cpu.c:394-397 | J goes to the named address and changes nothing else |
| Instructions.ComparisonMeans | src/hardware/cpu.c:442-461 | COMP sets the condition code to how AC compares with the operand, or to overflow, and nothing else |
| Instructions.EnableMeans | src/hardware/cpu.c:295-305 | HAB and DHAB switch interrupts on and off and nothing else |
| Instructions.ModeMeans | src/hardware/cpu.c:676-685 | CHMOD 0 and 1 select user and kernel mode and nothing else; other values only latch an invalid instruction |
| Instructions.TimerMeans | src/hardware/cpu.c:666-675 | TTI sets the interval, a negative operand as an unsigned 64-bit number, and nothing else |
| Instructions.CallMeans | src/hardware/cpu.c:581-584 | SVC latches a system call and changes nothing else |
| Instructions.NoOperand | src/hardware/cpu.c:224-243 | arithmetic, comparison and TTI without an operand only latch an invalid address, or for an unknown mode an invalid instruction |
| Instructions.LoadWithoutOperand | src/hardware/cpu.c:321-376 | LOAD without an operand leaves the operand variable's contents in AC and latches an invalid address |
| Instructions.DivisionByZero | src/hardware/cpu.c:267-273 | division by zero latches an invalid instruction, sets the overflow code and keeps AC |
| Instructions.UndefinedOpcode | src/hardware/cpu.c:708-713 | an opcode beyond the last latches an invalid instruction and changes nothing else |
| SystemCalls.HandlerEffect | src/kernel/syscalls.c:11-160 | outcome of every service in terms of the user's own registers and stack top, and which frame word it rewrites |
| SystemCalls.CallService | src/kernel/syscalls.c:11-160 | a serviced call ends the process exactly in the stated cases and otherwise returns the stated registers, touching only dead words |
| SystemCalls.BlockedCallRestarts | src/kernel/syscalls.c:46-58 | a call that finds the monitor closed leaves all visible registers as before its fetch, back on the SVC, and yields |
| SystemCalls.OpenCallPrints | src/kernel/syscalls.c:32-45 | with the monitor open the stack top is printed and the next instruction follows |
| SystemCalls.ServiceMeans | src/kernel/syscalls.c:11-160 | service 1 ends the process; 4 sleeps for the number on the stack, goes on for zero, and ends it for a negative or unreadable one; unknown numbers do nothing |
| Privileged.MaskedRun | src/hardware/cpu.c:107-110 | from DHAB to the next HAB no interrupt is serviced and no latch lost: every cycle survives without effect and without asking for a reschedule |
| Privileged.UnmaskingServices | src/hardware/cpu.c:107-136 | HAB services, in its own cycle, the most urgent of everything latched meanwhile, and keeps the rest |
| Privileged.MostUrgentFirst | src/hardware/cpu.c:112-123 | the latch serviced is set and comes before every other set one in the order faults, overflow, underflow, call, timer, I/O |
| Privileged.CycleCountsOne | src/hardware/cpu.c:738-742 | a whole cycle, service included, moves the count on by one, wrapping at 64 bits, and latches the timer exactly when the interval is over |
| Privileged.TimerPeriod | src/hardware/cpu.c:666-745 | over a run of whole cycles with TTI at most in the first, interrupts serviced on the way, the timer is first latched at the end of exactly the cycle in which the count reaches the interval, an unsigned 64-bit number; at once if it is already exceeded, never if it is zero |
| Privileged.ChangedMode | src/hardware/cpu.c:676-685 | after CHMOD 1 exactly RAM is addressable, absolutely; after CHMOD 0 exactly the window [RB,RL]; any other operand faults and changes no register |
| Confinement.ConfinedExecute | src/hardware/cpu.c:631-713 | a confined instruction keeps bounds and mode, writes only inside the partition, lowers SP only by PSH, and latches at most one synchronous interrupt, in which case it falls through |
| Confinement.ConfinedCycle | src/hardware/cpu.c:716-745 | the same for a cycle up to the interrupt check, with the timer latched exactly every second cycle |
| Confinement.SaveStays | src/hardware/cpu.c:30-71 | which words of a frame are written for every stack pointer, and that nothing else is |
| Confinement.RestoreStays | src/hardware/cpu.c:73-91 | bounds and mode come back whenever SP is at least three |
| Confinement.ConfinedService | src/hardware/cpu.c:107-184 | no interrupt service of a confined process leaves its partition or changes its bounds |
| Confinement.ShortService | src/hardware/cpu.c:57-91 | with fewer than six words below SP a serviced process resumes at zero and its first words are the frame |
| Confinement.AsynchronousService | src/hardware/cpu.c:57-136 | a timer or I/O interrupt always resumes the process; AC comes back if seven words fit below SP and is zero otherwise |
| Confinement.ServiceSettles | src/hardware/cpu.c:57-91 | after any service the process has six words below SP or is about to run its own frame |
| Confinement.DepthKept | src/hardware/cpu.c:552-558 | in programs of any size SP stays at four or above, because at most two pushes fit between services and a frame pushes nothing |
| Confinement.ConfinedStep | src/hardware/cpu.c:716-745 | one cycle of a confined program of any size changes RAM only in its own partition, no disk, no DMA, no bounds, leaves no synchronous latch behind, and keeps the depth invariant |
| Confinement.ContainedStep | src/hardware/cpu.c:716-745 | the same for guarded DMA instructions, except that the DMA registers and, by a transfer to disk, the disk may change |
| DmaWindow.DmaStaysWithin | src/hardware/dma.c:37-51 | a user-mode DMA instruction changes RAM outside [RB,RL] if and only if it is SDMAON, the direction is to RAM, the address is outside, and the value differs |
| DmaWindow.DmaCycleStaysWithin | src/hardware/cpu.c:716-745 | the same condition for a whole cycle with its interrupt service |
| DmaWindow.AddressSet | src/hardware/cpu.c:498-518 | SDMAM with a readable operand v sets RB+v or faults and leaves the address; what it sets is in the window if and only if v is not negative |
| DmaWindow.FreshSdmaonLeavesWindow | src/hardware/dma.c:68-69 | the concrete new process whose first instruction, SDMAON with the registers as reset, writes RAM cell 0 |
| DmaWindow.ExtentKept | src/hardware/dma.c:40-45 | a transfer to disk keeps an extent if and only if its sector is outside or already holds the value |
| DmaWindow.FaultLeftBehind | src/hardware/cpu.c:464-546 | a DMA cycle leaves a fault latched after its process has ended if and only if its operand fetch and the value left in the operand variable raise different faults |
| DmaWindow.LeftoverFaultEnds | src/hardware/cpu.c:107-136 | such a fault ends the next process to run, whatever confined instruction it executes |
| DmaPrograms.SetterMeans | src/hardware/cpu.c:469-502 | SDMAP, SDMAC, SDMAS and SDMAIO set their own register to an operand in range and leave the others, or latch an invalid instruction and leave them all |
| DmaPrograms.SetterWithoutOperand | src/hardware/cpu.c:464-546 | without an operand they latch a fault but still set their register to the operand variable's contents, if in range |
| DmaPrograms.AddressMeans | src/hardware/cpu.c:503-522 | SDMAM sets the physical address, the operand in kernel mode and RB plus the operand in user mode, or latches the fault of an address beyond RL or outside RAM and leaves it |
| DmaPrograms.StartMeans | src/hardware/dma.c:37-63 | SDMAON moves one word between cell and disk position 1000t + 100c + s in the direction set, and nothing else |
| DmaPrograms.ProgramTransfers | src/hardware/cpu.c:464-546 | after the five setters and SDMAON, across interrupts and preemption, the position holds the cell, or the cell the position, and nothing else on the disk or in the window has moved but dead stack words |
| Confinement.WhatSurvives | src/hardware/cpu.c:30-91 | base, program counter and accumulator survive an interrupt if and only if three, six and seven words fit below SP (or the lost value was zero) |
| Arithmetic.ArithmeticStep | src/hardware/cpu.c:246-292 | one cycle leaves the cut exact result whether it overflowed, was preempted, or neither |
| Arithmetic.RingCongruence | src/hardware/cpu.c:192-213 | cutting to seven digits is a congruence for sum, difference and product |
| Arithmetic.ArithmeticHomomorphism | src/hardware/cpu.c:246-292 | after any run of sums, differences and products AC is congruent to the unbounded result modulo ten million, and equal if nothing overflowed |
| Instructions.ArithmeticMeans | src/hardware/cpu.c:246-292 | a whole cycle leaves x + w, x - w or x * w cut to seven digits, or the one quotient whose remainder is smaller than the divisor and signed like the dividend, with the condition code of the result |
| Instructions.SumThenDifference | src/hardware/cpu.c:246-292 | RES undoes SUM across interrupts and preemption if and only if the sum fits in seven digits |
| Storage.CellKept | src/hardware/memory.c:89-128 | a cycle keeps every cell that it does not store to and that its interrupt frame does not cover |
| Storage.StoreThenLoad | src/hardware/cpu.c:312-327 | a store, any cycles that leave the cell alone, and a load from it leave the stored word in AC, across interrupts and preemption |
| UserStack.PushGuard | src/hardware/cpu.c:552-558 | PSH succeeds if and only if the stack is below its capacity and AC is storable |
| UserStack.PopGuard | src/hardware/cpu.c:559-566 | POP succeeds if and only if the stack is not empty |
| UserStack.ReturnPops | src/hardware/cpu.c:587-597 | RETRN stays on the stack if and only if there is a word to return to, and then pops it and goes where it says |
| UserStack.StackCycle | src/hardware/cpu.c:549-597 | a whole cycle, interrupts included and however little room their frames have, does to the stack what the instruction does to a list; a popped word reaches AC, and a return address PC, if it is storable and no service with fewer than seven, or six, words below SP follows in the same cycle, after which it reads as zero |
| UserStack.DeepWordsKept | src/hardware/cpu.c:549-597 | a computation that stays above a level, subroutine returns included, keeps every word below it, across interrupts and preemption, up to a full stack |
| UserStack.PopReturnsLatest | src/hardware/cpu.c:549-578 | POP at the level of a PSH restores the stack and returns the pushed word, or zero exactly when an interrupt in its own cycle finds fewer than seven words below SP |
| UserStack.FreshStackRoom | src/kernel/core.c:182-185 | a new process, of any size, has an empty stack and room for at least 49 pushes |
| Partitions.RequiredBlocksLeast | src/kernel/mmu.c:15-20 | the block count is the least that covers the words plus 50, and zero exactly for empty or oversized programs |
| Partitions.BoundsOfRanges | inc/kernel/mmu.h:17-19 | register bounds of any range lie in user RAM, and are ordered exactly as the ranges are |
| Partitions.FitFrom | src/kernel/mmu.c:23-42 | the result is a free run with no free run before it, or -1 with none at all |
| Partitions.FirstFitComplete | src/kernel/mmu.c:23-42 | allocation fails exactly when no free run of that length exists, and otherwise takes the lowest |
| Partitions.Mmu.MmuInit | src/kernel/mmu.c:10-12 | all partitions become free |
| Partitions.Mmu.AllocateMemory | src/kernel/mmu.c:23-42 | the single scan with a running count finds the first fit and marks exactly that run |
| Partitions.Mmu.FreeMemory | src/kernel/mmu.c:45-53 | exactly the given range becomes free, or nothing and an error |
| FileSystem.FindFrom | src/kernel/vfs.c:31-49 | the first entry that path or program name identifies |
| FileSystem.LoadKeepsCatalog | src/kernel/vfs.c:88-140 | extents stay disjoint, in order and below the cursor, earlier entries stay, and nothing below the old cursor is written, also on failure |
| FileSystem.LoadSucceedsWhen | src/kernel/vfs.c:88-140 | a load succeeds if and only if path or name is known, or the file exists, fits and an entry is left; it is not found exactly if the host has no such file |
| FileSystem.LoadAppends | src/kernel/vfs.c:107-140 | a new file is written, zero-padded, from the cursor on, which moves behind it, and gets the next entry; with the catalog full the space is lost |
| FileSystem.LoadStoresFile | src/kernel/vfs.c:88-140 | after success the path is found and, if new, its extent holds the file word for word |
| FileSystem.EarlierFilesSurvive | src/kernel/vfs.c:117-134 | a file below the cursor keeps its contents whatever is written beyond it |
| FileSystem.VfsStore.Find | src/kernel/vfs.c:31-49 | the search loop returns the first match |
| FileSystem.VfsStore.RegisterFile | src/kernel/vfs.c:52-76 | one entry is appended, or nothing when twenty are taken |
| FileSystem.VfsStore.AppendWord | src/kernel/vfs.c:120-133 | one word at the cursor, which carries into cylinder and track as a linear successor |
| FileSystem.VfsStore.WriteProgram | src/kernel/vfs.c:117-134 | the loop writes the zero-padded file at consecutive positions |
| FileSystem.VfsStore.Load | src/kernel/vfs.c:88-140 | loading equals its specification on catalog, cursor, disk and status, error paths included |
| Kernel.FreeSlotFrom | src/kernel/core.c:94-101 | the first FINISHED slot, or none |
| KernelMachine.Lucario.constructor | src/kernel/core.c:78-91 | boot leaves everything free and finished |
| KernelMachine.Lucario.SwitchOut | src/kernel/scheduler.c:11-37 | sleepers age, waiters unblock and the active context is saved, entry by entry |
| KernelMachine.Lucario.PickNext | src/kernel/scheduler.c:39-50 | the circular search loop returns the first READY slot after the active one |
| KernelMachine.Lucario.SchedulerTick | src/kernel/scheduler.c:8-70 | the in-place tick equals the value-level one on the whole state |
| KernelMachine.Lucario.Reclaim | src/kernel/core.c:33-39 | an ended process gives back its range and its entry |
| KernelMachine.Lucario.WorkerIteration | src/kernel/core.c:29-51 | one turn of the worker loop equals the value-level iteration on the whole state |
| KernelMachine.Lucario.GetFreePcbIndex | src/kernel/core.c:94-101 | the first FINISHED slot, or -1 |
| KernelMachine.Lucario.CopyProgram | src/kernel/core.c:149-167 | the three-radix copy loop equals copying word after word |
| KernelMachine.Lucario.CreateProcess | src/kernel/core.c:104-202 | the whole call equals the staged creation run without interference, in state and status |
| Creation.CreateKeepsInvariant | src/kernel/core.c:104-202 | an uninterrupted creation keeps the kernel invariant and leaves nothing in flight |
| Creation.FailedCreationChangesNothing | src/kernel/core.c:107-144 | every error path leaves table, partition map, identities and RAM as they were |
| Creation.CreationSucceedsWhen | src/kernel/core.c:104-202 | the status exactly: no FINISHED entry, else neither known nor loadable, else no free run of the required length, else success |
| Creation.CreatedProcess | src/kernel/core.c:170-194 | success turns the first FINISHED entry into a READY process with the next identifier in the lowest free run, with the stated registers, and leaves every other entry alone |
| Invariants.ReleaseClaim | src/kernel/core.c:37 | giving back one claim keeps the map equal to the disjoint union of the rest |
| Invariants.TakeClaim | src/kernel/core.c:136-144 | a claim on a free run is disjoint from all others |
| Invariants.TickKeepsInvariant | src/kernel/scheduler.c:8-70 | after a tick exactly the active slot is EXECUTING and all claims, identities and counters stand |
| Invariants.IdleOnlyWithoutReady | src/kernel/scheduler.c:52-69 | the CPU goes idle if and only if the tick saw no READY process |
| Invariants.ScanComplete | src/kernel/scheduler.c:41-50 | the scan returns the READY slot first in circular order, and none only if there is none |
| Invariants.BlockingYields | src/kernel/syscalls.c:46-58 | blocking effects come only from a surviving process that asked for a reschedule |
| Invariants.WorkerKeepsInvariant | src/kernel/core.c:29-51 | every iteration, including termination, keeps the invariant |
| Invariants.StepKeepsInvariant | src/kernel/core.c:23-202 | every step of worker, loader and user keeps it |
| Invariants.RunKeepsInvariant | src/kernel/core.c:23-202 | in every state of every run, for any programs: occupied partitions are the disjoint union of live and in-flight claims, live identifiers are distinct, a process is blocked exactly while its counter is positive, exactly the active slot executes, the catalog is well formed |
| Scheduling.TransitionsAreLegal | inc/definitions.h:132-139 | every state change in every step is an edge of the lifecycle |
| Scheduling.SleeperCountsTicks | src/kernel/scheduler.c:11-20 | a sleeper stays blocked, its counter exact, through all but its last tick and is awake after that one |
| Scheduling.SleepIsExact | src/kernel/syscalls.c:125-149 | a process asking for n ticks is blocked until, and ready at, exactly the n-th, counting the one that switches it out |
| Scheduling.WaitBegins | src/kernel/syscalls.c:46-58 | a call that finds the monitor closed blocks its process for it |
| Scheduling.WaitIsExact | src/kernel/scheduler.c:22-30 | it stays blocked up to the first tick that finds the monitor open, and is awake after that one |
| Scheduling.TickPicksNext | src/kernel/scheduler.c:39-69 | a tick dispatches the READY process that comes first after the active slot going round, from idle the lowest, and none only if there is none |
| Scheduling.TickServesOrAdvances | src/kernel/scheduler.c:39-69 | a tick dispatches a READY slot or strictly lowers its circular distance |
| Scheduling.BoundedWaiting | src/kernel/scheduler.c:39-69 | while a READY process waits, the number of ticks is at most its distance, below twenty, whatever else happens |
| Scheduling.FreeBlocksBounded | src/kernel/mmu.c:23-53 | free partitions plus entries holding memory never exceed twenty |
| Scheduling.SlotsOutlastMemory | src/kernel/core.c:107-111 | the process table is full only when no partition is free either |
| Isolation.ClaimsApart | inc/kernel/mmu.h:17-19 | different processes' RAM windows are disjoint and inside user RAM |
| Isolation.IterationWritesOwnPartition | src/hardware/memory.c:25-53 | an iteration writes RAM only in the active process's own window, and no disk |
| Isolation.StepKeepsFence | src/kernel/core.c:149-194 | every contained step keeps each live process in user mode inside exactly the partitions it owns |
| Isolation.StepSparesSuspended | src/kernel/scheduler.c:32-62 | no step touches identity, registers or memory of a process that is not active |
| Isolation.SuspendedProcessIsPreserved | src/kernel/scheduler.c:32-62 | over any stretch of a run, a suspended process keeps all registers and every word of its partitions, and is dispatched with exactly those |
| Isolation.EveryContainedRunIsSafe | src/kernel/core.c:78-91 | from boot on, invariant and fence hold in every state of every contained run |
| Fidelity.FilesSurviveRuns | src/kernel/vfs.c:88-140 | a stored file stays intact on disk and a copy in progress stays faithful through any tame run |
| Fidelity.LaunchedProcessRunsItsFile | src/kernel/core.c:130-194 | a process launched after any interleaving has the host file word for word at its base, and starts where the file says |
| Progress.OnlyOverflowOrCall | src/hardware/cpu.c:107-136 | while the timer is pending a cycle that does not tick serviced an overflow or a call and fell through to the next instruction |
| Progress.ShortDelay | src/hardware/cpu.c:30-54 | where the program counter cannot be saved the frame itself runs next, so at most two more cycles pass before the timer is serviced |
| Progress.CycleSpendsBudget | src/hardware/cpu.c:738-744 | every cycle that neither ends nor yields uses up budget: a delayed timer lets only overflows and calls pass, each moving one instruction on or running out of overflows |
| Progress.QuantumEnds | src/kernel/core.c:29-45 | without a tick at most the partition's size plus two cycles pass |
| Progress.DispatchedWithin | src/kernel/core.c:29-51 | a READY process is dispatched within fewer than 20 * 1703 worker iterations |
| Progress.ServedWithin | src/kernel/scheduler.c:8-70 | every live process, ready, asleep or waiting for a monitor that is open, takes a cycle within Patience worker iterations |
| Progress.PatienceBounds | src/kernel/scheduler.c:8-70 | Patience is at most 34061 + 1703 per remaining tick of sleep + 1702 |
| Multiplexing.TwinExecute | src/hardware/cpu.c:631-713 | an instruction has equal results and equal latches on machines that agree on registers and live memory |
| Multiplexing.TwinInterrupts | src/hardware/cpu.c:107-136 | interrupt service keeps such machines in agreement although only one of them has a timer |
| Multiplexing.TwinStep | src/hardware/cpu.c:716-745 | a preempted cycle and its dedicated twin meet the same fate with the same effect |
| Multiplexing.MultiplexingIsTransparent | src/kernel/scheduler.c:32-62 | in any contained run, a disciplined process's observations, its death by a fault or a call included, are exactly those of its solitary run without a timer, and its registers and live memory agree with it throughout |
| Processes.SuspensionIsUndisturbed | src/kernel/scheduler.c:32-62 | from any state of a contained run to a process's next own cycle, nothing that process can observe changes |
| Processes.OwnCyclesChain | src/kernel/core.c:29-51 | the own cycles of a process that lives through a contained run form a chain of surviving cycles with no observable change in between, which is what the single-process results assume |
| Processes.ArithmeticSurvivesPreemption | src/hardware/cpu.c:246-292 | the arithmetic homomorphism holds over the own cycles of a process in any contained run |
| Processes.StackSurvivesPreemption | src/hardware/cpu.c:549-578 | over the own cycles of a process in any contained run, a word pushed, then stayed above, then popped leaves the stack as before and AC as PopReturnsLatest says |
| MonitorCalls.CallServedOnce | src/kernel/syscalls.c:32-123 | in a run of the whole system a print or read call only waits, all visible registers as before, in each of its cycles with a closed monitor; the first with an open one serves it and the process goes on behind the call |
| MonitorCalls.PrintsExactlyOnce | src/kernel/syscalls.c:32-58 | a print call prints once, the value first on its stack when the run began |
| MonitorCalls.ReadsExactlyOnce | src/kernel/syscalls.c:60-123 | a read call leaves in AC the number typed in its first cycle with an open monitor, cut to seven digits |
| MonitorCalls.OutputIsTrace | src/kernel/core.c:29-51 | in any run, the lines shown for a process are exactly those its own cycles ask for, in order |
| MonitorCalls.PrintAppearsOnce | src/kernel/syscalls.c:32-58 | the output of a process at a print call grows by exactly one line, with that value, up to and including its first cycle with an open monitor |
| MonitorCalls.CallServedInTime | src/kernel/syscalls.c:32-123 | while the monitor stays open, a pending call of a live process, blocked on it, asleep or ready, is served within Patience worker iterations, with its line shown or its number delivered |
| Handshake.InitialGood | src/hardware/dma.c:17-21 | the protocol starts in a good state |
| Handshake.MoveKeepsGood | src/hardware/dma.c:23-65 | every move of either thread or of others keeps mutual exclusion, the no-lost-wake-up property and the value in flight |
| Handshake.RunKeepsGood | src/hardware/dma.c:23-65 | the same over every interleaving, spurious wake-ups included |
| Handshake.NoSelfDeadlock | src/hardware/dma.c:40-50 | no thread is ever about to lock the bus while holding it |
| Handshake.RegistersFrozen | src/hardware/dma.c:28-46 | DMA registers do not change while a request is outstanding, and the invalid-address branch is never taken |
| Handshake.RequestIsOneTransfer | src/hardware/dma.c:23-65 | in any interleaving, from the request to SDMAON's return exactly one transfer completes, cell and sector hold the source's value at the request, and RAM, disk, DMA registers and latches are those of the atomic transfer on the starting state with what others wrote meanwhile |
| Handshake.ThreadsTransfer | src/hardware/cpu.c:523-534 | with nobody else writing, any run of the two threads from request to return, spurious wake-ups included, ends in exactly the atomic transfer of the starting state |
| Handshake.TransferMoves | src/hardware/dma.c:37-63 | the atomic transfer makes cell and sector equal to what the source held and changes nothing else |
| Handshake.SettersKeepValid | src/hardware/cpu.c:469-522 | DMA instructions keep the registers inside geometry and RAM for any operand |
| Handshake.MovesApproachReturn | src/hardware/dma.c:23-65 | thread steps bring an outstanding request strictly closer to its return and nobody sets it back |
| Handshake.NeverStuck | src/hardware/dma.c:26 | unless somebody else holds the bus, one of the two threads can step |
| Handshake.RequestCompletes | src/hardware/cpu.c:530-532 | an outstanding request completes within eleven thread steps in any interleaving |

## Left out

* The console, the logger, terminal handling and C I/O; printing is an append to an output trace.
* Parsing of program files: a host file is its start, name, word count and words, zero-padded as readProgramWord does.
* The debug and restart commands and the legacy loader, which overwrite the CPU outside the scheduler's protocol.
* Data races on unlocked globals, sleeps, real time, thread start-up order, and strings beyond 255 characters.
* Wrap-around of the process identifier counter after 2^31 creations.
* Whole-system theorems for programs that change their own protection, the timer or the interrupt mask, or use the DMA
  unguarded. The processor model itself covers all of them.
* DMA instructions run their transfer atomically in the processor model; that this is what the two threads achieve is
  the subject of `Handshake`.
* The typed number -2147483648, whose negation in intToWord overflows C's int; `Typed` excludes it.
