# Verified model of the emulation cores

A Dafny model of three linked parts of the emulator, and proofs about it.

* **Alarm queue** (`Clocks`, `Options`, `AlarmQueue`, `AlarmDispatch`). The event scheduler: an
  array of pending alarms with back-pointers and a cached minimum, and the doubly linked list of
  all alarms, as classes with heap state. It refines a map from alarm to clock, and draining it is
  earliest-deadline-first.
* **ACIA 6551** (`Bits`, `AciaModel`, `AciaLaws`, `AciaRuns`, `AciaSnapshot`, `Acia`). The serial chip
  on that queue: a class that owns two alarms of a shared context, proved step by step and over any
  sequence of calls against a pure state machine, laws of that machine in register values and cycles,
  and theorems about its whole runs.
* **CPU cores**. `Mos6510` is a reference instruction set on plain values. `Core6510` (batched
  cycles, one store per read-modify-write) and `Core6510Dtv` (one cycle at a time, dummy writes) are
  imperative models of the two 6510 cores on the same `Machine6510`; each is proved equal to the
  reference for every opcode, so they agree (`CoresAgree`). `Decode` and `OpcodeTable` hold the
  opcode map, `RegisterMacros` and `OpcodeMacros` the macros that both cores share, and `Laws6510` says
  of opcode bytes, cells and bits what the reference does. On top of it stand `RmwCompositions`, `Stack6510` and `StackRuns`. `DecimalArithmetic` and
  `MultiPrecision` compare decimal arithmetic across the 6510, 65C02 and 65816. `Wdc65816`,
  `Opcodes65816`, `Core65816`, `ModeRuns`, `LongStackPairs`, `Interrupts65816`, `BlockMove` and
  `MoveRuns` model the 65816: its modes over every opcode, its stack and its block moves. `Laws65816`
  and `StackLaws65816` say in bits, cells and numbers what each of its macros does.

Check everything with `dafny verify dfyconfig.toml` (Dafny 4.11).

## Main results

1. The two 6510 cores agree over any run of all 256 opcodes and interrupt entries, in state and cycle
   count: `CoresAgree.Lockstep`, through `Core6510Batched.Step` and `Core6510PerCycle.Step`.
2. The alarm array with its back-pointers and cached minimum refines a map:
   `AlarmQueue.AlarmContext.Set`, `AlarmQueue.AlarmContext.Unset`.
3. `PROCESS_ALARMS` ends, is earliest-deadline-first, and does to the queue exactly what its callbacks
   ask for: `AlarmDispatch.ProcessAlarms`; with the ACIA on the queue, `Acia6551.Acia.ProcessAlarms`.
4. The queue survives rebasing exactly when all deadlines wrap alike, and dispatch then calls the
   same alarm with the same offset: `AlarmQueue.AlarmContext.TimeWarp`,
   `AlarmDispatch.DispatchAcrossWarp`.
5. The alarm list survives any creation and destruction, and destroying the context visits each alarm
   once: `AlarmQueue.AlarmContext.Destroy`, `AlarmQueue.AlarmContext.DestroyAll`.
6. The ACIA class follows the pure machine over any legal sequence of calls, among those of other chips,
   flags and queue agreeing throughout: `Acia6551.Acia.PerformAll`. Of that machine: `AciaRuns.RunKeepsSafe`,
   `AciaRuns.TransmitSpacing`, which `AciaRuns.SpacingAttained` shows to be tight,
   `AciaRuns.BytesConserved`, `AciaRuns.SentIsLastWritten`.
7. Snapshots of the ACIA round-trip: `AciaSnapshot.RoundTrip`.
8. Chained decimal and binary arithmetic of any length is exact on all the chips, with the exact
   conditions where one is not: `MultiPrecision.DecimalSumExact`,
   `MultiPrecision.DecimalDifferenceExact`, `MultiPrecision.BinaryChainExact`,
   `MultiPrecision.BinaryOverflowExact` and the chain of each adder and subtracter,
   `MultiPrecision.DecimalChain6510` to `MultiPrecision.WideBinaryChain65816`.
9. The 65816 keeps its mode invariant over every run of all 256 opcodes: `ModeRuns.RunKeepsModes`,
   which `Core65816.Cpu.Run` executes.
10. A block move, run by the main loop, fetches its opcode before each byte under an exact condition on
    what it writes, and then copies its block under an exact condition on the block, whatever the
    overlap: `MoveRuns.FetchedEachTime`, `MoveRuns.CopiedExactly`, `MoveRuns.BlockMoved`.
11. The long stack pairs of the 65816 undo each other under exact conditions:
    `LongStackPairs.LongCallExact`, `LongStackPairs.IndirectCallExact`, `LongStackPairs.DirectPairExact`.
12. Runs of the 6510 that nest properly keep the stack: `StackRuns.RunKeepsStack`, `StackRuns.RunRestores`.
13. The undocumented read-modify-write opcodes are compositions on both cores:
    `Core6510Batched.ReadModify`, `Core6510PerCycle.ReadModify`, `RmwCompositions.OnBatchedCore`,
    `RmwCompositions.OnPerCycleCore`; in two instructions exactly if `RmwCompositions.InTwoInstructions`.
14. What a model and its specification have in common is fixed from outside as well, by opcode bytes,
    memory cells, bits and numbers: branch targets, bitwise operations and interrupt entries of the 6510
    (`Laws6510.BranchExact`, `Laws6510.LogicExact`, `Laws6510.Handlers`), every opcode and macro of the
    65816 (`Opcodes65816.MacroByFields`, `Laws65816.TickDecodes` and the laws after it), and the character
    time and registers of the ACIA (`AciaLaws.TicksExact` and the laws after it).

## Conventions

* CPU registers of the 6510 are 8 bits, of the 65816 as its core file lists them. Constant masks are
  written as division and remainder, wrap-around and truncation explicitly.
* The registers of a core, and those of the ACIA, are one struct-valued field of their class.
* Memory is flat RAM in an array. A dummy read of flat RAM changes nothing and is left out; dummy
  writes and their cycles are modelled. The RMW flag, which only memory-mapped hardware looks at, is
  left out with it.
* The opcode switches of both 6510 cores list the same operation and mode for each opcode, so one
  table stands for both; what each core does for them is modelled separately.
* A turn of the 65816's loop is given what the addressing modes deliver: the operand, the address of
  the result and where the PC goes on. What the macro then does with it, to registers, flags and
  memory, and every macro of the modes, the index registers, the stack, the block moves and the
  interrupts, is modelled in full.
* Alarm clocks wrap at 32 bits; the CPU cycle count of the 6510 models does not.
* Rates are real numbers; a character takes at least one tick exactly when cycles per second times
  frame bits reach the bits per second.
* `PROCESS_ALARMS` and dispatch are stated for CPU clocks below the all-ones value: at that value the
  loop would dispatch from an empty queue.

## Where the code is weaker than one would expect

* After `alarm_context_time_warp` the cache is right if and only if every deadline wraps like the
  cached clock, as the deadlines 1 and 3 shifted back by 2 do not; on an empty queue it moves the
  sentinel, so there only a zero shift is harmless.
* JSL/RTL, JSR (abs,X)/RTS and PHD/PLD move the stack pointer without wrapping it. In emulation mode
  they undo each other exactly from SP 0x103, 0x101 and 0x102 upwards.
* The 65C02 takes a second borrow from the high digit in decimal SBC exactly when the low digits
  differ by less than -10, as for 0x00 minus 0x0B, which BCD operands never do.
* The 16-bit decimal SBC of the 65816 looks at the low byte of the accumulator only: for BCD operands
  it is right exactly if the high byte is zero.
* The 16-bit decimal ADC of the 65816 computes V from the low byte of the accumulator: right exactly
  for a positive accumulator, or where operand and sum agree in sign, as 0x8000 plus 0x8000 do not.
* A snapshot alarm that is due at the very clock of writing is not restored.
* A block move that overtakes itself copies its block exactly when the block repeats with the lead of
  the destination as its period; it smears two different bytes moved up by one cell.
* A block move that writes to its own opcode goes on exactly if it writes the same opcode there:
  otherwise the main loop executes whatever it has written, for a zero a BRK.
* A block move whose opcode stands in the last two cells of a bank takes the operand bytes behind the
  end from the next bank, except for the last execution, which takes them from the start of its own.
* An undocumented read-modify-write that changes a byte that addresses its operand need not be what
  the two documented opcodes do one after the other: an SLO $11 on its own operand byte is not.

## Model

| member | source | states |
|---|---|---|
| `AlarmQueue.AlarmContext.constructor` | src/alarm.c:49-57 | A new context has an empty queue, an empty list and the all-ones cached clock. |
| `AlarmQueue.AlarmContext.UpdateNextPending` | src/alarm.h:112-131 | The rescan leaves the cached clock a true minimum with the index of an alarm that has it, the last one among equals. |
| `AlarmQueue.AlarmContext.Set` | src/alarm.h:148-187 | `alarm_set` is map update, refused only for a new alarm when all 256 slots are taken; index, back-pointers and cache stay exact. |
| `AlarmQueue.AlarmContext.Append` | src/alarm.h:161-177 | A new alarm takes the first free slot and its back-pointer names it. |
| `AlarmQueue.AlarmContext.Modify` | src/alarm.h:178-186 | An alarm already pending keeps its slot and changes only its clock. |
| `AlarmQueue.AlarmContext.Unset` | src/alarm.c:167-207 | `alarm_unset` is map removal, and does nothing to an alarm that is not pending. |
| `AlarmQueue.AlarmContext.RemoveSlot` | src/alarm.c:182-193 | Swap with last: the last entry takes the freed slot, every other entry stays, and the back-pointers follow. |
| `AlarmQueue.AlarmContext.NewAlarm` | src/alarm.c:105-137 | The new alarm is idle and heads the doubly linked list; the queue is unchanged. |
| `AlarmQueue.AlarmContext.Link` | src/alarm.c:113-125 | Linking at the head keeps the list a well-formed chain without repetition. |
| `AlarmQueue.AlarmContext.Destroy` | src/alarm.c:139-165 | Exactly this alarm leaves the list, the registered set and the queue, wherever it stands. |
| `AlarmQueue.AlarmContext.Unlink` | src/alarm.c:149-160 | Both neighbours and the head are relinked, so the chain is the old one without the alarm. |
| `AlarmQueue.AlarmContext.DestroyAll` | src/alarm.c:59-77 | The walk ends, visits each alarm exactly once in list order, and leaves none registered or pending. |
| `AlarmQueue.AlarmContext.Dispatch` | src/alarm.h:133-146 | The alarm called is the one at the cached index, which has the least deadline, and its offset is clock minus deadline, without wrap. |
| `AlarmQueue.AlarmContext.TimeWarp` | src/alarm.c:79-101 | Every deadline and the cached clock move by one wrapped amount; the queue invariant survives if and only if all deadlines wrap like the cached one, and on an empty queue if and only if the shift is zero. |
| `AlarmDispatch.WarpOfTwo` | src/alarm.c:79-101 | Deadlines 1 and 3, shifted back by 2, leave an alarm due at 1 and the all-ones value in the cache. |
| `AlarmDispatch.WarpOfNone` | src/alarm.c:96-100 | An empty queue, shifted back by 1, has lost its sentinel. |
| `AlarmQueue.WarpedMinimum` | src/alarm.c:88-100 | A shifted minimum is a minimum of the shifted deadlines exactly when all of them wrap alike. |
| `Clocks.WrapOrder` | src/alarm.c:88-100 | Of two ordered 32-bit clocks, a shift keeps the order exactly when both wrap alike. |
| `AlarmDispatch.CommandsAndDue` | src/alarm.h:133-146 | A callback that arms nothing at or before the clock leaves due exactly the alarms it does not mention, with unchanged deadlines. |
| `AlarmDispatch.RunCommands` | src/alarm.h:144-146 | The `alarm_set` and `alarm_unset` calls of a callback act on the queue as map updates and removals, in order. |
| `AlarmDispatch.ProcessAlarms` | src/6510core.c:114-119 | With well-behaved callbacks the loop ends, fires in nondecreasing deadline order with exact offsets, fires each due alarm at most once at the deadline it had, skips only those that a callback mentioned, leaves nothing due, and ends with exactly the queue that the commands of the callbacks, in this order, make of the first one. |
| `AlarmDispatch.FireNext` | src/alarm.h:133-146 | One turn of the loop fires the earliest due alarm and lowers the count of due alarms. |
| `AlarmDispatch.RebaseInvisible` | src/alarm.c:79-101 | When deadlines, cached clock and CPU clock are shifted together and wrap alike, the loop condition and every offset are the same and the same alarms are due. |
| `AlarmDispatch.DispatchAcrossWarp` | src/alarm.c:79-101 | Dispatching, shifting everything, and dispatching again calls the same alarm with the same offset. |
| `AciaModel.FrameTicks` | src/aciacore.c:372-404 | A character takes at least one cycle if and only if the machine runs at least as many cycles per second times frame bits as the line carries bits per second. |
| `AciaModel.EnoughCycles` | src/aciacore.c:345-404 | From 32915 cycles per second on, every rate, extended rate and frame format gives at least one tick. |
| `AciaLaws.TicksExact` | src/aciacore.c:345-411 | The character time is the whole number of cycles that a frame takes at the rate listed for the value of the control register, and of the extended register for code 0 of a Turbo232, in every mode and frame format. |
| `AciaLaws.WholeCyclesOnce` | src/aciacore.c:411 | No other number of cycles is. |
| `AciaLaws.RatesIncrease` | src/aciacore.c:197-200 | The sixteen rates strictly increase with the code, the four extended ones decrease. |
| `AciaLaws.HalfTheTime` | src/aciacore.c:351-359 | At the same code a character takes a Swiftlink, and but for the external clock a Turbo232, half the cycles that it takes a plain chip. |
| `AciaLaws.At38400` | src/aciacore.c:351-352 | A Swiftlink at 38400 bps, 8N1, on a 985248 Hz machine has 256 ticks a character. |
| `AciaLaws.DataWritten` | src/aciacore.c:915-929 | Writing address 0 holds the byte, and with DTR on makes it wait for a transmission that starts with the next cycle unless one is scheduled. |
| `AciaLaws.ResetWritten` | src/aciacore.c:931-948 | Writing address 1 is the programmed reset; of the command register it keeps the top three bits. |
| `AciaLaws.CommandWritten` | src/aciacore.c:954-968 | Writing address 2 moves the lines, then opens or closes the port by DTR. |
| `AciaLaws.ControlWritten` | src/aciacore.c:950-953 | Writing address 3 sets the rate and starts a pending reception over. |
| `AciaLaws.ExtendedWritten` | src/aciacore.c:970-976 | Address 7, on the Turbo232 alone, sets the extended rate while the low four bits of the control register are zero, and does nothing otherwise. |
| `AciaLaws.StatusRead` | src/aciacore.c:1019-1026 | The status register reads with the interrupt in bit 7, bit 6 clear and DSR in bit 5, and reading it ends the interrupt. |
| `AciaLaws.OtherRead` | src/aciacore.c:1027-1048 | Command and control read as written, the extended register four higher while it rules, undecoded addresses as 0xFF. |
| `AciaLaws.ResetExact` | src/aciacore.c:640-676 | A hardware reset in register values: all zero but the status, which is 16. |
| `AciaLaws.AlarmExact` | src/aciacore.c:1112-1172 | The transmit alarm sends a waiting byte if the port is open, raises an interrupt for transmitter control 01 only, keeps the transmitter busy for one character time, and is then unset. |
| `AciaLaws.ReceptionExact` | src/aciacore.c:1174-1217 | The receive alarm takes a byte if there is one, with overrun and interrupt as the registers say, and is always set again. |
| `AciaLaws.FieldExact` | src/snapshot.c:111-131 | A 32-bit snapshot field is stored low byte first. |
| `AciaLaws.VersionsRead` | src/aciacore.c:788-830 | The reader takes version 1.0 with at least ten bytes, and nothing newer; without the module it leaves the chip disarmed. |
| `AciaRuns.ResetIsSafe` | src/aciacore.c:640-672 | A hardware reset leads into the safe states from any state. |
| `AciaRuns.StepKeepsSafe` | src/aciacore.c:895-1217 | Every register write, read, alarm, reset and clock rebasing keeps: `in_tx` in 0..2, an active transmit alarm implies `in_tx` nonzero, DR_WRITTEN implies TDRE clear, an open port implies DTR, and the line follows the latch. |
| `AciaRuns.RunKeepsSafe` | src/aciacore.c:895-1217 | The safety holds after any run. |
| `AciaRuns.SendHolds` | src/aciacore.c:1112-1148 | After a byte is sent nothing can be sent for one character time. |
| `AciaRuns.StepHolds` | src/aciacore.c:914-974 | No write, read, alarm or rebasing short of a cancellation lets the transmitter send before the time it is held to. |
| `AciaRuns.TransmitSpacing` | src/aciacore.c:915-930 | Over whole runs, two bytes sent without reset or DTR drop between them are at least the ticks valid at the first apart, whatever is written and however often the clock is rebased in between. |
| `AciaRuns.SpacingAttained` | src/aciacore.c:1112-1172 | For every configuration with at least one tick there is a legal run from a reset whose two bytes are sent exactly that far apart, so the bound cannot be raised. |
| `AciaRuns.StepBalances` | src/aciacore.c:895-976 | Each event accounts for the byte that waits in the data register. |
| `AciaRuns.BytesConserved` | src/aciacore.c:895-1148 | Over any run, bytes accepted under DTR are sent, overwritten, dropped or the one still waiting. |
| `AciaRuns.TxDataIsLastWritten` | src/aciacore.c:915-916 | The transmit data register always holds the most recent data write. |
| `AciaRuns.SentIsLastWritten` | src/aciacore.c:1112-1135 | Every byte handed to the driver is the most recent write to the data register. |
| `AciaRuns.LogCounts` | src/aciacore.c:1112-1135 | The log of bytes handed to the driver is as long as the account of sent bytes says. |
| `AciaRuns.RestoreIsSafe` | src/aciacore.c:726-883 | Writing a snapshot keeps the chip safe, and any reader of what a safe chip wrote is safe with the same byte waiting, so the theorems about runs hold from there. |
| `AciaSnapshot.DwordRoundTrip` | src/snapshot.c:111-131 | A 32-bit value written low byte first is read back unchanged. |
| `AciaSnapshot.RoundTrip` | src/aciacore.c:726-883 | Written and read at the same clock, by a reader in any state, a snapshot restores the data, command and control registers, `in_tx`, the latch, the non-modem status bits, and each alarm if and only if it is not due at that very clock. |
| `AciaSnapshot.RestoredAlarms` | src/aciacore.c:849-880 | Which alarm gets which deadline, from complete and from short files. |
| `AciaSnapshot.OldFormat` | src/aciacore.c:851-880 | Without the last field, reception gets the transmitter deadline. |
| `Acia6551.Acia.constructor` | src/aciacore.c:625-638 | Both alarms are registered with the shared context and idle. |
| `Acia6551.Acia.SetHandshakeLines` | src/aciacore.c:584-622 | The lines and the receive alarm follow the handshake mode; flags, clocks and queue agree. |
| `Acia6551.Acia.SetAciaTicks` | src/aciacore.c:372-435 | The tick counts follow the rate, and an active receive alarm is re-armed; flags, clocks and queue agree. |
| `Acia6551.Acia.Reset` | src/aciacore.c:640-672 | A reset unsets both alarms, closes the port and reinitialises the registers; flags and queue agree. |
| `Acia6551.Acia.Store` | src/aciacore.c:895-976 | A register write, with the read-modify-write double store, does to registers, alarms and queue what the model does, and the alarms of other chips stay as they were. |
| `Acia6551.Acia.StoreData` | src/aciacore.c:915-930 | A data write under DTR queues the character and arms the transmit alarm only if it was not active. |
| `Acia6551.Acia.StoreReset` | src/aciacore.c:931-949 | A programmed reset stops the transmitter and keeps flags and queue in agreement. |
| `Acia6551.Acia.StoreCommand` | src/aciacore.c:954-969 | A command write opens or closes the port, and a dropped DTR stops the transmitter. |
| `Acia6551.Acia.Read` | src/aciacore.c:1003-1045 | A read returns the register and has the side effects of the status and data registers. |
| `Acia6551.Acia.IntTx` | src/aciacore.c:1112-1148 | The transmit callback sends or goes idle, logs what it sends, re-arms at clock plus ticks or unsets, and acts on the queue as exactly that one command; flags, clocks and queue agree. |
| `Acia6551.Acia.IntRx` | src/aciacore.c:1174-1217 | The receive callback takes a byte if there is one, and acts on the queue as one command that re-arms at clock plus receive ticks. |
| `Acia6551.Acia.CallbacksBehave` | src/aciacore.c:1112-1217 | With at least one tick both callbacks are what the CPU loop asks of a callback. |
| `Acia6551.Acia.ProcessAlarms` | src/6510core.c:114-119 | The drain theorem with this chip on the queue: earliest first, exact offsets, nothing left due, and the whole queue, the other chips' alarms included, exactly what the commands that ran make of it; the registers and the log end where the chip's own firings lead, and at most one byte is sent. |
| `Acia6551.Acia.Rebase` | src/aciacore.c:539-545 | Queue and alarm clocks moved together still agree. |
| `Acia6551.Acia.RebaseNow` | src/aciacore.c:539-545 | When something is pending and no deadline lies behind the amount, rebasing takes exactly it off every deadline, those of the other chips included, and changes nothing else. |
| `Acia6551.Acia.Perform` | src/aciacore.c:895-1217 | One more register access, alarm, reset, rebasing, or command of another chip takes the chip, its log and the other chips' alarms where the run with one more event leads. |
| `Acia6551.Acia.PerformAll` | src/aciacore.c:895-1217 | Any legal sequence of events, other chips arming and disarming their alarms in between, takes the class where the pure run leads; the driver gets exactly what the run sends, and the other chips' alarms are where their own commands and the rebasing have put them. |
| `Acia6551.Acia.SnapshotWrite` | src/aciacore.c:726-766 | The bytes written are the fields in order, with remaining times for active alarms. |
| `Acia6551.Acia.SnapshotRead` | src/aciacore.c:788-883 | Reading sets registers, alarms and queue as the model says, rejects other versions, and leaves the chip disarmed when the module is missing. |
| `RegisterMacros.StatusIsFaithful` | src/6510core.c:186-200 | With N and Z clear in the stored byte, the rebuilt status is exactly the flags with the unused bit set. |
| `RegisterMacros.StatusRoundTrip` | src/6510core.c:188-200 | Setting the status and reading it back returns the byte with the unused bit forced on, and leaves N and Z clear in the stored byte. |
| `OpcodeMacros.Adc` | src/6510core.c:598-631 | ADC in both modes equals the arithmetic definition, all six flags included. |
| `OpcodeMacros.Sbc` | src/6510core.c:1396-1425 | SBC with 16- and 32-bit unsigned temporaries equals the signed definition in both modes, flags from the binary difference. |
| `OpcodeMacros.Arr` | src/6510core.c:680-711 | ARR in both modes, flags and digit adjustments included. |
| `OpcodeMacros.Cmp` | src/6510core.c:846-877 | Comparisons set C when the register is not below the operand, whatever the wrapped difference. |
| `OpcodeMacros.Alu` | src/6510core.c:598-1437 | Each operation on a loaded value does what the reference instruction set says and keeps N and Z clear in the stored byte. |
| `OpcodeMacros.Implied` | src/6510core.c:819-844 | The one-byte instructions without memory access. |
| `OpcodeMacros.ReadModify` | src/6510dtvcore.c:810-1246 | The read-modify-write operations whose text the cores share, undocumented ones as compositions. |
| `OpcodeMacros.BranchDest` | src/6510core.c:761-778 | The branch target modulo 65536 and whether it leaves the page, from a PC that has not been wrapped. |
| `OpcodeTable.ListedIsDecoded` | src/6510core.c:2081-3060 | For all 256 opcodes the switch lists the operation and mode that the fields of the opcode decode to. |
| `Decoder.FetchTableExact` | src/6510core.c:1704-1722 | The fetch table asks for three bytes exactly where the listed macro uses the third. |
| `Machine6510.Machine.FetchOpcode` | src/6510core.c:1910-1929 | A fetch takes 2 + `fetch_tab` cycles and yields the opcode and its operand bytes, wrapping at 16 bits. |
| `Machine6510.Machine.Store` | src/6510core.c:519-523 | A store truncates the value to a byte and wraps the address at 16 bits. |
| `Machine6510.Machine.Push` | src/6510core.c:336-338 | A push writes page one at SP and decrements SP modulo 256. |
| `Machine6510.Machine.Pull` | src/6510core.c:339-341 | A pull increments SP modulo 256 and reads page one there. |
| `Machine6510.Machine.PullStatus` | src/6510core.c:188-190 | Pulling the status sets exactly the flags in the byte. |
| `Machine6510.Machine.PushStatus` | src/6510core.c:199-200 | The pushed byte is exactly the flags, the unused bit and the wanted break bit. |
| `Core6510Batched.LoadSource` | src/6510core.c:466-517 | Each operand load yields the operand of its addressing mode and adds exactly its own cycles. |
| `Core6510Batched.Alu` | src/6510core.c:598-1437 | An operation macro with its load, cycle and PC arguments is the reference operation in that mode. |
| `Core6510Batched.StoreTo` | src/6510core.c:519-565 | A store macro with its address, store function and cycles writes one byte at the indexed address. |
| `Core6510Batched.StoreIndY` | src/6510core.c:1614-1624 | STA ($nn),Y. |
| `Core6510Batched.Rmw` | src/6510core.c:713-726 | A read-modify-write with its load and store functions changes one byte once, and the registers as the reference does. |
| `Core6510Batched.RmwIndY` | src/6510core.c:1535-1555 | The indirect-indexed read-modify-writes. |
| `Core6510Batched.ReadModify` | src/6510core.c:713-1345 | Every read-modify-write operation, the undocumented ones as compositions of two documented ones. |
| `Core6510Batched.ShAbs` | src/6510core.c:567-579 | The masked stores, with the value replacing the high address byte when the index crosses a page. |
| `Core6510Batched.ShaIndY` | src/6510core.c:1470-1487 | SHA ($nn),Y. |
| `Core6510Batched.BranchOn` | src/6510core.c:761-778 | Branches: target, condition and the extra cycles. |
| `Core6510Batched.JmpInd` | src/6510core.c:1038-1046 | JMP ($nnnn) without carry into the pointer high byte. |
| `Core6510Batched.Jsr` | src/6510core.c:1048-1060 | JSR pushes the address of its last byte and reads the target high byte after the pushes. |
| `Core6510Batched.Rts` | src/6510core.c:1365-1376 | RTS resumes behind the pulled address. |
| `Core6510Batched.Rti` | src/6510core.c:1353-1363 | RTI restores flags, then PC. |
| `Core6510Batched.Interrupt` | src/6510core.c:373-411 | An interrupt entry pushes PC and status, sets I, takes the vector, in seven cycles. |
| `Core6510Batched.SwitchLoad` | src/6510core.c:2081-3060 | The load, arithmetic and comparison cases, with the arguments the switch passes, take the reference cycles. |
| `Core6510Batched.SwitchStore` | src/6510core.c:2605-2719 | The store cases, with the arguments the switch passes, are the reference stores and cycles. |
| `Core6510Batched.SwitchModify` | src/6510core.c:2081-3060 | The read-modify-write cases, with the arguments the switch passes, are the reference operations and cycles. |
| `Core6510Batched.SwitchFlow` | src/6510core.c:2081-3060 | The remaining cases; JAM only takes back its fetch cycles. |
| `Core6510Batched.Step` | src/6510core.c:2023-3060 | One instruction of the batched core is the reference instruction, state and cycle count, for every opcode. |
| `Core6510PerCycle.Get` | src/6510dtvcore.c:417-640 | Each GET macro yields the operand of its mode, one cycle per access, extra cycles included. |
| `Core6510PerCycle.Aim` | src/6510dtvcore.c:444-648 | The SET macros aim at the effective address after the same number of cycles. |
| `Core6510PerCycle.SetRmw` | src/6510dtvcore.c:642-648 | The old value is written before the new one; only the new one remains. |
| `Core6510PerCycle.Rmw` | src/6510dtvcore.c:810-819 | The per-cycle read-modify-write is the reference operation. |
| `Core6510PerCycle.ReadModify` | src/6510dtvcore.c:810-1458 | Every read-modify-write operation of this core. |
| `Core6510PerCycle.ShAbsI` | src/6510dtvcore.c:1411-1425 | The masked stores of this core. |
| `Core6510PerCycle.BranchOn` | src/6510dtvcore.c:878-897 | Branches of this core: target, condition and the extra cycles. |
| `Core6510PerCycle.Jsr` | src/6510dtvcore.c:1092-1110 | JSR of this core pushes first and reads the target high byte afterwards. |
| `Core6510PerCycle.Rti` | src/6510dtvcore.c:1301-1316 | RTI of this core restores flags, then PC, in four cycles after the fetch. |
| `Core6510PerCycle.IrqBrk` | src/6510dtvcore.c:269-304 | The common entry of BRK and IRQ, five cycles, with the vector it ends up using. |
| `Core6510PerCycle.Interrupt` | src/6510dtvcore.c:308-352 | An interrupt entry of this core, in seven cycles. |
| `Core6510PerCycle.Step` | src/6510dtvcore.c:1610-2554 | One instruction of the per-cycle core is the reference instruction, state and cycle count, for every opcode. |
| `CoresAgree.Lockstep` | src/6510core.c:2023-3060 | Started equal, the two cores stay equal over any run of instructions and interrupt entries: registers, flags, PC, memory and cycle count. |
| `Laws6510.BranchExact` | src/6510core.c:761-778 | From the opcode byte: each of the eight branches changes nothing but the PC; untaken it is the next instruction in two cycles; taken it is the one address within -128 to 127 of it that is congruent to it plus the operand modulo 256, in three cycles, or four in another page. |
| `Laws6510.OneLanding` | src/6510core.c:766 | No branch operand leads to two addresses. |
| `Laws6510.BranchToItself` | src/6510core.c:766 | A taken branch with operand 0xFE leaves the machine where it is. |
| `Laws6510.LogicExact` | src/6510core.c:642-646 | AND, ORA and EOR set a bit of A exactly where that bit is set in both operands, in one at least, or in exactly one; N and Z are read off the bits. |
| `Laws6510.BitExact` | src/6510core.c:748-759 | BIT sets Z exactly when A and the operand have no bit in common; N and V are bits 7 and 6 of the operand. |
| `Laws6510.AncExact` | src/6510core.c:633-640 | ANC takes C from the top bit of the bitwise AND. |
| `Laws6510.AsrExact` | src/6510core.c:738-746 | ASR shifts the bits of the bitwise AND right by one, the lowest into C. |
| `Laws6510.SaxExact` | src/6510core.c:1378-1386 | SAX stores the bits that A and X have in common. |
| `Laws6510.InterruptExact` | src/6510core.c:386-409 | An IRQ goes on at the word in cells 65534 and 65535, and an NMI at the one in 65530 and 65531, of the memory that the three pushes leave; the frame is the PC and the flags with B clear. |
| `Laws6510.BreakExact` | src/6510core.c:781-814 | A fetched 0x00 pushes the address behind its second byte and the flags with B set, and goes on at the word in cells 65534 and 65535. |
| `Laws6510.Handlers` | src/6510core.c:405-409 | IRQ and BRK share a handler, which the stack cannot overwrite and NMI does not use. |
| `Laws6510.IndirectJump` | src/6510core.c:1038-1046 | JMP ($nnnn) takes the high byte of its target from the same page, from $nn00 behind $nnFF. |
| `RmwCompositions.OnBatchedCore` | src/6510core.c:1516-1533 | On two equal machines, SLO, RLA, SRE, RRA, DCP or ISB as the batched core does it leaves what ASL, ROL, LSR, ROR, DEC or INC as it does them, and then ORA, AND, EOR, ADC, CMP or SBC of the byte written, leave: registers, all flags, memory and cycles, decimal mode included. |
| `RmwCompositions.OnBatchedCoreIndY` | src/6510core.c:1535-1555 | The same in the ($nn),Y mode. |
| `RmwCompositions.OnPerCycleCore` | src/6510dtvcore.c:1434-1446 | The same of the per-cycle core, in every mode. |
| `RmwCompositions.InTwoInstructions` | src/6510core.c:1516-1595 | Executing the two documented opcodes at the same place leaves the same state if and only if the operand that the second one finds and the byte that the first one wrote agree: for SRE and in binary mode for RRA and ISB as bytes, for SLO and RLA under the mask of A, for DCP in their comparison with A, and in decimal mode for RRA and ISB in digits, carry, N, V and Z. |
| `RmwCompositions.BcdEffect` | src/6510core.c:598-631 | With BCD operands the decimal case, too, is equality of the bytes. |
| `RmwCompositions.InTwoInstructionsApart` | src/6510core.c:1516-1595 | That holds whenever the operand is none of the cells that address it. |
| `RmwCompositions.SelfModified` | src/6510core.c:1516-1595 | It does not hold for an SLO $11 that shifts its own operand byte. |
| `Stack6510.NestKeepsStack` | src/6510core.c:336-341 | Any properly nested use of at most 256 bytes returns SP and leaves the rest of page one alone, also when SP wraps. |
| `Stack6510.PairUndone` | src/6510core.c:1174-1211 | Around anything nested, PLA returns the A of its PHA, PLP the flags of its PHP, RTS resumes behind its JSR, and RTI restores PC and N V D I Z C. |
| `Stack6510.TooDeep` | src/6510core.c:336-341 | The bound is sharp: with 257 bytes a pull can return another byte. |
| `StackRuns.RunIsNest` | src/6510core.c:2023-3060 | A run of the machine whose fetched instructions and interrupts nest properly is a nest. |
| `StackRuns.RunKeepsStack` | src/6510core.c:336-341 | Any such run of at most 256 stack bytes returns SP and leaves the rest of page one alone. |
| `StackRuns.RunRestores` | src/6510core.c:386-411 | ... and its enclosing PHA, PHP, JSR or interrupt gets back what it saved. |
| `DecimalArithmetic.Adc6510` | src/6510core.c:598-631 | Decimal ADC of the 6510 is the digit-wise sum with carry, for all operands. |
| `DecimalArithmetic.Sbc6510` | src/6510core.c:1396-1425 | Decimal SBC of the 6510 is the digit-wise difference with borrow, for all operands. |
| `DecimalArithmetic.DecimalAdc65C02` | src/65c02core.c:542-558 | Decimal ADC of the 65C02 is the digit-wise sum with carry and the V of the 6510, for all operands; N and Z describe the result. |
| `DecimalArithmetic.BinaryAdc65C02` | src/65c02core.c:558-565 | Binary ADC of the 65C02: exact sum, carry, signed overflow, N and Z. |
| `DecimalArithmetic.Sbc65C02` | src/65c02core.c:1197-1220 | SBC of the 65C02: exact carry, overflow and binary result; N and Z describe the result; in decimal mode A is the digit-wise difference if and only if the low digits do not borrow deeply, and 16 less otherwise. |
| `DecimalArithmetic.SecondBorrow` | src/65c02core.c:1205-1212 | 0x00 minus 0x0B gives 0x8F and not 0x9F. |
| `DecimalArithmetic.DecimalAdc65816` | src/65816core.c:1371-1391 | Decimal 8-bit ADC of the 65816: the same A, C and V, for all operands; N and Z describe the result. |
| `DecimalArithmetic.BinaryAdc65816` | src/65816core.c:1371-1391 | Binary 8-bit ADC of the 65816: exact sum, carry, signed overflow, N and Z. |
| `DecimalArithmetic.DecimalSbc65816` | src/65816core.c:2283-2297 | Decimal 8-bit SBC of the 65816 is the digit-wise difference, for all operands, with V of the binary difference; N and Z describe the result. |
| `DecimalArithmetic.BinarySbc65816` | src/65816core.c:2283-2298 | Binary 8-bit SBC of the 65816: exact difference, borrow, signed overflow, N and Z. |
| `DecimalArithmetic.DecimalAdc65816Wide` | src/65816core.c:1391-1424 | Decimal 16-bit ADC of the 65816 is two chained 8-bit decimal sums, with N and Z of the result, for all operands; V is the overflow if and only if the accumulator is positive or operand and sum agree in sign. |
| `DecimalArithmetic.OverflowForgotten` | src/65816core.c:1414 | 0x8000 plus 0x8000 sets no V, though the sum of two negative numbers is positive. |
| `DecimalArithmetic.BinaryAdc65816Wide` | src/65816core.c:1417-1424 | Binary 16-bit ADC of the 65816: exact sum, carry, signed overflow, N and Z. |
| `DecimalArithmetic.DecimalSbc65816Wide` | src/65816core.c:2298-2319 | Decimal 16-bit SBC of the 65816 subtracts from the low byte of the accumulator alone, V coming from the whole accumulator; N and Z describe the result. |
| `DecimalArithmetic.BinarySbc65816Wide` | src/65816core.c:2298-2319 | Binary 16-bit SBC of the 65816: exact difference, borrow, signed overflow, N and Z. |
| `MultiPrecision.DecimalSumExact` | src/6510core.c:598-631 | Chaining the digit-wise sum through the carry over BCD operands of any length gives the exact sum and carry-out, in BCD. |
| `MultiPrecision.DecimalDifferenceExact` | src/6510core.c:1396-1425 | Chaining the digit-wise difference gives the exact difference, and a clear carry is the borrow. |
| `MultiPrecision.WideChainAgrees` | src/65816core.c:1391-1424 | A 16-bit chain, of sums or differences, computes what the 8-bit chain computes on the same bytes. |
| `MultiPrecision.DecimalChain6510` | src/6510core.c:598-631 | LDA, ADC, STA over bytes on the 6510 in decimal mode is that chain, carry included. |
| `MultiPrecision.SubtractChain6510` | src/6510core.c:1396-1425 | LDA, SBC, STA over bytes on the 6510 in decimal mode is the chain of differences, carry included. |
| `MultiPrecision.AddChain65C02` | src/65c02core.c:534-566 | The adder of the 65C02, chained, computes the same bytes and carry, and for BCD operands the exact sum. |
| `MultiPrecision.AddChain65816` | src/65816core.c:1371-1391 | So does the 8-bit adder of the 65816. |
| `MultiPrecision.WideAddChain65816` | src/65816core.c:1391-1424 | So does its 16-bit adder, two bytes at a time. |
| `MultiPrecision.SubtractChain65816` | src/65816core.c:2283-2298 | The 8-bit subtracter of the 65816, chained, computes the chain of differences, and for BCD operands the exact difference. |
| `MultiPrecision.SubtractChain65C02` | src/65c02core.c:1197-1220 | The 65C02 gets every carry right, and each byte if and only if it takes no second borrow there; for BCD operands it gives the exact difference. |
| `MultiPrecision.WideSubtractChain65816` | src/65816core.c:2298-2319 | The 16-bit subtracter of the 65816, chained over BCD words, gives the chain of differences if and only if no word of the minuend needs its high byte. |
| `MultiPrecision.HighByteForgotten` | src/65816core.c:2304-2311 | 0x0100 minus zero is not 0x0100. |
| `MultiPrecision.BinaryChainExact` | src/6510core.c:620-626 | In binary mode the chain gives the sum or difference modulo a power of the base, and its carry or borrow. |
| `MultiPrecision.BinaryOverflowExact` | src/6510core.c:620-626 | The V of the last digit of a binary chain, of sums or differences, bytes or words, is the signed overflow of the whole numbers. |
| `MultiPrecision.BinaryChain6510` | src/6510core.c:598-631 | LDA, ADC or SBC, STA over bytes on the 6510 in binary mode: the exact sum or difference, its carry, and the last V. |
| `MultiPrecision.BinaryChain65C02` | src/65c02core.c:534-566 | The same of the ADC and the SBC of the 65C02. |
| `MultiPrecision.BinaryChain65816` | src/65816core.c:1371-1391 | The same of the 8-bit ADC and SBC of the 65816. |
| `MultiPrecision.WideBinaryChain65816` | src/65816core.c:1417-1424 | The same of its 16-bit ADC and SBC. |
| `Wdc65816.WideFlagsExact` | src/65816core.c:143-151 | The two-byte N/Z encoding is exact for every 16-bit result. |
| `Wdc65816.StatusRoundTrip` | src/65816core.c:216-235 | Setting the status and reading it back returns the byte, exactly in native form, with the unused bit forced in emulation form. |
| `Wdc65816.BitsSetExactly` | src/65816core.c:2144-2182 | REP and SEP change exactly the bits named, M and X being out of reach in emulation mode, and narrow the index registers when X is set. |
| `Core65816.Cpu.Push` | src/65816core.c:317-327 | A push writes bank 0 at SP and stays in page one in emulation mode. |
| `Core65816.Cpu.Pull` | src/65816core.c:329-331 | A pull increments SP, within page one in emulation mode, and reads there. |
| `Core65816.Cpu.LoadStack` | src/65816core.c:412-424 | 8- and 16-bit pulls, low byte first. |
| `Core65816.Cpu.StoreStack` | src/65816core.c:1236-1249 | 8- and 16-bit pushes, high byte first. |
| `Core65816.Cpu.LoadIndex` | src/65816core.c:1886-1903 | LDX and LDY load the width that the mode gives. |
| `Core65816.Cpu.CountIndex` | src/65816core.c:1681-1704 | INX, INY, DEX and DEY wrap at the width that the mode gives. |
| `Core65816.Cpu.TransferToIndex` | src/65816core.c:2372-2386 | TAX, TAY and TSX narrow to the width that the mode gives. |
| `Core65816.Cpu.TransferBetweenIndexes` | src/65816core.c:2473-2489 | TXY and TYX copy the register and set the flags at the width that the mode gives. |
| `Core65816.Cpu.PullIndex` | src/65816core.c:2129-2142 | PLX and PLY pull the width that the mode gives. |
| `Core65816.Cpu.Txs` | src/65816core.c:2462-2471 | TXS stays in page one when the index registers are 8 bits wide. |
| `Core65816.Cpu.Tcs` | src/65816core.c:2396-2405 | TCS stays in page one in emulation mode. |
| `Core65816.Cpu.Xce` | src/65816core.c:2525-2545 | XCE exchanges carry and E; entering emulation narrows X, Y and SP, leaving it sets M and X. |
| `Core65816.Cpu.RepSep` | src/65816core.c:2144-2182 | REP and SEP as the bit-by-bit macro does them. |
| `Core65816.Cpu.Plp` | src/65816core.c:2117-2127 | PLP sets every status bit as pulled and narrows X and Y if they become 8 bits wide. |
| `Core65816.Cpu.Enter` | src/65816core.c:1727-1757 | BRK, COP, IRQ and NMI push the frame of their mode, clear D, set I and take the vector of their mode. |
| `Core65816.Cpu.Rti` | src/65816core.c:2220-2244 | RTI pulls the frame of the mode. |
| `Core65816.Cpu.Res` | src/65816core.c:2186-2213 | Reset reaches emulation mode with SP in page one from any state. |
| `Core65816.Cpu.JsrLong` | src/65816core.c:1864-1882 | JSL, with its unwrapped stack pointer. |
| `Core65816.Cpu.Rtl` | src/65816core.c:2246-2263 | RTL, with its unwrapped stack pointer. |
| `Core65816.Cpu.JsrIndX` | src/65816core.c:1845-1862 | JSR (abs,X), with its unwrapped first push. |
| `Core65816.Cpu.Rts` | src/65816core.c:2265-2276 | RTS pulls with wrapping and resumes one further. |
| `Core65816.Cpu.Phd` | src/65816core.c:2059-2067 | PHD, with its unwrapped first push. |
| `Core65816.Cpu.Pld` | src/65816core.c:2101-2115 | PLD, with its unwrapped pulls. |
| `Core65816.Cpu.Move` | src/65816core.c:1928-1955 | One execution of MVN or MVP, at any PC and index width, with the last one advancing the PC. |
| `Core65816.Cpu.RepeatMove` | src/65816core.c:1928-1959 | The main loop fetches the opcode again until the count has run out, after C+1 executions, or until the move has overwritten its opcode with another one; the count is the measure. |
| `Core65816.Cpu.Execute` | src/65816core.c:2604-3635 | Each macro of the opcode switch, each interrupt entry and the reset does what the step function says, on registers and memory, given the operand, the address and the next PC that its addressing mode delivers. |
| `Core65816.Cpu.TickOnce` | src/65816core.c:2560-3635 | One turn of the main loop, the opcode fetched at the PC through the table of all 256, or an interrupt or reset, given the same. |
| `Core65816.Cpu.Run` | src/65816core.c:2560-3635 | Any run of them, with the stores of each instruction, is the run of the step function, given the same. |
| `Core65816.Cpu.ComputeRegisters` | src/65816core.c:1365-2545 | The macros that work on accumulator and flags, ADC and SBC in both modes included, at the width that the mode gives. |
| `Core65816.Cpu.StoreResult` | src/65816core.c:2345-2434 | STA, STX, STY, STZ, TSB, TRB and the read-modify-writes: the flags, and the value and width that are stored. |
| `ModeRuns.MacroKeepsModes` | src/65816core.c:1365-2545 | E stays 0 or 1, SP in page one under E, X and Y below 256 under E or the X flag, N and Z clear in the stored byte, over every macro, whatever it loads or stores. |
| `ModeRuns.TickKeepsModes` | src/65816core.c:2604-3635 | ... over every opcode, interrupt entry and reset. |
| `ModeRuns.RunKeepsModes` | src/65816core.c:2604-3635 | ... and over every prefix of every run. |
| `ModeRuns.OpcodesOfModes` | src/65816core.c:2604-3635 | Of the 256 opcodes exactly PLP, RTI, REP, SEP and XCE invoke a macro that can change E or a width. |
| `ModeRuns.WidthsChangeOnlyThere` | src/65816core.c:2604-3635 | A turn of the loop that changes E, M or the X flag is a reset or fetched one of those five. |
| `Opcodes65816.MacroByFields` | src/65816core.c:2604-3635 | For all 256 opcodes the switch invokes the macro that the three fields of the opcode decode to. |
| `Laws65816.TickDecodes` | src/65816core.c:2602-2604 | A turn of the main loop executes what the fields of the byte at the PC decode to. |
| `Laws65816.LogicExact` | src/65816core.c:1428-1443 | AND, ORA and EOR combine the accumulator and the operand bit by bit, all sixteen or the low eight with the high byte kept, and N and Z show the result at that width. |
| `Laws65816.TransferExact` | src/65816core.c:2447-2460 | LDA, TXA and TYA assign the accumulator at its width. |
| `Laws65816.SumExact` | src/65816core.c:1365-1426 | Binary ADC and SBC: exact sum or difference with carry or borrow and signed overflow, at 8 and 16 bits, changing only A, N, Z, C and V. |
| `Laws65816.DecimalSumExact` | src/65816core.c:2278-2320 | Decimal ADC and SBC leave the digit-wise sum or difference of the parts of the accumulator that they look at. |
| `Laws65816.CompareExact` | src/65816core.c:1592-1626 | CMP, CPX and CPY set C unless the register is below the operand, and N and Z by the difference, at the width of the register. |
| `Laws65816.BitExact` | src/65816core.c:1466-1494 | BIT and BIT #: Z exactly when no bit is common at the width; N and V are the top two bits of an operand from memory, and stay for an immediate one. |
| `Laws65816.StoreExact` | src/65816core.c:2345-2370 | STA, STX, STY and STZ store one byte or two, by the width of the accumulator or of the index registers. |
| `Laws65816.TestExact` | src/65816core.c:2415-2434 | TSB sets, and TRB clears, in memory exactly the bits that the accumulator has; Z where it has none of them. |
| `Laws65816.ModifyExact` | src/65816core.c:1445-1464 | Shifts, rotations and counts of memory: result, C, N and Z as numbers at the width of the accumulator, written back at that width. |
| `Laws65816.ModifyAccumulatorExact` | src/65816core.c:1662-1677 | The same on the accumulator, which keeps its high byte at 8 bits. |
| `Laws65816.FlagExact` | src/65816core.c:1564-1590 | Each flag instruction sets or clears one status bit and changes nothing else. |
| `Laws65816.SwapExact` | src/65816core.c:2513-2523 | XBA swaps the bytes of the accumulator and sets no flag. |
| `Laws65816.CopyExact` | src/65816core.c:2388-2413 | TCD, TDC and TSC copy sixteen bits at any width and show them in N and Z. |
| `Laws65816.GoesOnExact` | src/65816core.c:1496-1532 | Branches, jumps, NOP, WDM, WAI and STP change nothing but the PC, and the program bank in a long jump. |
| `Laws65816.IndexExact` | src/65816core.c:1681-1706 | The eleven loads, counts and transfers of X and Y change one register, N and Z, modulo the width of the index registers. |
| `Laws65816.StackPointerExact` | src/65816core.c:2396-2405 | TXS and TCS stay in page one where only a byte counts. |
| `Laws65816.StatusBitsExact` | src/65816core.c:2144-2184 | REP clears and SEP sets exactly the status bits of the operand, M and X only in native mode, and X and Y lose their high bytes when they become narrow. |
| `Laws65816.ExchangeExact` | src/65816core.c:2525-2545 | XCE exchanges carry and E, with what each direction does to X, Y, SP and the mode bits. |
| `StackLaws65816.PushExact` | src/65816core.c:2048-2082 | PHA, PHX, PHY, PHB, PHK, PHP and JSR push the right register, status byte or return address, high byte first, at the right width. |
| `StackLaws65816.PushOperandExact` | src/65816core.c:2001-2046 | PEA, PEI and PER push their operand, the first byte without wrapping. |
| `StackLaws65816.PullAccumulatorExact` | src/65816core.c:2084-2093 | PLA assigns the accumulator the byte or word above SP. |
| `StackLaws65816.PullIndexExact` | src/65816core.c:2129-2142 | PLX and PLY load the register with the byte or word above SP. |
| `StackLaws65816.PullBankExact` | src/65816core.c:2095-2099 | PLB takes the byte above SP into the data bank, with N and Z. |
| `StackLaws65816.PullStatusExact` | src/65816core.c:2117-2127 | PLP makes the status the byte above SP, narrowing X and Y. |
| `StackLaws65816.CallLongExact` | src/65816core.c:1864-1882 | JSL in cells: which three bytes it pushes where, and that it fetches the bank of its target from the memory that the first of them leaves. |
| `StackLaws65816.ReturnLongExact` | src/65816core.c:2246-2263 | RTL in cells: three bytes above SP without wrapping, and one behind the address. |
| `StackLaws65816.CallIndirectExact` | src/65816core.c:1845-1862 | JSR (abs,X) finds the high byte of its operand, and its target, in the memory that its pushes leave. |
| `StackLaws65816.ReturnExact` | src/65816core.c:2265-2276 | RTS pulls a word and goes on one behind it. |
| `StackLaws65816.DirectExact` | src/65816core.c:2059-2067 | PHD and PLD in cells, the first byte and all bytes without wrapping. |
| `StackLaws65816.MoveExact` | src/65816core.c:1928-1959 | One execution of MVN or MVP: the two banks from the right operand cells, one byte moved, both registers counted at their width. |
| `StackLaws65816.InterruptExact` | src/65816core.c:1727-1757 | IRQ goes on at the word in 0xFFFE in emulation mode and in 0xFFEE in native mode, NMI at the one in 0xFFFA and 0xFFEA, of the memory that the frame leaves, with D clear, I set and program bank 0. |
| `StackLaws65816.SoftwareInterruptExact` | src/65816core.c:1534-1562 | BRK goes on at the word in 0xFFFE in emulation mode and in 0xFFE6 in native mode, COP at the one in 0xFFF4 and 0xFFE4, with the address behind the second byte in the frame. |
| `StackLaws65816.ResetExact` | src/65816core.c:2186-2214 | A reset goes on at the word in 0xFFFC, in emulation mode, with every register that it sets. |
| `LongStackPairs.LongCallUndone` | src/65816core.c:1864-1882 | RTL after JSL restores PC, PBR and SP, as long as the pushed bytes, SP and the mode are kept in between. |
| `LongStackPairs.IndirectCallUndone` | src/65816core.c:1845-1862 | RTS after JSR (abs,X) restores PC and SP, as long as the pushed bytes, SP and the mode are kept in between. |
| `LongStackPairs.DirectPairUndone` | src/65816core.c:2059-2067 | PLD after PHD restores D and SP, as long as the pushed bytes, SP and the mode are kept in between. |
| `LongStackPairs.LongCallExact` | src/65816core.c:2246-2263 | JSL and RTL undo each other for all states exactly in native mode or with SP at 0x103 or above. |
| `LongStackPairs.IndirectCallExact` | src/65816core.c:2265-2276 | JSR (abs,X) and RTS undo each other for all states exactly in native mode or with SP at 0x101 or above. |
| `LongStackPairs.DirectPairExact` | src/65816core.c:2101-2115 | PHD and PLD undo each other for all states exactly in native mode or with SP at 0x102 or above. |
| `Interrupts65816.InterruptUndone` | src/65816core.c:2220-2244 | RTI after an interrupt entry restores PC, SP and the status, M and X included, and PBR in native mode, as long as the frame, SP and the mode are kept in between. |
| `BlockMove.RepeatedMoves` | src/65816core.c:1928-1955 | After n executions of the opcode: counters, banks and PC, every byte of the destination whatever the overlap, and the rest of memory unchanged. |
| `MoveRuns.FetchedEachTime` | src/65816core.c:1928-1959 | C+1 turns of the main loop find the move at the PC each time if and only if it stands there at first and every byte that lands on the opcode before the last is such an opcode; they then are C+1 executions. |
| `MoveRuns.BlockMoved` | src/65816core.c:1928-1959 | C+1 turns of the main loop on a move that keeps its opcode and does not overtake itself copy exactly C+1 bytes and change nothing else; C = 0xFFFF, X and Y moved by C+1 at their width, DBR the destination bank, PC + 3. |
| `MoveRuns.OrdinaryMove` | src/65816core.c:1928-1959 | ... so they do for every move up to PC 0xFFFD whose destination stays clear of the instruction but for the last byte. |
| `MoveRuns.CopiedExactly` | src/65816core.c:1928-1959 | Whatever the overlap, count and width, those turns copy the block if and only if each byte equals the one that the move has carried there. |
| `BlockMove.PeriodicBlock` | src/65816core.c:1928-1959 | ... which for a block that does not come round means that its bytes repeat with the lead as their period. |
| `MoveRuns.OverlapSmears` | src/65816core.c:1928-1955 | A move of the bytes 1, 0 up by one cell does not copy them. |
| `MoveRuns.OpcodeOverwritten` | src/65816core.c:1928-1959 | An MVP at 0x2000 that moves a zero there, all else as asked: its second turn executes a BRK. |
| `BlockMove.OperandsSplit` | src/65816core.c:1928-1945 | Behind the end of a bank the last execution takes its banks from other operand bytes than the others. |
| `BlockMove.OperandsBehindTheBank` | src/65816core.c:1928-1945 | For an opcode at 0xFFFF: both from the next bank first, and from the start of the bank at last. |

## Left out

- Monitor, DMA, ROM traps, what JAM does after it takes back its fetch, tracing, CPU history and the drive's byte-ready hooks: their headers are not part of this model.
- The rules that decide whether a pending interrupt is taken (`interrupt_check_*`, delayed I flag, NMI taking over an IRQ): an interrupt entry is modelled from the moment it is taken, with its vector as a parameter.
- SKIP_CYCLE, stolen cycles and the C64DTV variants of both 6510 cores, and the unstable case of the masked stores under a steal signal.
- Core6510Batched.Step: does not model the bank cache of the opcode fetch, because on flat RAM it yields the bytes that the loads yield.
- CoresAgree.Lockstep: for JAM it covers the cycles taken back and the unchanged state, because the JAM macro itself is not in the two core files.
- Cycle counts of the 65C02 and 65816, the other instructions of the 65C02, and the addressing modes of the 65816.
- Core65816.Cpu.Run: takes the operand, the address of the result and the PC of the instructions that do not jump as parameters of each turn, because the modes hold whatever they are; WAI and STP do not wait.
- Core65816.Cpu.TickOnce: takes the same parameters, for the same reason.
- Core65816.Cpu.Execute: takes the same parameters, for the same reason.
- MoveRuns.BlockMoved: assumes that none but the last byte overwrites the operand bytes, that the last execution reads the same ones, and that no interrupt is taken in between, because otherwise it is not one move throughout.
- The RS232 driver is an arbitrary input per receive event and a ghost log of the bytes sent; opening the port succeeds or fails by a parameter.
- Resources and command-line options of the ACIA, changing its interrupt type or mode at run time, and its monitor dump.
- AciaSnapshot.RoundTrip: leaves out the extended control register, which the snapshot does not hold, and the tick counts, which are recomputed from the restored registers.
- AciaRuns.TransmitSpacing: assumes that no transmit deadline passes the 32-bit limit of the clock, because the emulator rebases it before that.
- Acia6551.Acia.RebaseNow: asks for an alarm that is really pending, because on an empty queue a warp moves the sentinel.
- AciaRuns.RunKeepsSafe: has no event for reading a snapshot, because the bytes accepted before it are then those of another chip; a run goes on from `AciaRuns.RestoreIsSafe`.
- AlarmDispatch.ProcessAlarms: takes callbacks as finite lists of `alarm_set` and `alarm_unset` calls, because their other effects are outside the queue.
- Names, logging and freeing of alarms.
