# Interrupt-driven engines of the AVR DU Arduino core

A Dafny model of the byte and event engines of this core: shared state that a main
thread, interrupt handlers and the hardware step at the same time, several of them in
hand-written assembly beside a C version. Where the source works by changing things in
place, the model is a class whose methods make the source's changes in its order. The serial
ports and the USB OUT ring make their accesses one at a time, with the other parties acting
between any two, and every such execution is tied to a run of a state machine; the promises
are theorems about all runs. Elsewhere the other parties act where the source lets them
matter: port interrupts between the two byte stores of a table entry, a timer interrupt
after `tone` has stopped its timer, the host around every read of an endpoint's status.

| area | files |
|---|---|
| machine integers and the ring discipline | `Bits`, `Ring` |
| UART transmission: machine, FIFO, publish window, flush, progress, races, torn indices, the class | `TxMachine`, `TxFifo`, `TxWindow`, `TxFlush`, `TxProgress`, `TxRaces`, `TxTorn`, `HardwareSerial` |
| UART reception and the USB OUT rings: the lock-free queue, the classes | `Spsc`, `HardwareSerialRx`, `UsbOut` |
| assembly: an AVR interpreter, `_do_dre`, `_do_rxc`, the port-interrupt dispatcher | `Avr`, `SerialLayout`, `DreAsm`, `RxcAsm`, `IsrAsm`, `IsrEarly`, `SerialImage` |
| USB: endpoint status, IN packetisation, endpoint 0 | `UsbEndpoint`, `UsbIn`, `UsbControl` |
| the rest | `PortInterrupts`, `Tone`, `Baud` |

## How to read it

*UART transmission.* A label of `TxMachine` is one access another party could see: an
access of `write` or `flush`, the two halves of a data-register-empty (DRE) service, a
clock of the transmitter. Indices are loaded whole, as they are for rings of up to 256
bytes; `TxTorn` is about larger ones. The log of the machine holds the bytes on the wire, the bytes
accepted, the services since the head was last published, and whether a transmission
completed between the latest clearing of TXCIF and the store after it. `Clean` runs are
those in which DREIE is never switched on over a drained ring.
`HardwareSerialTx.HardwareSerial` does the accesses on fields and registers; a ghost trace
shows that each of its executions is a run. Its wait loops end because every environment
that acts at all makes a lexicographic measure fall: ring length, occupied registers, ticks
left in the frame.

*Assembly.* `Avr` executes programs instruction by instruction on registers, flags, a
stack and 64 KiB of memory. Addresses below 0x1000 are peripheral registers: accesses to
them are recorded in order. User functions called by the dispatcher are arbitrary: they may
rewrite memory, including the tables being scanned. `SerialImage` ties one interrupt of the
assembly to one step of the machines.

*USB.* The host and the interrupts run, any number of times, between any two accesses of
the core. Endpoint status is the set of flags; only the hardware changes the data toggle.

## Where the code and its documentation disagree

- The comments of `_do_dre` give the offsets to `_tx_buffer` as +273, +145, +81, +49 and
  +33 (`megaavr/cores/dxcore/UART.cpp:327-341`); the immediates encode 275, 147, 83, 51 and
  35, and those are the ones that land on the slot (`DreAsm.OffsetLandsOnSlot`).
- `write` claims FIFO order without a bound on what happens between the head store and the
  DREIE store. Two services in that window break it (`TxWindow.TwoServicesSendStaleSlot`);
  `TxRaces.StaleByteFromBegin` is a run from `begin` that transmits a byte nobody wrote. The
  exact condition at the call is `TxRaces.MayBreakOrderIff`: interrupts are on and something
  is queued, that is, availableForWrite() is not SIZE - 1. Inside the call it is
  `TxWindow.PublishIsSafeIff`: the ring is empty at the DREIE store.
- `tx_buffer_index_t` has two bytes for rings above 256, and a macro guards the loads of
  availableForWrite() for them (`megaavr/cores/dxcore/UART.cpp:29-34`), but not those of
  `write`. A service between the two loads of the tail can make a ring of queued bytes look
  empty (`TxTorn.LooksEmptyIff` is the exact condition, `TxTorn.TornTail` an input), and the
  byte written then overtakes them (`TxTorn.TornWrite`).
- `flush` claims that the hardware has finished when it returns. TXCIF can be set between
  its clearing and the store of the byte, and then it returns early
  (`TxRaces.EarlyReturnFromBegin` is such a run from `begin`). `TxRaces.MayReturnEarlyIff` is
  the exact condition at the call: anything queued or in the transmitter before
  `write(c); flush()`.
- `tone` says interrupts need not be off and that a final interrupt is no problem
  (`megaavr/cores/dxcore/Tone.cpp:160`, `212-213`). If that interrupt ends the old tone, it
  clears the clock selection that `tone` has just made, and a new tone that needs the halved
  clock sounds an octave high (`Tone.LateInterruptSoundsAnOctaveHigh`). The contract of
  `Tone.ToneTimer.Play` has the exact condition.
- `attachInterrupt` and `detachInterrupt` replace a two-byte table entry with interrupts on.
  An event served between the two stores calls a mixed address (`PortInterrupts.MixedCall`).
  The exact condition at the call is `PortInterrupts.MayMixIff`: the old and the new address
  differ in both bytes; `PortInterrupts.WindowIsCleanIff` is the one for the events served.
- `detachInterrupt` means to switch the pin's interrupt off
  (`megaavr/cores/dxcore/WInterrupts.c:329`), but its mask 0xF1 keeps the lowest of the three
  sense bits and clears the pull-up: RISING goes off, FALLING and LOW become CHANGE, CHANGE
  stays, and the pull-up goes off (`PortInterrupts.DetachSwitchesOffIff`).
- It means to clear the pin's flag (line 330), but at address 16 * port + 3 instead of
  4 * port + 3: that is right for port A only, and on port B it clears port E's flag
  (`PortInterrupts.DetachClearsItsFlagIff`).
- `isrBody` tests for a null port table after X has been overwritten with the VPORT
  address, so the test never skips anything (`IsrAsm.LoadFlagsRuns`).
- The C receive handler (`megaavr/cores/dxcore/UART.cpp:261-285`) records neither receive
  errors nor overflow; the assembly does. The model follows the assembly.
- `Tone.cpp:192` tests `SUPPORT_LONG_TONES`; the core defines `CORE_SUPPORT_LONG_TONES`
  (`megaavr/cores/dxcore/core_devices.h:1030`), so the 32-bit product is always the plain
  one and long tones are cut short (`Tone.LongToneIsCutShort`).
- `begin` truncates the quotient to 16 bits where a commented-out line would have clamped
  it (`megaavr/cores/dxcore/UART.cpp:620-621`): low rates become other rates
  (`Baud.LowRateIsAnotherRate`).
- In the clocked modes `begin` says it rounds to the nearest valid setting
  (`megaavr/cores/dxcore/UART.cpp:595-604`), but it halves a rate above half the clock first:
  12.1 MHz at 24 MHz becomes 6 MHz and not 12 (`Baud.TooFastClockAt24`; `Baud.TooFastClock`
  is the exact condition).
- `usb_descriptors.c:39` calls the configuration descriptor 150 bytes long; it has 75.

## Model

| member | source | states |
|---|---|---|
| TxFifo.TransmitFifo | megaavr/cores/dxcore/UART.cpp:822-877 | for rings of up to 256 bytes, on every run from `begin` with at most one DRE service per publish window: wire, shift register, data register and ring together are the accepted bytes in order; outside the window DREIE is on iff bytes are queued; the handler never runs on an empty ring |
| TxFifo.CleanRunIsFifo | megaavr/cores/dxcore/UART.cpp:393-422 | the same invariant from any good state, on every run without a drained publish |
| TxFifo.OneServiceIsClean | megaavr/cores/dxcore/UART.cpp:864-874 | one service between head store and DREIE store cannot drain the ring |
| TxWindow.PublishIsSafeIff | megaavr/cores/dxcore/UART.cpp:864-874 | the DREIE store keeps FIFO order in all its clean futures if and only if the ring is not empty |
| TxWindow.DrainedPublishSendsStaleSlot | megaavr/cores/dxcore/UART.cpp:397-421 | after a drained publish the handler sends the unfilled slot at the head and the ring then looks full |
| TxWindow.TwoServicesSendStaleSlot | megaavr/cores/dxcore/UART.cpp:864-874 | the bound of one is tight: with two bytes queued, for any indices, a run with two services in the window transmits a stale slot |
| TxRaces.StaleByteFromBegin | megaavr/cores/dxcore/UART.cpp:822-877 | the same from `begin`: for every ring of 3 to 256 slots and every frame length, three writes and two services in the last window make the fourth byte sent one that nobody wrote |
| TxRaces.MayBreakOrderIff | megaavr/cores/dxcore/UART.cpp:822-877 | at the call of write(c), in any state a clean run reaches: some run of write(c) breaks the FIFO order if and only if interrupts are on, something is queued and the ring has two places or more |
| TxRaces.Overtaken | megaavr/cores/dxcore/UART.cpp:822-877 | one half as a construction, for any ring contents, full or not: a run that sends one byte more than was accepted |
| TxRaces.SafeWriteRun | megaavr/cores/dxcore/UART.cpp:822-877 | the other half: with interrupts off or nothing queued no run of write(c) at all, however the parties interleave, breaks the order |
| TxTorn.LoadTearsIff | megaavr/cores/dxcore/UART.cpp:834 | a tail of two bytes, loaded in either byte order while a service moves it, is neither the old nor the new one if and only if the old one ends a page of 256 |
| TxTorn.LooksEmptyIff | megaavr/cores/dxcore/UART.cpp:834 | `write` takes a non-empty ring for an empty one if and only if such a load tears with 255 bytes (low byte first) or SIZE - 256 bytes (high byte first) queued |
| TxTorn.TornTail | megaavr/cores/dxcore/HardwareSerial.h:130-134 | an input: 512 bytes, head 0x01FF, tail moving from 0x00FF to 0x0100 |
| TxTorn.Overtakes | megaavr/cores/dxcore/UART.cpp:834-855 | the fast path taken with bytes queued stores its byte before them; the order survives iff they all equal it |
| TxTorn.TornWrite | megaavr/cores/dxcore/UART.cpp:822-855 | the two together, for every ring above 256 bytes and either byte order: one service between the loads, and the byte written overtakes all that is queued |
| TxWindow.AvailableForWriteIsStable | megaavr/cores/dxcore/UART.cpp:777-789 | if availableForWrite() says n, none of the next n calls of write() enters the wait loop, whatever the handler does |
| TxFlush.FlagRun | megaavr/cores/dxcore/UART.cpp:408-412 | over every clean run TXCIF tells the truth: an idle transmitter that has sent a byte has it set, and during a transmission it is set iff the gap was struck |
| TxFlush.FlushReturnsExactly | megaavr/cores/dxcore/UART.cpp:810-818 | with bytes unsent, flush() gets past its last test if and only if a completion struck the latest clear-to-store gap; with none unsent it always does |
| TxFlush.FlushMeansOnTheWire | megaavr/cores/dxcore/UART.cpp:791-819 | on runs where clear and store are not separated by a completion, flush() returns only when every byte accepted since begin has left the shift register |
| TxFlush.StruckFlushReturnsEarly | megaavr/cores/dxcore/UART.cpp:834-839 | from any state with a byte in the shift register and TXDATAL free, a run exists on which write() then flush() return with the new byte unsent |
| TxRaces.MayReturnEarlyIff | megaavr/cores/dxcore/UART.cpp:791-877 | at the call of write(c), in any state a clean run reaches: some run of write(c) then flush() returns with a byte unsent if and only if anything was queued or in the transmitter before |
| TxRaces.BusyMayReturnEarly | megaavr/cores/dxcore/UART.cpp:791-877 | one half as a construction, with interrupts on or off and any ring contents: both calls return, everything else sent, c still in TXDATAL |
| TxRaces.StageRun | megaavr/cores/dxcore/UART.cpp:791-877 | the other half: from a quiet port no run at all, however the parties interleave, returns before c is on the wire |
| TxRaces.EarlyReturnFromBegin | megaavr/cores/dxcore/UART.cpp:791-877 | from `begin`, for every ring of up to 256 bytes, frame length and interrupt setting: write(a), write(c), flush() return with only a sent |
| TxProgress.UsefulDescends | megaavr/cores/dxcore/UART.cpp:810-816 | every useful step of handler or transmitter lowers the measure (stray DREIE, ring length, registers, frame ticks) |
| TxProgress.UsefulPollDescends | megaavr/cores/dxcore/UART.cpp:426-480 | so does every poll that finds something to do with interrupts off |
| TxProgress.NoDeadlock | megaavr/cores/dxcore/UART.cpp:810-863 | a main thread that waits in write() or flush() always has a useful step left in the system |
| TxProgress.UsefulStepExists | megaavr/cores/dxcore/UART.cpp:810-816 | while anything is in flight, in service or enabled, a step that lowers the measure can be taken |
| TxProgress.PollRoundDescends | megaavr/cores/dxcore/UART.cpp:810-816 | one pass of a wait loop, with the interference around it, lowers the measure unless the transmitter is already idle |
| HardwareSerialTx.HardwareSerial.Write | megaavr/cores/dxcore/UART.cpp:822-877 | write() terminates in every environment, accepts exactly its byte, and is a run of the machine |
| HardwareSerialTx.HardwareSerial.Flush | megaavr/cores/dxcore/UART.cpp:791-819 | flush() terminates in every environment; on a clean history all accepted bytes are then on the wire unless the latest gap was struck |
| HardwareSerialTx.HardwareSerial.WaitForRoom | megaavr/cores/dxcore/UART.cpp:859-863 | the wait on a full ring ends with a free slot, by interrupts or by polling |
| HardwareSerialTx.HardwareSerial.PollTxDataEmpty | megaavr/cores/dxcore/UART.cpp:426-480 | with interrupts on or TXDATAL full the poll does nothing; else it switches DREIE off over an empty ring, or services the oldest byte, lowering the measure; the run continues |
| HardwareSerialTx.HardwareSerial.TxDataEmptyIrq | megaavr/cores/dxcore/UART.cpp:393-422 | the C handler is one service of the machine, stores the oldest byte, and touches nothing of the main thread |
| HardwareSerialTx.HardwareSerial.AvailableForWrite | megaavr/cores/dxcore/UART.cpp:777-789 | the number of free places at the moment the tail is loaded |
| DreAsm.InterruptRefinesC | megaavr/cores/dxcore/UART.cpp:303-389 | entered as an interrupt, `_do_dre` leaves memory and register accesses as the C handler does, for every object address, tail, memory and all 25 buffer-size pairs, and restores every register, flag and the stack |
| DreAsm.PollRefinesC | megaavr/cores/dxcore/UART.cpp:458-474 | entered from the poll it has the same effect, returns to the poll and keeps the call-saved registers |
| DreAsm.OffsetLandsOnSlot | megaavr/cores/dxcore/UART.cpp:325-343 | for each receive size the subtraction modulo 2^16 moves X to `_tx_buffer[tail]` |
| RxcAsm.InterruptMeetsSpec | megaavr/cores/dxcore/UART.cpp:173-254 | `_do_rxc`, with or without the wake workaround: bits 2, 3 and 7 of `_state` gain parity, framing and overflow errors, bit 6 a ring overflow iff a parity-clean byte met a full ring, and no bit is lost; such a byte is queued otherwise; the data registers are read high byte first, after bit 4 of CTRLB alone is cleared; everything else is restored |
| SerialLayout.FieldsInOrder | megaavr/cores/dxcore/HardwareSerial.h:229-242 | the offsets used by both handlers are those of the fields as declared |
| SerialImage.DreInterruptIsService | megaavr/cores/dxcore/UART.cpp:303-389 | one DRE interrupt of the assembly on the memory image is one service of the transmit machine, with the same byte, TXCIF clear and DREIE decision |
| SerialImage.CHandlerIsService | megaavr/cores/dxcore/UART.cpp:393-422 | the same for the C handler |
| SerialImage.RxcInterruptIsArrival | megaavr/cores/dxcore/UART.cpp:173-254 | one receive interrupt of the assembly is one arrival at the queue machine; the transmit image is untouched by its specification |
| SerialImage.RxCompleteIsArrival | megaavr/cores/dxcore/HardwareSerial.h:223-245 | the receive specification on the field layout is that arrival |
| Spsc.FillAppendsPrefix | megaavr/cores/dxcore/USBCore_DU_dyn.cpp:466-473 | the handler's copy loop appends exactly the prefix of length min(length, SIZE - 1 - unread) |
| Spsc.RunSound | megaavr/cores/dxcore/UART.cpp:766-775 | on every interleaving of reader and handler, received followed by queued is exactly the accepted sequence |
| Spsc.RingRefinesQueue | megaavr/cores/dxcore/USBCore_DU_dyn.cpp:249-258 | on every interleaving the ring with its indices behaves as a bounded queue without indices |
| Spsc.CountIsStable | megaavr/cores/dxcore/UART.cpp:754-756 | if a count of unread elements says n, the next n reads find data, whatever the handler does |
| HardwareSerialRx.FrameAccepted | megaavr/cores/dxcore/UART.cpp:192-234 | a received byte is accepted iff it is parity-clean and fewer than SIZE - 1 bytes are unread |
| HardwareSerialRx.HardwareSerial.RxComplete | megaavr/cores/dxcore/UART.cpp:173-254 | the receive interrupt on fields: one arrival, and the same bit-by-bit record of errors in the state byte |
| HardwareSerialRx.HardwareSerial.Read | megaavr/cores/dxcore/UART.cpp:766-775 | read() returns the next accepted byte not yet returned; -1 only if none was unread at the call |
| HardwareSerialRx.HardwareSerial.Available | megaavr/cores/dxcore/UART.cpp:754-756 | available() counts the unread bytes and never overstates what a later read will find |
| HardwareSerialRx.HardwareSerial.Peek | megaavr/cores/dxcore/UART.cpp:758-764 | peek() returns the byte the next read will |
| IsrAsm.IsrBodyRefinesC | megaavr/cores/dxcore/WInterrupts.c:147-234 | for an enabled port, any flag byte and any user functions, the assembly terminates, makes the C scan's calls and accesses in its order, reads the flags first and writes the same value back last with nothing but calls between, and restores every register, flag and the stack |
| IsrAsm.LoopScans | megaavr/cores/dxcore/WInterrupts.c:189-200 | the dispatch loop alone, from any bit on, is the C bit scan, also when user functions rewrite the table while it runs |
| IsrAsm.EarlyClearScans | megaavr/cores/dxcore/WInterrupts.c:272-287 | the early-clearing loop: the same calls follow the write of the snapshot instead of preceding it |
| IsrEarly.IsrBodyRefinesC | megaavr/cores/dxcore/WInterrupts.c:236-317 | the whole early-clearing handler: it terminates, makes those calls and accesses between its save and restore of RAMPZ, and restores every register, flag and the stack |
| IsrAsm.LoadFlagsRuns | megaavr/cores/dxcore/WInterrupts.c:181-188 | the flags are read once and the null-table test never branches |
| IsrAsm.QuietScanCallsAttached | megaavr/cores/dxcore/WInterrupts.c:571-601 | for user functions that leave the table alone, the scan calls exactly the non-null functions of the set bits, once each, ascending |
| PortInterrupts.Dispatcher.PortInterruptHandler | megaavr/cores/dxcore/WInterrupts.c:571-601 | each set flag of the snapshot is served once, ascending, with what its table entry holds when it is reached; an event during the user functions that no later detachment clears survives iff its pin was not in the snapshot |
| PortInterrupts.Dispatcher.EarlyClearHandler | megaavr/cores/dxcore/WInterrupts.c:269-287 | with early clearing every event after the clear that no later detachment clears survives; only one between read and clear on a snapshot pin is lost |
| PortInterrupts.EntryIsLastAttached | megaavr/cores/dxcore/WInterrupts.c:132-143 | after any history of complete attachments and detachments, an entry is the function last attached and not since detached |
| PortInterrupts.ReplacedEntry | megaavr/cores/dxcore/WInterrupts.c:132-143 | after an attachment whose two stores handlers may have separated with stores of their own, the entry is the new function iff its first byte was not replaced by a different one |
| PortInterrupts.WindowIsCleanIff | megaavr/cores/dxcore/WInterrupts.c:132-143 | with any dispatches between the two byte stores, every event of the pin finds the old or the new function if and only if none was served or the two addresses agree in one byte |
| PortInterrupts.MayMixIff | megaavr/cores/dxcore/WInterrupts.c:132-143 | at the call: some event between the two stores can find a mixed address if and only if the old and the new function differ in both bytes |
| PortInterrupts.MixedCall | megaavr/cores/dxcore/WInterrupts.c:134 | an input where neither function is called |
| PortInterrupts.Dispatcher.AttachInterrupt | megaavr/cores/dxcore/WInterrupts.c:110-144 | bad pins, modes, functions and disabled ports change nothing; otherwise the entry is replaced byte by byte with interrupts in between, under that exact condition, and the pin's sense field, alone, is set to raise its flag on exactly the transitions of the mode: both edges, falling, rising or low level |
| PortInterrupts.Dispatcher.DetachInterrupt | megaavr/cores/dxcore/WInterrupts.c:321-332 | a pin without a port changes nothing; otherwise the control register is masked, one flag cleared and the entry replaced by 0 byte by byte, with handlers between the load and the store of the register and before and between the entry's stores, under the same exact condition |
| PortInterrupts.DetachSwitchesOffIff | megaavr/cores/dxcore/WInterrupts.c:329 | after an attachment the mask leaves a sense that no transition raises if and only if the mode was RISING; every other mode becomes CHANGE; the pull-up always goes off |
| PortInterrupts.DetachClearsItsFlagIff | megaavr/cores/dxcore/WInterrupts.c:330 | the flag store clears the pin's own flag if and only if the port is A; on port B it clears the one of port E; every other flag stays |
| PortInterrupts.LateClearKeeps | megaavr/cores/dxcore/WInterrupts.c:202-204 | writing the snapshot back clears exactly its flags |
| PortInterrupts.QuietPassCallsAttached | megaavr/cores/dxcore/WInterrupts.c:571-601 | if no entry of the port changes meanwhile, the calls are the non-null entries of the set pins, ascending |
| UsbOut.OutEndpoint.ServiceTrnCompl | megaavr/cores/dxcore/USBCore_DU_dyn.cpp:456-479 | a completed packet is acknowledged, what is kept of the bytes the host sent is appended to the ring and to the accepted bytes, and the endpoint is re-armed with its toggle kept; without one nothing happens |
| UsbOut.KeptIs | megaavr/cores/dxcore/USBCore_DU_dyn.cpp:464-473 | of a packet the first min(length, 64, 63 - unread) bytes are kept |
| UsbOut.OutEndpoint.AcceptedIsKept | megaavr/cores/dxcore/USBCore_DU_dyn.cpp:456-479 | at every moment, what USB_Recv has returned and what is still queued is, packet by packet, what is kept of the packets the host sent |
| UsbOut.OutEndpoint.Recv | megaavr/cores/dxcore/USBCore_DU_dyn.cpp:280-292 | with packets and interrupts between any two accesses, what is returned continues the accepted bytes in order, the rest of the buffer is kept, and it is short only if the ring was empty; -1 for a bad endpoint |
| UsbOut.OutEndpoint.RecvByte | megaavr/cores/dxcore/USBCore_DU_dyn.cpp:293-296 | the next accepted byte, or -1 for a bad endpoint or an empty ring |
| UsbOut.OutEndpoint.Available | megaavr/cores/dxcore/USBCore_DU_dyn.cpp:264-271 | at least what was unread at the call and at most what is unread after it; 0 for a bad endpoint |
| UsbOut.OutEndpoint.HostSends | megaavr/cores/dxcore/USBCore_DU_dyn.cpp:443-445 | a packet of any length lands, its first 64 bytes in the buffer; every packet is serviced once before the next, and the k-th carries the alternating data PID |
| UsbIn.Packetised | megaavr/cores/dxcore/USBCore_DU_dyn.cpp:356-374 | the packets cut from a byte sequence are full, the rest is at most 64 bytes and empty only for nothing, and together they are the sequence |
| UsbIn.StageNext | megaavr/cores/dxcore/USBCore_DU_dyn.cpp:357-374 | one pass of the copy loop, into a full or a part-filled buffer, continues that packetisation |
| UsbIn.InEndpoint.Send | megaavr/cores/dxcore/USBCore_DU_dyn.cpp:347-381 | unless a release timed out: the packets taken are those of staged and given bytes, plus the rest on TRANSFER_RELEASE; taken and staged bytes are all bytes given, in order; the buffer was never written while the hardware owned it; the result is len, or -1 exactly for a bad argument or a timeout |
| UsbIn.InEndpoint.Release | megaavr/cores/dxcore/USBCore_DU_dyn.cpp:315-345 | the host takes exactly the staged bytes as one packet, with the next data PID; or the release gives up, with the hardware still owning the buffer |
| UsbIn.InEndpoint.Await | megaavr/cores/dxcore/USBCore_DU_dyn.cpp:318-336 | each busy-wait ends after at most 65536 reads, and fails only after as many |
| UsbIn.InEndpoint.Flush | megaavr/cores/dxcore/USBCore_DU_dyn.cpp:303-309 | staged bytes leave as one short packet; nothing staged, no packet |
| UsbIn.InEndpoint.SendSpace | megaavr/cores/dxcore/USBCore_DU_dyn.cpp:274-278 | exactly the lengths up to it can be staged without a packet leaving |
| UsbControl.Accumulator.SendControl | megaavr/cores/dxcore/USBCore_DU_dyn.cpp:77-89 | the accumulator holds the first 192 bytes of all that was sent, and the result says how many were kept |
| UsbControl.Accumulator.LoadFromFlash | megaavr/cores/dxcore/USBCore_DU_dyn.cpp:66-72 | the same for descriptors in flash |
| UsbControl.Accumulator.BuildConfigDescriptor | megaavr/cores/dxcore/USBCore_DU_dyn.cpp:98-127 | for any module emissions the accumulator is the composite descriptor |
| UsbControl.ConfigParts | megaavr/cores/dxcore/USBCore_DU_dyn.cpp:106-126 | that descriptor is the patched header, the 66-byte CDC block and the first 117 bytes of the modules |
| UsbControl.WalkEndsAtTotalLength | megaavr/cores/dxcore/USBCore_DU_dyn.cpp:123-126 | wTotalLength decodes to the emitted length, and a walk by bLength ends there iff what fits of the modules is a chain of descriptors |
| UsbControl.WholeConfigIsWellFormed | megaavr/cores/dxcore/USBCore_DU_dyn.cpp:103-127 | untruncated chained emissions that count their interfaces honestly: the walk ends at wTotalLength after exactly bNumInterfaces interfaces |
| UsbControl.CdcBlock | megaavr/cores/dxcore/usb_descriptors.c:51-117 | the shared CDC block is 66 bytes, a chain, and has two interfaces |
| UsbControl.CdcInterfaces | megaavr/cores/dxcore/usb_descriptors.c:51-117 | the association covers interfaces 0 and 1, which follow in order, each with as many endpoint descriptors as it announces |
| UsbControl.CdcEndpoints | megaavr/cores/dxcore/USBCore_DU_dyn.cpp:141-146 | the endpoints declared are 1, 2 and 3, each with the direction and type of the endpoint table and packets of at most 64 bytes |
| UsbControl.HeaderFields | megaavr/cores/dxcore/USBCore_DU_dyn.cpp:107-117 | configuration 1, bus-powered with remote wakeup, 100 mA |
| UsbControl.TruncatedWalkIff | megaavr/cores/dxcore/USBCore_DU_dyn.cpp:79-81 | chained modules too long for the accumulator: the walk still ends at wTotalLength iff the cut falls between two descriptors |
| UsbControl.TruncationBreaksTheWalk | megaavr/cores/dxcore/USBCore_DU_dyn.cpp:79-81 | an input, one 200-byte descriptor, that is cut |
| UsbControl.ControlOut.Begin | megaavr/cores/dxcore/USBCore_DU_dyn.cpp:204-212 | the SETUP is kept for the dispatch and the armed length is wLength capped at one packet |
| UsbControl.ControlOut.Dispatch | megaavr/cores/dxcore/USBCore_DU_dyn.cpp:217-237 | the module gets the SETUP kept by Begin, converted; its reads, of any lengths, see the staged bytes from the first, each once and in order, never more than asked for, and come back short only at the end |
| Tone.Search | megaavr/cores/dxcore/Tone.cpp:207-235 | for a half period of c cycles: division in 0..6 after k <= 7 halvings, realised P with P <= c < P + 2^k and 2^k * 0x8000 <= c, exact below 2^16, saturated at 2^23 |
| Tone.EveryFrequencyHasASetting | megaavr/cores/dxcore/Tone.cpp:211-224 | at 12, 16, 20 and 24 MHz no 16-bit frequency needs c = 0x10000 |
| Tone.ToggleCountIsExactIff | megaavr/cores/dxcore/Tone.cpp:191-205 | the toggle count is frequency * duration / 500 iff the product fits 32 bits |
| Tone.LongToneIsCutShort | megaavr/cores/dxcore/Tone.cpp:192-200 | an input whose count is too small |
| Tone.CountedToneEnds | megaavr/cores/dxcore/Tone.cpp:318-329 | count N gives exactly N + 1 toggles in (N + 1) * cycles interrupts and then silence with the pin low and `_pin` cleared; the interrupt before has count 1 and no toggles left |
| Tone.EndlessToneRuns | megaavr/cores/dxcore/Tone.cpp:318-329 | count -1 never stops by itself and toggles every cycles interrupts |
| Tone.LevelFollowsToggles | megaavr/cores/dxcore/Tone.cpp:318-329 | while a tone sounds, after any number of interrupts the level of its pin is the first one turned over once per toggle, and no other pin moves |
| Tone.EdgeIff | megaavr/cores/dxcore/Tone.cpp:318-329 | the level changes at every cycles-th interrupt and at no other |
| Tone.NoToneSilences | megaavr/cores/dxcore/Tone.cpp:274-310 | noTone on the sounding pin, at any point of the run, ends it low for good; on another pin the run goes on as if it had not been called |
| Tone.ToneTimer.NoTone | megaavr/cores/dxcore/Tone.cpp:274-310 | noTone() on the active pin leaves it low, the timer and its interrupt off and `_pin` cleared; on another pin nothing changes |
| Tone.ToneTimer.TimerInterrupt | megaavr/cores/dxcore/Tone.cpp:318-329 | the interrupt is one tick of that machine, and a pin is high only while it sounds |
| Tone.ClockMatters | megaavr/cores/dxcore/Tone.cpp:219-224 | a setting for c > 0x10000 on the undivided clock fits no longer and is an octave high |
| Tone.LateInterruptSoundsAnOctaveHigh | megaavr/cores/dxcore/Tone.cpp:222-264 | an input: 100 Hz at 24 MHz, asked for as the old tone's last interrupt is pending, sounds at 200 Hz |
| Tone.ToneTimer.Play | megaavr/cores/dxcore/Tone.cpp:159-265 | tone() does nothing for a bad pin; otherwise, with or without an interrupt served just after the timer is stopped, it starts the tone asked for (endless without a duration), leaves no other pin high, its compare value is exact up to 16 bits, and its half period fits the frequency unless c > 0x10000 and that interrupt ended the old tone |
| Baud.Setting | megaavr/cores/dxcore/UART.cpp:590-619 | double speed iff the rate exceeds a sixteenth of the clock; at 8 or 16 samples a bit the rate realised is the one asked for (less one if odd at double speed) to the last place of the register, or half a step in the clocked modes, whose argument is an eighth of the rate, if and only if that rate is in range; otherwise too high a rate stores 64 |
| Baud.AsyncIsQuotientIff | megaavr/cores/dxcore/UART.cpp:594-617 | asynchronous: b * BAUD <= 4 * F_CPU < b * (BAUD + 1) iff 64 <= D < 65536 |
| Baud.ClockedIsNearestIff | megaavr/cores/dxcore/UART.cpp:605-615 | clocked modes: BAUD is a non-zero multiple of 64, within 32 of D iff 32 <= D < 0xFFE0 |
| Baud.TooFastClock | megaavr/cores/dxcore/UART.cpp:590-615 | clocked modes, a rate above half the clock: stored as half the highest rate iff it is at most two thirds of the clock, else as the highest |
| Baud.TooFastClockAt24 | megaavr/cores/dxcore/HardwareSerial.h:216-220 | an input: 12.1 MHz at 24 MHz becomes 6 MHz |
| Baud.LowRateIsAnotherRate | megaavr/cores/dxcore/UART.cpp:594 | 300 baud at 24 MHz is stored as 1659 baud |

## Left out

- Half-duplex mode (`_state & 2`) and `_do_txc`: echo suppression depends on instruction timing that the code does not fix.
- Writers re-entering `write` from an interrupt, which the code calls unsupported.
- Stickiness of the error bits of `_state` across the main thread's own non-atomic updates of that byte.
- TxFifo.TransmitFifo: for rings of up to 256 bytes, like every result on runs of the transmit machine and the class; above that `write` loads the tail in two accesses, and the order can be lost (`TxTorn.TornWrite`).
- TxTorn: only the emptiness test and one service between its two loads; the full test of the wait loop and the two-byte store of the head can be struck likewise.
- TxMachine: the handler's tail store and DREIE store are one step; the main thread is stopped meanwhile and the transmitter reads neither.
- Avr: the flags N, V, S and H are kept but not computed, the stack is separate from memory, and branch distances count instructions.
- IsrAsm: the RAMPZ save of the late-clearing handler, compiled only for parts above 64 KiB; a port must be enabled.
- PortInterrupts.Dispatcher.DetachInterrupt: on a port that is not enabled the source, which has no test for it, stores through a null table; the model excludes that case. For ports above B the flag store goes to registers that are not modelled.
- PortInterrupts: pin numbers are looked up in a given map; the sense codes are those of the device header, which is not part of this model.
- UsbIn.InEndpoint.Release: after a timeout the packet stays armed; what the host then receives from a buffer that later calls write is not stated.
- USB endpoint loops: each object is one endpoint, selected by `ep & 7`; sixteen-slot configurations alias it.
- Waiting for RMWBUSY, the plugged part of the endpoint type table, SET_CONFIGURATION and PluggableUSB's allocation: register plumbing.
- UsbControl.Accumulator.PluggedGetInterfaces: plugged modules are arbitrary sequences of USB_SendControl calls, each with the interfaces it counts.
- Tone.ToneTimer.Play: with interrupts off at the call, an interrupt still pending afterwards counts as the new tone's first; c = 0x10000 cannot arise at the documented clocks.
- Tone: restoring PWM on the timer, and other code driving the same pin.
- Baud.Setting: the rest of `begin` (pin setup, frame options) is not part of this model.
- Pin maps, `swap`, `getPin`, `printHex`, `random`, Wire, SPI, start-up code: lookups, easy members or wrappers.
