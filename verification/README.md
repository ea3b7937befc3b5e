# PiSCSI bus core, scsidump, scsiexec and host services — a Dafny model

This project models the core of PiSCSI, the SCSI device emulator for the
Raspberry Pi:

- **The bus layer.**
  - The `BUS` vocabulary and its SCSI-2 timings.
  - The `GPIOBUS` handshake engine: `CommandHandShake`, `ReceiveHandShake`, `SendHandShake` and `WaitSignal`. The target and initiator sides are modelled separately.
  - The Raspberry Pi data sample decoder.
  - The `GPIOBUS_Factory`.
  - The in-process bus used by the tests, in both of its forms: the field-based header and the map-based implementation file.
- **scsidump.**
  - Option parsing.
  - The phase executor: arbitration, selection, and the COMMAND, STATUS, DATA IN/OUT and MESSAGE IN/OUT phases.
  - The command helpers TEST UNIT READY, INQUIRY, READ CAPACITY(10)/(16), READ/WRITE(10), SYNCHRONIZE CACHE and REPORT LUNS, both in `scsidump_core.cpp` and in the separate `ScsiExecutor`.
  - The bus scan, INQUIRY display, device information and the dump/restore loop.
- **scsiexec.** The `ScsiExecutor`, which sends a protobuf command file with the vendor EXECUTE command and shuts the host down with START STOP UNIT.
- **The host services device (SCHS).** TEST UNIT READY, START STOP UNIT, EXECUTE, MODE SENSE(6)/(10) and the realtime clock mode page.
- **`CTapDriver`.** Construction, the open() that starts Init, the receive path and the release of the TAP descriptor.

## How things are modelled

- **Bytes are `bv8`.** Fixed-width values are bit-vectors where the source computes on `uint32_t`/`uint64_t`. Casts that truncate are written out (`LowInt`, `Low`, `IdBit`, `LunBits`).
- **The bus as a class.**
  - `GpioBus.GpioBus` is a class over a scripted peer. The peer's samples are a function from acquisition index to line levels, and `now` is the next acquisition.
  - Every line this side drives, every wait and its outcome, every IRQ change and every extra pause is appended to `log`.
  - Each handshake method is proved equal to a recursive specification function. What the source promises is proved about those functions as lemmas: counts, which slots are written, that REQ/ACK are always released after being asserted, where ATN is dropped, and IRQ bracketing.
- **Wall-clock windows become budgets.**
  - The 3 s window of `WaitSignal` is a budget of polls (`polls`).
  - The 3 s REQ window of `ScsiDump::Execute` is a budget of `window` idle polls and `rounds` dispatches.
  - `nanosleep` and `SysTimer` delays are not modelled; the SCSI-2 timings are kept as constants.
- **`NO_DELAY` is defined** (`cpp/shared/config.h:20`). The phase checks in the initiator loops that it compiles out are not in the model.
- **Tables become parameters.** The opcode→CDB-length table (`GetCommandByteCount`), the pin numbers, `GetScsiIdMax`/`GetScsiLunMax` and the EXECUTE opcode (from `shared/scsi.h`, which is not part of this model) are all parameters.
- **The decoded phase is part of the script.** Each scripted sample carries the phase `GetPhase` would decode from it, so the phase table itself does not appear.
- **Arithmetic of the dump loop.** Sector counts and transfer lengths use recursive `Mul`, `Quot` and `Rem` on natural numbers, proved equal to `*`, `/` and `%` (`DumpPlan.MulIsProduct`, `DumpPlan.QuotRem`), so the proofs about the loop only meet linear steps.
- **scsidump as a class over a snapshot.**
  - `ScsiDump.ScsiDump` holds the bus, the phase executor's IDs, the buffer and `issued`, the list of commands sent so far. Each entry gives the operation, the CDB as its helper built it, the target ID, the LUN, the data length and the result.
  - Each method's new state and result are those of a specification function on a snapshot of that state (`ExecuteSpec`, `ReadCapacitySpec`, `ScanBusSpec`, `DumpRestoreSpec`, …). The lemmas in `ScsiDumpFacts` state, about `issued` and the results, what those functions do.
  - The dump invariant (`ScsiDumpFacts.Dumped`) ties a dump or restore to the corrected plan. The chunks moved are a prefix of the plan, each moved by one READ/WRITE(10) that succeeded. Done means the whole plan moved and, for a restore, one SYNCHRONIZE CACHE followed. An error stops after the failing chunk's command. An early error sends nothing.
- **Outside effects become inputs.** Files, the protobuf parser, `localtime` and `poll`/`read` on the TAP descriptor are inputs of the member that uses them.

Several behaviours of the source are modelled exactly as written, and lemmas state their consequences:

- `InProcessBus::SetACK` stores into `act`, so `GetACK` never changes (`InProcessFields.InProcessBus.AckNeverSet`).
- In `ReportLuns`, `/ 8` binds tighter than `|`, so only byte 3 is divided (`ScsiCommands.LunCountAsWritten`). Byte `offset + 1` is used for two bytes of each LUN entry and byte `offset + 2` never (`ScsiCommands.LunAt`).
- The ICD branch of `CommandHandShake` does not look at the result of its last `WaitACK(OFF)` (`GpioBus.IcdPrefix`).
- Arbitration compares the whole data bus with the own ID bit, so an initiator loses to lower IDs as well as higher ones (`PhaseExecutor.ArbitrationLosesToAnyOtherBit`, `PhaseExecutor.ArbitrationLosesToLowerId`).
- The INQUIRY CDB asks for 255 bytes while the data phase is given 256.
- scsiexec opens the binary output file but never writes it. Its "JSON output file" message can never appear, because that branch is inside `if (binary)`.

## Model

| member | source | states |
|---|---|---|
| DataSample.EmptyReadsReleased | cpp/hal/data_sample_raspberry.h:97-102 | a default-constructed sample reads every line as released and its raw capture is 0 |
| DataSample.GetDatAsWrittenTwoValues | cpp/hal/data_sample_raspberry.h:77-87 | GetDAT as written can only return 0 or 0x80 |
| DataSample.GetDatBits | cpp/hal/data_sample_raspberry.h:77-87 | in the corrected gather, bit k of the data byte is set exactly when pin DTk is high |
| DataSample.GetDatAsWrittenDropsBit0 | cpp/hal/data_sample_raspberry.h:77-87 | with only DT0 high the data byte is 0x01 but GetDAT as written returns 0 |
| DumpOptions.ApplyAllAccepts | cpp/scsidump/scsidump_core.cpp:97-149 | the option loop succeeds iff every option passes its own check, then has applied all of them in order; a rejection carries the error of a failing option |
| DumpOptions.SetAllKeepsChecked | cpp/scsidump/scsidump_core.cpp:97-149 | applying accepted options keeps the board ID in 0..7 and the buffer size at least 64 KiB |
| DumpOptions.ParseSpecConsistent | cpp/scsidump/scsidump_core.cpp:91-172 | accepted settings have a valid board ID and buffer size, a file name unless scanning or inquiring, a target unless scanning, distinct IDs, a LUN, and never both scan and inquiry |
| DumpOptions.ParseSpecAccepts | cpp/scsidump/scsidump_core.cpp:91-172 | the parse is accepted iff every option passes and the resulting settings pass the three final checks |
| DumpOptions.ParseArguments | cpp/scsidump/scsidump_core.cpp:91-172 | the option loop and final checks compute exactly the parse specification |
| DumpPlan.EffectiveSize | cpp/scsidump/scsidump_core.cpp:681-705 | a dump moves the disk size; a restore moves the smaller of file and disk size |
| DumpPlan.MulIsProduct | cpp/scsidump/scsidump_core.cpp:736-738 | the recursive product of two counts is their product |
| DumpPlan.QuotRem | cpp/scsidump/scsidump_core.cpp:722-723 | the recursive quotient and remainder are the integer division and remainder of non-negative operands |
| DumpPlan.SectorsForIsDivision | cpp/scsidump/scsidump_core.cpp:722-725 | the sector count is the quotient plus one when the remainder is not 0, as the source computes it |
| DumpPlan.SectorsForCeiling | cpp/scsidump/scsidump_core.cpp:722-725 | the sector count is the ceiling: enough sectors for the bytes, and one fewer is not |
| DumpPlan.SectorsForAtMost | cpp/scsidump/scsidump_core.cpp:722-725 | bytes that fit in k sectors need at most k sectors |
| DumpPlan.SectorsForFits | cpp/scsidump/scsidump_core.cpp:722-725 | the transfer of those sectors is at most k sectors long |
| DumpPlan.PlanTotal | cpp/scsidump/scsidump_core.cpp:720-755 | the byte counts of the passes add up to the effective size |
| DumpPlan.PlanAt | cpp/scsidump/scsidump_core.cpp:720-755 | each pass moves 1 to step bytes in the sectors that hold them, and every pass but the last a full step |
| DumpPlan.PlanChunks | cpp/scsidump/scsidump_core.cpp:720-755 | the same for all passes at once |
| DumpPlan.PlanContiguous | cpp/scsidump/scsidump_core.cpp:750-751 | each pass starts at the sector after the previous one ends, the first at the start sector |
| DumpPlan.PlanCovers | cpp/scsidump/scsidump_core.cpp:720-755 | all of it at once: the passes total the size, start at the first sector, follow each other, hold their bytes, and all but the last are full |
| DumpPlan.AsWrittenPlanOverrunsBuffer | cpp/scsidump/scsidump_core.cpp:721-738 | as written, a 100000-byte buffer with 512-byte sectors gets a first transfer of 196 sectors = 100352 bytes |
| DumpPlan.AsWrittenPlanOverruns | cpp/scsidump/scsidump_core.cpp:721-738 | as written, for every buffer that is not a whole number of sectors and an image at least one buffer long, the first transfer moves the whole buffer in sectors spanning more bytes than the buffer has |
| DumpPlan.WholeSectors | cpp/scsidump/scsidump_core.cpp:721 | the corrected step is the largest multiple of the sector size not above the buffer size, the buffer size itself when it is a multiple |
| DumpPlan.BufferPlanFits | cpp/scsidump/scsidump_core.cpp:720-755 | in the corrected plan every transfer fits the buffer; with a buffer that is a whole number of sectors, the plan is the one as written |
| DumpPlan.BufferPlanStep | cpp/scsidump/scsidump_core.cpp:720-755 | one step of the corrected loop moves the next chunk of the plan |
| DumpPlan.BufferPlanTotal | cpp/scsidump/scsidump_core.cpp:720-755 | the corrected plan still moves every byte of the effective size |
| GpioBus.PollOutcome | cpp/hal/gpiobus.cpp:406-426 | WaitSignal polls at least once and within its budget, succeeds iff some poll shows the level before any shows RST, and stops at the deciding poll |
| GpioBus.WaitAdvances | cpp/hal/gpiobus.cpp:406-426 | every wait consumes at least one acquisition |
| GpioBus.TargetInShape | cpp/hal/gpiobus.cpp:164-197 | one target byte pulses REQ around its ACK wait, never asserts ACK, and succeeds iff both waits succeeded |
| GpioBus.TargetReceiveFacts | cpp/hal/gpiobus.cpp:163-197 | the target receive count lies between start and end, reaches the end iff no wait timed out, and only slots up to the failed byte are written |
| GpioBus.TargetReceiveLines | cpp/hal/gpiobus.cpp:163-197 | the target receive loop leaves IRQs alone, never asserts ACK, and releases REQ after each assertion |
| GpioBus.InitiatorInLines | cpp/hal/gpiobus.cpp:203-250 | one initiator receive byte leaves IRQs alone and never asserts REQ |
| GpioBus.InitiatorInPulsed | cpp/hal/gpiobus.cpp:226-235 | one initiator receive byte releases ACK after its REQ wait |
| GpioBus.InitiatorInOutcome | cpp/hal/gpiobus.cpp:203-250 | one initiator receive byte succeeds iff no wait timed out and the phase held, and then stored its byte |
| GpioBus.InitiatorReceiveFacts | cpp/hal/gpiobus.cpp:198-250 | the initiator receive count reaches the end iff no wait timed out and the phase never changed; no slot past the failed one is written |
| GpioBus.InitiatorReceiveLines | cpp/hal/gpiobus.cpp:198-250 | the initiator receive loop leaves IRQs alone, never asserts REQ, and always releases ACK |
| GpioBus.TargetOutLines | cpp/hal/gpiobus.cpp:271-307 | one target send byte leaves IRQs alone, never asserts ACK, and pulses REQ around its ACK wait |
| GpioBus.TargetOutOutcome | cpp/hal/gpiobus.cpp:271-307 | one target send byte succeeds iff no wait timed out, and pauses iff asked to |
| GpioBus.TargetSendFacts | cpp/hal/gpiobus.cpp:270-310 | the target send count reaches the end iff no wait timed out; the extra pause happens once, exactly when byte delay_after_bytes is reached |
| GpioBus.TargetSendLines | cpp/hal/gpiobus.cpp:270-310 | the target send loop leaves IRQs alone and never asserts ACK |
| GpioBus.TargetSendPulsed | cpp/hal/gpiobus.cpp:270-310 | the target send loop releases REQ after every assertion |
| GpioBus.AckCycleLines | cpp/hal/gpiobus.cpp:343-361 | the initiator ACK cycle leaves IRQs, REQ and ATN alone and never pauses |
| GpioBus.InitiatorOutLines | cpp/hal/gpiobus.cpp:315-365 | one initiator send byte leaves IRQs alone, never asserts REQ, never pauses |
| GpioBus.InitiatorOutPulsed | cpp/hal/gpiobus.cpp:343-350 | one initiator send byte releases ACK after its REQ wait |
| GpioBus.InitiatorOutOutcome | cpp/hal/gpiobus.cpp:315-365 | one initiator send byte succeeds iff no wait timed out and the phase held |
| GpioBus.InitiatorOutAtn | cpp/hal/gpiobus.cpp:319-330 | ATN is released only when asked, after REQ came, and always when the byte went out |
| GpioBus.InitiatorSendFacts | cpp/hal/gpiobus.cpp:311-365 | the initiator send count reaches the end iff no wait timed out and the phase held |
| GpioBus.InitiatorSendLines | cpp/hal/gpiobus.cpp:311-365 | the initiator send loop leaves IRQs alone, never asserts REQ and never pauses |
| GpioBus.InitiatorSendPulsed | cpp/hal/gpiobus.cpp:311-365 | the initiator send loop releases ACK after every assertion |
| GpioBus.InitiatorSendAtn | cpp/hal/gpiobus.cpp:327-330 | ATN is dropped only in MESSAGE OUT and only for the last byte, and always when the whole message went out |
| GpioBus.InitiatorSendAtnPlace | cpp/hal/gpiobus.cpp:319-347 | wherever ATN is dropped, it is after the byte's REQ and before its ACK |
| GpioBus.InitiatorSendBounds | cpp/hal/gpiobus.cpp:315-365 | the initiator send count lies between start and end |
| GpioBus.ReceiveHandShakeFacts | cpp/hal/gpiobus.cpp:157-257 | ReceiveHandShake returns at most the count (0 for a negative one), reaches it iff no wait timed out (and as initiator the phase held), and writes no slot past the failed one |
| GpioBus.HandShakeIrq | cpp/hal/gpiobus.cpp:157-372 | both handshakes disable IRQs first, re-enable them last on every exit, and touch them nowhere else |
| GpioBus.TargetSendHandShakeFacts | cpp/hal/gpiobus.cpp:264-310 | as target, SendHandShake returns at most the count, pauses only at byte delay_after_bytes (never with SEND_NO_DELAY), and ends with one more wait for ACK release |
| GpioBus.InitiatorSendHandShakeFacts | cpp/hal/gpiobus.cpp:311-372 | as initiator, SendHandShake returns at most the count, reaching it iff no wait timed out and the phase held |
| GpioBus.InitiatorSendHandShakeAtn | cpp/hal/gpiobus.cpp:311-365 | as initiator, SendHandShake never pauses and drops ATN only when the phase sampled first is MESSAGE OUT |
| GpioBus.CommandHandShakeFacts | cpp/hal/gpiobus.cpp:31-150 | CommandHandShake returns 0 or a count from 1 to the CDB length of the opcode finally in slot 0; 0 when the first exchange is incomplete or an ICD prefix byte is not acknowledged; the full length when no wait timed out for a known opcode, and a full length with a timed-out wait only when the ICD byte's ACK release timed out; slots past the count are untouched; IRQs are disabled first, re-enabled last, and not touched between |
| GpioBus.CommandInnerFacts | cpp/hal/gpiobus.cpp:37-145 | the same count and slot facts for the body between DisableIRQ and EnableIRQ, which never touches IRQs |
| GpioBus.CommandBytesFacts | cpp/hal/gpiobus.cpp:104-145 | the rest of the CDB: 0 exactly for an unknown opcode, else 1 to its length, the full length exactly when no wait timed out; slot 0 and slots past the count untouched |
| GpioBus.IcdPrefix | cpp/hal/gpiobus.cpp:78-102 | a first byte of 0x1F is replaced by one more exchanged byte, whose length is used even when its ACK-release wait timed out; any other first byte is the opcode |
| GpioBus.GpioBus.constructor | cpp/hal/gpiobus.cpp:24-29 | a bus with the given role, scripted peer and length table, at acquisition 0 with an empty log |
| GpioBus.GpioBus.Init | cpp/hal/gpiobus.cpp:24-29 | records the mode and always succeeds |
| GpioBus.GpioBus.Acquire | cpp/hal/bus.h:75 | takes the next sample of the lines and advances time by one |
| GpioBus.GpioBus.GetDAT | cpp/hal/gpiobus_raspberry.h:94 | reads the data lines of a fresh acquisition |
| GpioBus.GpioBus.Reset | cpp/hal/bus.h:63 | releases every line this side drives |
| GpioBus.GpioBus.WaitSignal | cpp/hal/gpiobus.cpp:406-426 | the outcome and the acquisitions consumed are those of the wait specification |
| GpioBus.GpioBus.ReceiveByte | cpp/hal/gpiobus.cpp:164-197 | one target receive byte: buffer slot, log and time as the byte specification says |
| GpioBus.GpioBus.TargetReceive | cpp/hal/gpiobus.cpp:163-197 | the target receive loop's count, buffer, log and time are those of its specification |
| GpioBus.GpioBus.InitiatorReceiveByte | cpp/hal/gpiobus.cpp:203-250 | one initiator receive byte as its specification says |
| GpioBus.GpioBus.PulseAck | cpp/hal/gpiobus.cpp:228-246 | the ACK cycle as its specification says |
| GpioBus.GpioBus.InitiatorReceive | cpp/hal/gpiobus.cpp:198-250 | the initiator receive loop as its specification says |
| GpioBus.GpioBus.TargetSendByte | cpp/hal/gpiobus.cpp:271-307 | one target send byte as its specification says |
| GpioBus.GpioBus.TargetSend | cpp/hal/gpiobus.cpp:270-310 | the target send loop as its specification says |
| GpioBus.GpioBus.InitiatorSendByte | cpp/hal/gpiobus.cpp:315-365 | one initiator send byte as its specification says |
| GpioBus.GpioBus.InitiatorSend | cpp/hal/gpiobus.cpp:311-365 | the initiator send loop as its specification says |
| GpioBus.GpioBus.CommandHandShake | cpp/hal/gpiobus.cpp:31-150 | result, buffer, log and time are those of the CommandHandShake specification |
| GpioBus.GpioBus.ReceiveCommand | cpp/hal/gpiobus.cpp:37-145 | the body of CommandHandShake as its specification says |
| GpioBus.GpioBus.ReceiveHandShake | cpp/hal/gpiobus.cpp:157-257 | result, buffer, log and time are those of the ReceiveHandShake specification |
| GpioBus.GpioBus.ReceiveBody | cpp/hal/gpiobus.cpp:163-251 | the role's receive loop as its specification says |
| GpioBus.GpioBus.SendHandShake | cpp/hal/gpiobus.cpp:264-372 | result, log and time are those of the SendHandShake specification, buffer unchanged |
| GpioBus.GpioBus.SendBody | cpp/hal/gpiobus.cpp:270-366 | the role's send loop as its specification says |
| GpioBusFactory.Create | cpp/hal/gpiobus_factory.cpp:21-51 | IN_PROCESS gives the in-process bus; otherwise null iff an exception was caught or a Pi is used without root, else the Raspberry backend iff on a Pi, in the requested mode, reset iff its Init succeeded |
| GpioBusFactory.CreateKeepsKind | cpp/hal/gpiobus_factory.cpp:21-51 | a hardware request never yields the in-process bus, an in-process request never null; a hardware request off a Pi without an exception yields a GPIO backend |
| HostServices.TestUnitReady | cpp/devices/host_services.cpp:49-53 | always good status, nothing scheduled, no transfer |
| HostServices.StartStopTable | cpp/devices/host_services.cpp:60-81 | the low two bits of byte 4: 00 stops PiSCSI, 10 stops the Pi, 11 restarts it, 01 is refused, each iff |
| HostServices.FormatsRefusedExactly | cpp/devices/host_services.cpp:91-93 | the format check refuses a byte iff it does not name exactly one input and one output format |
| HostServices.Cleared | cpp/devices/host_services.cpp:120 | fill_n zeroes the first length bytes and keeps the rest |
| HostServices.RealtimeClockPageLayout | cpp/devices/host_services.cpp:155-178 | page 0x20 is 10 bytes: zero when changeable, else version 1.0 and the clock fields as bytes, the second clamped to 59 |
| HostServices.HostServices.constructor | cpp/devices/host_services.h:32 | an SCHS device for the LUN, not ready, no commands, no dispatcher |
| HostServices.HostServices.Init | cpp/devices/host_services.cpp:36-47 | registers TEST UNIT READY, START STOP UNIT and EXECUTE, becomes ready, returns true |
| HostServices.HostServices.SetDispatcher | cpp/devices/host_services.h:40 | stores the dispatcher |
| HostServices.HostServices.Execute | cpp/devices/host_services.cpp:83-110 | records the four format bits; succeeds iff the formats are valid and the length in bytes 5-6 fits the buffer, then asks for that many bytes in DATA OUT; otherwise INVALID FIELD IN CDB |
| HostServices.HostServices.ModeSense6 | cpp/devices/host_services.cpp:112-128 | refused without DBD, buffer untouched; else, within min(buffer, allocation length) bytes, a zero header, the bytes AddModePages gives from offset 4 on, zeros after them, the size it returns in byte 0, and the rest of the buffer unchanged |
| HostServices.HostServices.ModeSense10 | cpp/devices/host_services.cpp:130-146 | the same with the 16-bit allocation length of bytes 7-8, the pages from offset 8 on, a 65535 maximum, and the size big-endian in bytes 0-1 |
| HostServices.HostServices.SetUpModePages | cpp/devices/host_services.cpp:148-153 | page 0x20 and all pages add the realtime clock page; other pages change nothing |
| HostServices.HostServices.AddRealtimeClockPage | cpp/devices/host_services.cpp:155-178 | page 32 becomes the realtime clock page |
| HostServices.Fill | cpp/devices/host_services.cpp:120 | the buffer becomes the cleared buffer |
| HostServices.ModeSenseLayout | cpp/devices/host_services.cpp:119-123 | the reply before its size is stored: within the allocation length, zeros before the page offset, the page bytes, zeros after them; beyond it, the buffer as it was |
| HostServices.CopyPages | cpp/devices/host_services.cpp:123 | the page bytes are copied from the offset on, never at or past the allocation length, the rest unchanged |
| InProcessFields.InProcessBus.constructor | cpp/hal/in_process_bus.h:114-126 | every line released and DAT 0 |
| InProcessFields.InProcessBus.Init | cpp/hal/in_process_bus.h:26 | accepts every mode and changes nothing |
| InProcessFields.InProcessBus.Reset | cpp/hal/in_process_bus.h:28-41 | releases every line but DP, which it leaves alone, and clears DAT |
| InProcessFields.InProcessBus.Acquire | cpp/hal/in_process_bus.h:47 | returns DAT and changes nothing |
| InProcessFields.InProcessBus.SetBSY | cpp/hal/in_process_bus.h:51 | sets BSY and nothing else |
| InProcessFields.InProcessBus.SetSEL | cpp/hal/in_process_bus.h:53 | sets SEL and nothing else |
| InProcessFields.InProcessBus.SetATN | cpp/hal/in_process_bus.h:55 | sets ATN and nothing else |
| InProcessFields.InProcessBus.SetACK | cpp/hal/in_process_bus.h:57 | stores into ACT; ACK and every other field keep their value |
| InProcessFields.InProcessBus.SetACT | cpp/hal/in_process_bus.h:59 | sets ACT and nothing else |
| InProcessFields.InProcessBus.SetRST | cpp/hal/in_process_bus.h:61 | sets RST and nothing else |
| InProcessFields.InProcessBus.SetMSG | cpp/hal/in_process_bus.h:63 | sets MSG and nothing else |
| InProcessFields.InProcessBus.SetCD | cpp/hal/in_process_bus.h:65 | sets C/D and nothing else |
| InProcessFields.InProcessBus.SetIO | cpp/hal/in_process_bus.h:67 | sets I/O and nothing else |
| InProcessFields.InProcessBus.SetREQ | cpp/hal/in_process_bus.h:69 | sets REQ and nothing else |
| InProcessFields.InProcessBus.SetDAT | cpp/hal/in_process_bus.h:80 | sets DAT and nothing else |
| InProcessFields.InProcessBus.AckNeverSet | cpp/hal/in_process_bus.h:56-58 | after SetACK(true) on a reset bus, GetACK is still false |
| InProcessMap.ControlPinsAreAllButDP | cpp/hal/in_process_bus.cpp:12-25 | the pins the constructor enters are every signal but DP |
| InProcessMap.InProcessBus.constructor | cpp/hal/in_process_bus.cpp:12-25 | every control pin is a key of the map, released; DAT is 0 from its member initializer (cpp/hal/in_process_bus.h:126) |
| InProcessMap.ReadableAfterConstruction | cpp/hal/in_process_bus.cpp:12-38 | after construction every signal but DP can be read, and reads as released; DP is not a key, so reading it fails GetSignal's assertion |
| InProcessMap.InProcessBus.Reset | cpp/hal/in_process_bus.cpp:27-31 | empties the map and clears DAT, so no pin can be read until set again |
| InquiryData.DeviceTypesCodes | cpp/scsidump/scsidump_core.h:100-123 | the device type table has exactly the codes 0 to 20 and 30 |
| InquiryData.DeviceTypeTextUnknown | cpp/scsidump/scsidump_core.cpp:649-654 | a device type prints as "Unknown" iff the table lacks its code |
| InquiryData.CString | cpp/scsidump/scsidump_core.cpp:634-646 | a text field is its bytes up to the first NUL, as characters |
| InquiryData.CStringWhole | cpp/scsidump/scsidump_core.cpp:634-646 | a field without a NUL comes out whole |
| InquiryData.InfoOf | cpp/scsidump/scsidump_core.cpp:634-646 | vendor, product and revision have at most 8, 16 and 4 characters; sector size and capacity are 0 |
| InquiryData.DumpableTypes | cpp/scsidump/scsidump_core.cpp:658-662 | a type dump and restore accept is a table code and never the absent-LUN code 0x1F |
| PhaseExecutor.SeekOutcome | cpp/scsidump/phase_executor.cpp:151-183 | the free/busy wait polls once to its budget, succeeds iff a poll shows what it waits for, and stops at the first such poll |
| PhaseExecutor.IdBitIsPow2 | cpp/scsidump/phase_executor.cpp:36 | the ID's bit is 2^id truncated to a byte |
| PhaseExecutor.LunBitsTruncates | cpp/scsidump/phase_executor.cpp:96 | the LUN bits are lun << 5 truncated to a byte |
| PhaseExecutor.ArbitrationLosesToAnyOtherBit | cpp/scsidump/phase_executor.cpp:42-46 | with its own bit on DAT, an initiator below ID 8 loses iff any other bit is set, lower IDs included |
| PhaseExecutor.ArbitrationLosesToLowerId | cpp/scsidump/phase_executor.cpp:42-46 | ID 7 backs off when ID 0 arbitrates too |
| PhaseExecutor.ArbitrationFacts | cpp/scsidump/phase_executor.cpp:27-59 | no bus free: nothing driven; else it claims the bus and wins (asserting SEL) iff the sampled DAT is not above its own bit |
| PhaseExecutor.ArbitrationLines | cpp/scsidump/phase_executor.cpp:36-53 | a claim leaves BSY and the own bit; a win adds SEL and the target's bit |
| PhaseExecutor.SelectionFacts | cpp/scsidump/phase_executor.cpp:61-88 | selection succeeds iff some poll shows BSY, and only then releases SEL |
| PhaseExecutor.SelectionLines | cpp/scsidump/phase_executor.cpp:61-88 | selection leaves both ID bits, ATN asserted and BSY released, and SEL released once the target answered |
| PhaseExecutor.PatchCdbFacts | cpp/scsidump/phase_executor.cpp:90-99 | the patch keeps the length and bytes 2 on, stores the opcode and ors the LUN into the top three bits of byte 1 |
| PhaseExecutor.PatchCdbIdempotent | cpp/scsidump/phase_executor.cpp:90-99 | patching twice is patching once |
| PhaseExecutor.LunBitsRoundTrip | cpp/scsidump/phase_executor.cpp:96 | a LUN below 8 is recovered from the top three bits of byte 1 |
| PhaseExecutor.IdentifyByteFacts | cpp/scsidump/phase_executor.cpp:139-149 | IDENTIFY has bit 7 set, bit 6 clear and a LUN below 8 in its low bits |
| PhaseExecutor.PhaseExecutor.constructor | cpp/scsidump/phase_executor.h:28 | bus and initiator ID bound; target, LUN and status start at -1 |
| PhaseExecutor.PhaseExecutor.Reset | cpp/scsidump/phase_executor.cpp:19-25 | sets target and LUN and forgets the status |
| PhaseExecutor.PhaseExecutor.WaitForFree | cpp/scsidump/phase_executor.cpp:151-166 | outcome and time are those of the wait for neither BSY nor SEL |
| PhaseExecutor.PhaseExecutor.WaitForBusy | cpp/scsidump/phase_executor.cpp:168-183 | outcome and time are those of the wait for BSY |
| PhaseExecutor.PhaseExecutor.Arbitration | cpp/scsidump/phase_executor.cpp:27-59 | outcome, lines and time are those of the arbitration specification |
| PhaseExecutor.PhaseExecutor.Contend | cpp/scsidump/phase_executor.cpp:36-58 | arbitration once the bus is free, as its specification says |
| PhaseExecutor.PhaseExecutor.Selection | cpp/scsidump/phase_executor.cpp:61-88 | outcome, lines and time are those of the selection specification |
| PhaseExecutor.PhaseExecutor.Command | cpp/scsidump/phase_executor.cpp:90-99 | patches the CDB in place and succeeds iff every CDB byte was sent |
| PhaseExecutor.PhaseExecutor.Status | cpp/scsidump/phase_executor.cpp:101-110 | stores the received byte as status and succeeds iff exactly one byte came |
| PhaseExecutor.PhaseExecutor.DataIn | cpp/scsidump/phase_executor.cpp:112-117 | receives up to length bytes; fails only when none came |
| PhaseExecutor.PhaseExecutor.DataOut | cpp/scsidump/phase_executor.cpp:119-124 | sends up to length bytes; fails only when none went |
| PhaseExecutor.PhaseExecutor.MsgIn | cpp/scsidump/phase_executor.cpp:126-137 | succeeds iff one byte came and it is COMMAND COMPLETE |
| PhaseExecutor.PhaseExecutor.MsgOut | cpp/scsidump/phase_executor.cpp:139-149 | sends IDENTIFY for the LUN and succeeds iff it went |
| ScsiCommands.Receive | cpp/scsidump/phase_executor.cpp:112-117 | the data-in phase writes as many reply bytes as the length and buffer allow from byte 0, and keeps the rest |
| ScsiCommands.Store | cpp/scsidump/phase_executor.cpp:112-117 | the buffer takes the new contents |
| ScsiCommands.ReadWriteCdbFields | cpp/scsidump/scsidump_core.cpp:437-448 | the READ/WRITE(10) CDB holds the LBA big-endian and the block count modulo 2^16, other bytes 0 |
| ScsiCommands.ReportLunsCdbFields | cpp/scsidump/scsidump_core.cpp:457-463 | the REPORT LUNS CDB asks for 512 bytes big-endian in bytes 8-9 |
| ScsiCommands.ReadCapacity16CdbFields | cpp/scsidump/scsidump_core.cpp:412-417 | the READ CAPACITY(16) CDB keeps bytes 2-9, sets byte 1 to 0x10 and adds six zeros |
| ScsiCommands.ReadCapacityResultFacts | cpp/scsidump/scsidump_core.cpp:399-435 | a failed exchange gives {0, 0}; a short reply below 0xFFFFFFFF gives LBA + 1 and bytes 4-7; otherwise the long reply gives LBA + 1 and bytes 8-11 |
| ScsiCommands.Be32RoundTrip | cpp/scsidump/scsidump_core.cpp:407-408 | the big-endian decode reads back what an encode wrote |
| ScsiCommands.ScannedCount | cpp/scsidump/scsidump_core.cpp:475 | the loop looks at min(count, 62) entries |
| ScsiCommands.Entries | cpp/scsidump/scsidump_core.cpp:475-480 | the entry values the loop looks at, in reply order |
| ScsiCommands.ScannedEntries | cpp/scsidump/scsidump_core.cpp:475 | entry k is looked at iff k is below the count and below 62 |
| ScsiCommands.ReportedLunsMembers | cpp/scsidump/scsidump_core.cpp:470-489 | a value is returned iff it is an entry the loop looks at and below the LUN maximum |
| ScsiCommands.LunCountAsWritten | cpp/scsidump/scsidump_core.cpp:470 | the count is byte 2 shifted, or-ed with byte 3 divided by 8 |
| ScsiCommands.CollectLuns | cpp/scsidump/scsidump_core.cpp:473-489 | the loop returns exactly the reported LUN set |
| ScsiExec.ExecuteCdbFields | cpp/scsiexec/scsi_executor.cpp:56-61 | the EXECUTE CDB names one format for input and output (valid for the host services check) and carries both lengths big-endian, truncated to 16 bits |
| ScsiExec.ExecuteCdbLength | cpp/scsiexec/scsi_executor.cpp:56-61 | an input below 64 KiB reaches the host services device with its exact length and valid formats |
| ScsiExec.ShutDownStopsPi | cpp/scsiexec/scsi_executor.cpp:108-116 | the shutdown CDB makes a host services device schedule a Pi shutdown |
| ScsiExec.Text | cpp/scsiexec/scsi_executor.cpp:95 | the received bytes as characters, one for one |
| ScsiExec.Loaded | cpp/scsiexec/scsi_executor.cpp:41-53 | the buffer holds the input at its start and the rest unchanged |
| ScsiExec.Outcome | cpp/scsiexec/scsi_executor.cpp:67-105 | fails iff binary and the reply does not parse or the output file cannot open; without an output file the result is the JSON or the text |
| ScsiExec.ScsiExecutor.constructor | cpp/scsiexec/scsi_executor.cpp:56-63 | a fresh buffer of the given size (whose size the EXECUTE CDB reports), and nothing sent |
| ScsiExec.ScsiExecutor.Execute | cpp/scsiexec/scsi_executor.cpp:26-106 | an input that cannot open changes nothing and gives its message; else one EXECUTE with the loaded buffer is sent, the reply lands in the buffer and the outcome follows |
| ScsiExec.ScsiExecutor.Transfer | cpp/scsiexec/scsi_executor.cpp:41-65 | the buffer is loaded, the request sent, the reply received and the byte count returned |
| ScsiExec.ScsiExecutor.ShutDown | cpp/scsiexec/scsi_executor.cpp:108-116 | sends START STOP UNIT with the shutdown CDB and no data, returns true |
| DumpExecutor.ScsiExecutor.constructor | cpp/scsidump/scsi_executor.cpp:20-22 | bound to its device, no target, nothing sent |
| DumpExecutor.ScsiExecutor.SetTarget | cpp/scsidump/scsi_executor.h:34 | the target ID and LUN are stored |
| DumpExecutor.ScsiExecutor.Exchange | cpp/scsidump/scsi_executor.cpp:24-131 | each Execute call is recorded and answered by the device |
| DumpExecutor.ScsiExecutor.TestUnitReady | cpp/scsidump/scsi_executor.cpp:24-29 | a zero 6-byte CDB without data; the result is the device's |
| DumpExecutor.ScsiExecutor.Inquiry | cpp/scsidump/scsi_executor.cpp:31-37 | INQUIRY for 255 bytes with room for 256; the reply lands in the caller's buffer |
| DumpExecutor.ScsiExecutor.ReadCapacity | cpp/scsidump/scsi_executor.cpp:39-76 | READ CAPACITY(10) into a zeroed 14-byte buffer is sent first; the first reply exists iff the device answered it and is what it wrote; READ CAPACITY(16) is sent second exactly when that reply's capacity field is 0xFFFFFFFF, and its reply exists iff the device answered it; the result is the capacity decode of the replies |
| DumpExecutor.ScsiExecutor.ReadWrite | cpp/scsidump/scsi_executor.cpp:78-89 | READ(10) or WRITE(10) with the range CDB; the reply lands in the caller's buffer |
| DumpExecutor.ScsiExecutor.SynchronizeCache | cpp/scsidump/scsi_executor.cpp:91-96 | a zero 10-byte CDB without data |
| DumpExecutor.ScsiExecutor.ReportLuns | cpp/scsidump/scsi_executor.cpp:98-131 | LUNs 0 to 7 on failure, else the reported LUN set of the reply |
| ScsiDump.ResetReleases | cpp/scsidump/scsidump_core.cpp:255-261 | after Reset, DAT is 0 and BSY, SEL and ATN are released; other lines unchanged |
| ScsiDump.DiskSize | cpp/scsidump/scsidump_core.cpp:681 | with a non-zero capacity and sector size, the disk holds at least one sector; with a zero sector size it is empty |
| ScsiDump.DiskSizeIsProduct | cpp/scsidump/scsidump_core.cpp:681 | the disk size is the capacity times the sector size |
| ScsiDump.NewCdb | cpp/scsidump/scsidump_core.cpp:386 | a fresh CDB holding the builder's bytes |
| ScsiDump.DispatchSpec | cpp/scsidump/scsidump_core.cpp:218-253 | one phase keeps the CDB length, the buffer size, the addressed target and LUN, and the commands sent |
| ScsiDump.TransactSpec | cpp/scsidump/scsidump_core.cpp:190-215 | the REQ loop keeps the CDB length, the buffer size, the addressed target and LUN, and the commands sent |
| ScsiDump.PhaseSpec | cpp/scsidump/scsidump_core.cpp:197-212 | the same for the loop entered at a REQ |
| ScsiDump.TransactIdle | cpp/scsidump/scsidump_core.cpp:194-197 | a poll without REQ only moves to the next sample and counts one more idle poll |
| ScsiDump.TransactPoll | cpp/scsidump/scsidump_core.cpp:194-199 | a poll with REQ dispatches the phase the target shows on that sample |
| ScsiDump.PhaseNext | cpp/scsidump/scsidump_core.cpp:199-211 | after a dispatch: completion resets the bus and succeeds iff the status is 0; an exception resets the bus and fails; otherwise the loop goes on with a fresh window and one round fewer |
| ScsiDump.ExecuteSpec | cpp/scsidump/scsidump_core.cpp:174-216 | a transaction keeps the buffer size and the addressed target and LUN, and appends exactly one record to the commands sent: operation, CDB as built, target, LUN, length and result |
| ScsiDump.ReadCapacitySpec | cpp/scsidump/scsidump_core.cpp:399-435 | each reply is a whole buffer; a second reply exists only after a first one whose capacity field is 0xFFFFFFFF |
| ScsiDump.ReadCapacity16Spec | cpp/scsidump/scsidump_core.cpp:412-427 | the second exchange keeps the first reply and adds a whole-buffer second reply |
| ScsiDump.ReportLunsSpec | cpp/scsidump/scsidump_core.cpp:457-490 | every LUN returned is below max(lunMax, 8) |
| ScsiDump.DisplayInquirySpec | cpp/scsidump/scsidump_core.cpp:618-665 | nothing shown means no fields and failure; the vendor, product and revision are at most 8, 16 and 4 characters |
| ScsiDump.DeviceReadySpec | cpp/scsidump/scsidump_core.cpp:787-808 | the INQUIRY fields are kept; success adds a non-zero capacity and sector size, failure adds nothing |
| ScsiDump.GetDeviceInfoSpec | cpp/scsidump/scsidump_core.cpp:779-809 | success means a non-zero capacity and sector size; the text fields are bounded |
| ScsiDump.ScanLunsSpec | cpp/scsidump/scsidump_core.cpp:611-614 | the LUN loop keeps the buffer size and the target ID |
| ScsiDump.ScanTargetSpec | cpp/scsidump/scsidump_core.cpp:600-614 | one ID keeps the buffer size and the target ID |
| ScsiDump.ScanBusSpec | cpp/scsidump/scsidump_core.cpp:595-615 | the bus scan keeps the buffer's size and ends at the maximum ID |
| ScsiDump.ScanBusNext | cpp/scsidump/scsidump_core.cpp:595-615 | one ID of the scan, skipped if it is the board's own and scanned otherwise, moves to the next ID and leaves where the scan ends unchanged |
| ScsiDump.ScanBusStep | cpp/scsidump/scsidump_core.cpp:595-615 | the same step adds an INQUIRY to LUN 0 of that ID, and only when it is not the board's own |
| ScsiDump.ScanBusLun0 | cpp/scsidump/scsidump_core.cpp:595-615 | the INQUIRYs the scan sends to LUN 0 go to every ID from the start to the maximum except the board's own, once each, in ascending order |
| ScsiDump.ScanLunsLun0 | cpp/scsidump/scsidump_core.cpp:607-614 | the LUN loop, which starts after LUN 0 was erased, sends no INQUIRY to LUN 0 |
| ScsiDump.InquiryLun0 | cpp/scsidump/scsidump_core.cpp:618-626 | an INQUIRY to a LUN other than 0 adds none to LUN 0 |
| ScsiDump.ScanTargetLun0 | cpp/scsidump/scsidump_core.cpp:600-614 | scanning one ID sends exactly one INQUIRY to LUN 0, to that ID |
| ScsiDump.PassFits | cpp/scsidump/scsidump_core.cpp:721-738 | with the corrected byte count, the sectors of one pass fit the buffer |
| ScsiDump.PassesSpec | cpp/scsidump/scsidump_core.cpp:720-755 | the transfer loop keeps the buffer size and the addressed target and LUN |
| ScsiDump.PassSpec | cpp/scsidump/scsidump_core.cpp:721-751 | the same for one pass |
| ScsiDump.PassesNext | cpp/scsidump/scsidump_core.cpp:720-755 | one pass: a failed READ/WRITE(10) ends in the device error, a failed file access after it in the file error, each with the state after the command; otherwise the loop goes on from the next sector with the bytes left |
| ScsiDump.TransferSpec | cpp/scsidump/scsidump_core.cpp:715-760 | the loop and the final SYNCHRONIZE CACHE keep the buffer size and the addressed target and LUN |
| ScsiDump.ScsiDump.constructor | cpp/scsidump/scsidump_core.cpp:91-172 | the settings, IDs and a buffer of the chosen size, from consistent parsed settings |
| ScsiDump.ScsiDump.Reset | cpp/scsidump/scsidump_core.cpp:255-261 | appends DAT 0 and BSY, SEL, ATN off to the bus |
| ScsiDump.ScsiDump.Dispatch | cpp/scsidump/scsidump_core.cpp:218-253 | outcome, CDB, buffer, status, bus log and sample position as DispatchSpec, whose phases are stated by ScsiDumpFacts.DispatchFacts and ScsiDumpFacts.DispatchPhases |
| ScsiDump.ScsiDump.Execute | cpp/scsidump/scsidump_core.cpp:174-216 | result, CDB and new state, including the command recorded, as ExecuteSpec (see ScsiDumpFacts.ExecuteOutcome) |
| ScsiDump.ScsiDump.Transact | cpp/scsidump/scsidump_core.cpp:190-215 | result, CDB and new state as TransactSpec from a fresh window (see ScsiDumpFacts.TransactOutcome) |
| ScsiDump.ScsiDump.Poll | cpp/scsidump/scsidump_core.cpp:194-213 | one poll keeps the loop's end: either that end is reached, or the loop goes on toward it with one more idle poll or one round fewer |
| ScsiDump.ScsiDump.Phase | cpp/scsidump/scsidump_core.cpp:197-212 | the REQ branch as PhaseSpec |
| ScsiDump.ScsiDump.TestUnitReady | cpp/scsidump/scsidump_core.cpp:384-389 | one transaction with the TEST UNIT READY CDB and no data, as ExecuteSpec |
| ScsiDump.ScsiDump.Inquiry | cpp/scsidump/scsidump_core.cpp:391-397 | one transaction with the INQUIRY CDB (allocation 255) and a 256-byte data length, as ExecuteSpec |
| ScsiDump.ScsiDump.ReadCapacity | cpp/scsidump/scsidump_core.cpp:399-435 | result and state as ReadCapacitySpec (see ScsiDumpFacts.ReadCapacityFacts) |
| ScsiDump.ScsiDump.ReadCapacity16 | cpp/scsidump/scsidump_core.cpp:412-434 | the READ CAPACITY(16) branch as ReadCapacity16Spec |
| ScsiDump.ScsiDump.ReadWrite | cpp/scsidump/scsidump_core.cpp:437-448 | one transaction with the READ(10) or WRITE(10) CDB for the start sector and count, with the given length, as ExecuteSpec |
| ScsiDump.ScsiDump.SynchronizeCache | cpp/scsidump/scsidump_core.cpp:450-455 | one transaction with the SYNCHRONIZE CACHE(10) CDB and no data, as ExecuteSpec, its result dropped |
| ScsiDump.ScsiDump.ReportLuns | cpp/scsidump/scsidump_core.cpp:457-490 | result and state as ReportLunsSpec (see ScsiDumpFacts.ReportLunsFacts) |
| ScsiDump.ScsiDump.DisplayInquiry | cpp/scsidump/scsidump_core.cpp:618-665 | result, fields, what is shown and state as DisplayInquirySpec (see ScsiDumpFacts.DisplayInquiryFacts) |
| ScsiDump.ScsiDump.GetDeviceInfo | cpp/scsidump/scsidump_core.cpp:779-809 | result, fields and state as GetDeviceInfoSpec (see ScsiDumpFacts.GetDeviceInfoFacts) |
| ScsiDump.ScsiDump.ScanBus | cpp/scsidump/scsidump_core.cpp:591-616 | the state as ScanBusSpec from ID 0 |
| ScsiDump.ScsiDump.ScanNext | cpp/scsidump/scsidump_core.cpp:595-615 | one pass of the loop moves to the next ID and leaves where the scan ends unchanged |
| ScsiDump.ScsiDump.ScanId | cpp/scsidump/scsidump_core.cpp:595-615 | one ID: the board's own ID is skipped, any other is scanned as ScanTargetSpec, then the next ID |
| ScsiDump.ScsiDump.ScanTarget | cpp/scsidump/scsidump_core.cpp:600-614 | the state as ScanTargetSpec (see ScsiDumpFacts.ScanTargetProbes) |
| ScsiDump.ScsiDump.ScanLuns | cpp/scsidump/scsidump_core.cpp:611-614 | the state as ScanLunsSpec from LUN 1, since LUN 0 was erased (see ScsiDumpFacts.ScanLunsProbes) |
| ScsiDump.ScsiDump.ScanLun | cpp/scsidump/scsidump_core.cpp:611-614 | one LUN of the loop keeps the loop's end |
| ScsiDump.ScsiDump.DumpRestore | cpp/scsidump/scsidump_core.cpp:667-777 | result and state as DumpRestoreSpec (see ScsiDumpFacts.DumpRestoreFacts) |
| ScsiDump.ScsiDump.DumpDevice | cpp/scsidump/scsidump_core.cpp:674-760 | result and state as DumpDeviceSpec (see ScsiDumpFacts.DumpDeviceFacts) |
| ScsiDump.ScsiDump.Transfer | cpp/scsidump/scsidump_core.cpp:715-760 | result and state as TransferSpec (see ScsiDumpFacts.TransferFacts) |
| ScsiDump.ScsiDump.Passes | cpp/scsidump/scsidump_core.cpp:715-755 | result and state as PassesSpec from sector 0 (see ScsiDumpFacts.PassesFacts) |
| ScsiDump.ScsiDump.Pass | cpp/scsidump/scsidump_core.cpp:720-751 | one pass: the bytes are the smaller of what is left and the whole sectors that fit the buffer, the sectors their ceiling; a failed command ends in the device error, a failed file access in the file error; otherwise the loop goes on toward the same end |
| ScsiDumpFacts.DispatchFacts | cpp/scsidump/scsidump_core.cpp:218-253 | only MESSAGE IN completes; an unhandled phase throws and changes nothing; only STATUS sets the status, only DATA IN the buffer, only COMMAND the CDB |
| ScsiDumpFacts.DispatchPhases | cpp/scsidump/scsidump_core.cpp:218-253 | COMMAND sends the CDB patched with the LUN and goes on iff all of it went; STATUS goes on iff its byte came and stores it; DATA IN stores what came and goes on iff a byte came; DATA OUT goes on iff a byte went; MESSAGE OUT goes on iff IDENTIFY went; MESSAGE IN never goes on and completes iff a 0 byte came |
| ScsiDumpFacts.TransactOutcome | cpp/scsidump/scsidump_core.cpp:190-215 | success iff the loop completed with status 0; a completed loop's last phase is MESSAGE IN; completion and exception reset the bus last; the loop ends in one of four ways |
| ScsiDumpFacts.PhaseOutcome | cpp/scsidump/scsidump_core.cpp:197-212 | the same from a REQ |
| ScsiDumpFacts.ExecuteOutcome | cpp/scsidump/scsidump_core.cpp:174-216 | success iff completed with status 0; lost iff arbitration failed; not selected iff arbitration was won and selection failed; a completed transaction's last phase is MESSAGE IN; exactly the command is recorded, with its result |
| ScsiDumpFacts.ExecuteAddresses | cpp/scsidump/scsidump_core.cpp:174-216 | a transaction adds one command, to the addressed target and LUN |
| ScsiDumpFacts.ReadCapacityFacts | cpp/scsidump/scsidump_core.cpp:399-435 | the result is the decode of the replies; READ CAPACITY(10) is sent first, and READ CAPACITY(16) second exactly when the first succeeded with a capacity field of 0xFFFFFFFF; both to the addressed target and LUN |
| ScsiDumpFacts.ReportLunsFacts | cpp/scsidump/scsidump_core.cpp:457-490 | exactly one REPORT LUNS with a 512-byte allocation is sent; the result is the reported LUNs below the maximum on success, LUNs 0 to 7 on failure |
| ScsiDumpFacts.ReportLunsAddresses | cpp/scsidump/scsidump_core.cpp:457-468 | REPORT LUNS adds one command, to the addressed target and LUN |
| ScsiDumpFacts.DisplayInquiryFacts | cpp/scsidump/scsidump_core.cpp:618-665 | one INQUIRY to the addressed target and LUN; fields are shown iff it succeeded and the LUN is present; success implies they were shown |
| ScsiDumpFacts.DeviceReadyFacts | cpp/scsidump/scsidump_core.cpp:787-798 | TEST UNIT READY is sent next; success means it and a following READ CAPACITY(10) both succeeded |
| ScsiDumpFacts.GetDeviceInfoFacts | cpp/scsidump/scsidump_core.cpp:779-809 | INQUIRY comes first and alone when DisplayInquiry fails; success means INQUIRY, TEST UNIT READY and READ CAPACITY(10) to the addressed target and LUN, in that order, all succeeded |
| ScsiDumpFacts.ScanLunStep | cpp/scsidump/scsidump_core.cpp:611-614 | one LUN step sends an INQUIRY to that LUN iff it was reported, and nothing else |
| ScsiDumpFacts.ScanLunsProbes | cpp/scsidump/scsidump_core.cpp:611-614 | the LUN loop sends one INQUIRY to each reported LUN from the start below max(lunMax, 8), ascending, and nothing else |
| ScsiDumpFacts.ScanTargetProbes | cpp/scsidump/scsidump_core.cpp:600-614 | one ID: INQUIRY to LUN 0; then, only if it succeeded and all LUNs are scanned, REPORT LUNS and one INQUIRY for each reported LUN other than 0; nothing else |
| ScsiDumpFacts.PassCommand | cpp/scsidump/scsidump_core.cpp:733-740 | the pass's READ/WRITE(10) adds exactly its command for that chunk, with its result |
| ScsiDumpFacts.PassStep | cpp/scsidump/scsidump_core.cpp:720-751 | one pass sends the READ/WRITE(10) of the next chunk; failure of the command or the file access ends the loop with nothing counted for the pass; otherwise the chunk is moved and the loop goes on |
| ScsiDumpFacts.PassesFacts | cpp/scsidump/scsidump_core.cpp:720-755 | the chunks moved are a prefix of the plan, with one READ/WRITE(10) each, in order; Done iff all were moved; an error stops at the next chunk, after its command |
| ScsiDumpFacts.TransferFacts | cpp/scsidump/scsidump_core.cpp:715-760 | the loop moves a prefix of the corrected plan; Done moves the whole size; a completed restore then sends SYNCHRONIZE CACHE, otherwise nothing more |
| ScsiDumpFacts.TransferDumped | cpp/scsidump/scsidump_core.cpp:715-760 | a non-empty transfer meets the dump invariant |
| ScsiDumpFacts.DumpSized | cpp/scsidump/scsidump_core.cpp:707-760 | once the sizes are known: an empty size does nothing; otherwise the transfer meets the dump invariant |
| ScsiDumpFacts.DumpDeviceStopped | cpp/scsidump/scsidump_core.cpp:674-691 | an image that does not open, or a restore whose image size is unknown, stops with that error and sends nothing |
| ScsiDumpFacts.DumpDeviceSized | cpp/scsidump/scsidump_core.cpp:681-705 | otherwise the sector size is the device's, the disk size their product, and the size moved the disk size, or for a restore the smaller of it and the image size |
| ScsiDumpFacts.DumpDeviceFacts | cpp/scsidump/scsidump_core.cpp:674-760 | the two early errors, never the device-information error, and the dump invariant |
| ScsiDumpFacts.DumpRestoreFacts | cpp/scsidump/scsidump_core.cpp:667-777 | the device-information error iff GetDeviceInfo failed, then nothing more sent; otherwise the dump invariant after it |
| TapDriver.FrameLengthBounds | src/raspberrypi/devices/ctapdriver.cpp:206-219 | 0 iff nothing read; short frames become 64 bytes, others gain the 4-byte FCS; at most 1518 |
| TapDriver.PaddedLayout | src/raspberrypi/devices/ctapdriver.cpp:200-216 | the buffer keeps the bytes read, zeros to the frame's end and the rest unchanged |
| TapDriver.TapDriver.constructor | src/raspberrypi/devices/ctapdriver.cpp:26-32 | no descriptor (-1), nothing closed, and a six-byte MAC address of zeros |
| TapDriver.TapDriver.Open | src/raspberrypi/devices/ctapdriver.cpp:51-54 | the descriptor open() returned is kept, and Init goes on exactly when it is not -1 |
| TapDriver.TapDriver.Cleanup | src/raspberrypi/devices/ctapdriver.cpp:153-162 | the new state is the cleaned state |
| TapDriver.CleanupIdempotent | src/raspberrypi/devices/ctapdriver.cpp:153-162 | cleanup leaves no descriptor, closes an open one exactly once, and a second cleanup changes nothing |
| TapDriver.TapDriver.Rx | src/raspberrypi/devices/ctapdriver.cpp:182-220 | 0 and buffer unchanged without POLLIN or on a failed read; else the frame length and the padded buffer |

## Left out

- Timing: nanosleep, SysTimer and the SCSI-2 delays are constants only. The 3-second windows of WaitSignal and ScsiDump::Execute are poll and dispatch budgets.
- PollSelectEvent: epoll on the GPIO event descriptor is I/O and is left out (USE_SEL_EVENT_ENABLE is defined in cpp/shared/config.h:15).
- InProcessBus's assert(false) members (SetENB, GetDP, MakeTable, SetControl, SetMode, GetSignal, SetSignal, PinSetSignal, GetSample): they abort and are not modelled. Its empty Cleanup, IRQ and pin-config members change nothing.
- InProcessFields.InProcessBus: WaitREQ and WaitACK (cpp/hal/in_process_bus.h:75-77) are not modelled. They call GPIOBUS::WaitSignal, which reads the pin through GetSignal, and GetSignal is assert(false) in this header, so they abort.
- The Raspberry Pi GPIO backend, its registers and the GPIO pin table are not part of this model. Pins and the CDB-length table are parameters, and the decoded phase is part of each scripted sample.
- GpioBus.GpioBus.WaitSignal: models the 3 s window as a fixed budget of polls, not elapsed time.
- ScsiDump.ScsiDump.Execute: the 3 s REQ window is a budget of idle polls, and the dispatches are bounded by a number of rounds. A transaction that runs longer than that ends as a failure.
- ScsiDump.ScsiDump.DumpRestore:
  - models the corrected loop in whole sectors that fit the buffer (see Findings). A sector larger than the buffer ends the dump with a message of its own, which the source does not have.
  - does not model the disk-size product overflowing off_t, nor the division by a zero duration at scsidump_core.cpp:768 (a transfer under a second).
  - leaves out the file contents, the progress output and the properties file (GeneratePropertiesFile).
- ScsiDump.ScsiDump.ReadWrite: requires the data-phase length to fit the buffer. The corrected dump loop guarantees this; as written, the source can overrun.
- The separate scsidump ScsiExecutor calls a PhaseExecutor::Execute that is not part of the phase executor source modelled here. Its answers are a parameter.
- ScsiDump's own phase helpers are the phase executor's code, so they are modelled once, in PhaseExecutor.
- ScsiExec.ScsiExecutor.Execute: requires the input to fit the buffer, which the source's memcpy does not check. File contents, the protobuf parse and the JSON printing are parameters. The binary output file is opened but never written, as in the source.
- ScsiExec.ScsiExecutor.Execute: requires Valid, i.e. that the device never reports more bytes than the buffer holds and the buffer is below 2^31 bytes. The source parses that many bytes of the buffer without checking the count (cpp/scsiexec/scsi_executor.cpp:65-69).
- ScsiExec.ScsiExecutor.Transfer: requires Valid, for the same reason.
- The EXECUTE opcode (shared/scsi.h) is not part of this model and is a parameter.
- HostServices: ModePageDevice::Init, AddModePages (a parameter giving the size and the page bytes; the model assumes it writes those bytes from the header offset on and nothing at or past the allocation length), WriteByteSequence (protobuf parsing of the received JSON), InquiryInternal and the controller's phase machinery are not modelled. The wall-clock time is a parameter.
- InquiryData: the fact that DEVICE_TYPES gives codes 10 and 11 (obsolete pre-press types) a shared name is not stated.
- TapDriver.TapDriver.Rx: requires the read to return at most ETH_FRAME_LEN bytes and the buffer to hold ETH_FRAME_LEN + 4 bytes, as read() and the callers guarantee.
- CTapDriver's Init after its open() (the TUN/TAP ioctls, the MAC address read-back and the bridge setup), GetMacAddr, Tx and Send are I/O on the TAP device and are not modelled; Open models only the descriptor that open() returns.
- Logging and console output (spdlog, cout and cerr) are not modelled.

## Findings

| source | as written | input that shows it | evidently intended | confidence | as-written member | corrected member |
|---|---|---|---|---|---|---|
| cpp/hal/data_sample_raspberry.h:77-87 | `+` binds tighter than `&`, so GetDAT ands the shifted terms with sums and then masks 0x80 | a sample with only pin DT0 high: data byte 0x01, GetDAT returns 0 | bit k of the result is the level of pin DTk | high; not executed | DataSample.GetDatAsWrittenDropsBit0 | DataSample.GetDatBits |
| cpp/scsidump/scsidump_core.cpp:721-738 | byte_count is min(remaining, buffer size), rounded up to whole sectors for the READ/WRITE(10) data phase into the buffer | `-s 100000` with 512-byte sectors: 196 sectors = 100352 bytes into a 100000-byte buffer | each pass transfers whole sectors that fit the buffer | high; not executed | DumpPlan.AsWrittenPlanOverrunsBuffer | DumpPlan.BufferPlanFits |
