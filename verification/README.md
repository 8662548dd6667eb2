# DAFT actuator: a verified model

A Dafny model of the firmware and host software of a one-axis stepper actuator, with machine-checked proofs of what
the system promises: its wire format, its crash-safe configuration store, its state machine, and the client that talks
to it. `dafny verify dfyconfig.toml` checks everything.

## How it is laid out

| files | model |
|---|---|
| `Bytes`, `Crc`, `CrcDetection`, `Cobs`, `Protocol`, `Framing` | the firmware's wire codec: CRC-16/CCITT-FALSE, COBS, packets and the byte-at-a-time frame decoder, on buffers with capacities |
| `HostCodec`, `SerialTransport`, `Chunking`, `HostClient` | the Python codec, the stream reader, when it depends on how the stream is cut, and the request loop of the client |
| `Config`, `StagingPaths`, `ConfigBlob`, `ConfigStore`, `StoreDamage` | configuration rules, staging, the 104-byte stored form, the two-slot store, and what damage it notices |
| `ActuatorTypes`, `ActuatorSteps`, `ActuatorClass`, `MainLoop` | the actuator: its data, each of its steps as a function, the class that performs those steps on its fields, and the main loop that drives it |
| `ActuatorRefusals`, `ActuatorOutcomes`, `ActuatorEffects`, `ActuatorStaging`, `ActuatorUpdates`, `ActuatorDriver`, `ActuatorCounters` | what each step does, as tables and properties that do not name the step: refusals, drive and faults, calls and answers, staging, updates, the driver behind the calls, counters |
| `ActuatorInvariant`, `ActuatorSafety`, `ActuatorTrace`, `ActuatorRuns`, `ActuatorStops`, `ActuatorWatchdog`, `ActuatorReplay`, `ActuatorOnce`, `ActuatorLog`, `ActuatorAnswers` | theorems about steps and runs of the actuator |
| `ActuatorStorage`, `HostLink`, `HostReplies` | theorems across components: actuator and store, host to actuator, actuator to host |

Buffer routines and stateful objects are methods and classes with the loops and fields of the source. Each is proved
against a function, and the theorems are about those functions. The actuator's backend is a record of answers, one for
each callback, which may also be missing; a step is a function of the actuator, those answers and its input, and yields
the new actuator, the backend calls made, and the packets sent. A theorem about a run therefore holds for every
backend, every clock, every packet and every order of calls. The class of the main loop ties the objects to those runs:
it logs every call and packet, and the log is that of the run.

## Where the code does less than one might expect

Each of these is stated with the exact condition under which it happens.

- The little-endian CRC field spoils burst detection at its border. `CrcDetection.DamageEscapesExactly` says of any
  damage whether it goes unnoticed; for two adjacent bytes at the border there is one such damage
  (`CrcDetection.BorderWindow`), and every message has it (`CrcDetection.BorderEscapes`).
- The host's reader forgets what it holds when that outgrows 256 bytes without a zero. What is delivered then depends
  on how the stream was cut into reads exactly if the stream hides a frame behind bytes that can be forgotten
  (`Chunking.CutsDoNotMatterExactly`), as every frame behind 257 nonzero bytes is (`Chunking.LongRunHides`,
  `Chunking.LongRunsDependOnChunking`).
- A relative move under direction inversion from backend position -2^31 is checked against a position that is off by
  one. It ends one step beyond the upper limit exactly when it asks for that limit (`ActuatorSafety.RelativeEndpoint`,
  `ActuatorSafety.RelativeEndpointEscapes`); from nowhere else.
- A velocity run can be left without any stop call, after which the watchdog no longer guards it:
  `ActuatorStops.RunIsAbandonedExactly` lists the steps that do it, and there are no others. State claims here are
  about the state the firmware keeps, not about the motor.
- A repeated packet is not executed again, but it restarts the host timer. The repeats make a difference exactly when
  the watchdog comes to another verdict because of them (`ActuatorOnce.AlikeExactly`,
  `ActuatorOnce.TimeoutsByClock`), as when a request to run is
  repeated just before its timeout (`ActuatorOnce.RepeatPutsOffTimeout`, `HostLink.RepeatedRunOutlastsTimeout`).
- CONFIG_RESET_DEFAULTS empties the store but keeps the generation counter, so unless that stands at zero the actuator
  and the store then number configurations differently, as they do when the store fails to empty and the newest slot is
  lost. No other step does that (`ActuatorStorage.AgreementExactly`, `ActuatorStorage.ResetBreaksAgreement`). It also
  clears the staged flag without leaving CONFIG_STAGED, which is why the invariant does not tie that state to the flag.
- A boot or a reset adopts a driver configuration that the driver has just refused, and a boot then does not turn the
  driver off: `enabled` and the active configuration no longer say how the driver is. No other step does that
  (`ActuatorDriver.DriverFollows`). A mode that the driver refuses is reported all the same, in FAULTED
  (`ActuatorOutcomes.RequestComesOut`).
- A frame error changes state and faults without any event (`ActuatorLog.FrameErrorIsSilent`).
- A repeated driver status request re-sends cached events. Folding them is still right, but state changes no longer
  chain exactly if the first answer reported one (`ActuatorLog.LogRebuildsState`, `ActuatorLog.AnswerChangesState`,
  `ActuatorLog.RepeatedStatusUnchains`).
- A slot of the store that cannot be read is passed over, so a save may write over the newest configuration: exactly
  when its slot is the one that cannot be read and none is free before it (`ConfigStore.SaveHitsNewestExactly`).

## Model

| member | source | states |
|---|---|---|
| Bytes.U16RoundTrip | firmware/src/protocol_v2.cpp:14-32 | a 16-bit value written little-endian reads back as itself, and two bytes read and written again are the same bytes |
| Bytes.U32RoundTrip | firmware/src/protocol_v2.cpp:19-37 | the same for 32-bit values and four bytes |
| Bytes.BytesByWeight | firmware/src/protocol_v2.cpp:14-24 | the bytes written carry the value by weight, the lowest first |
| Bytes.WriteU16 | firmware/src/protocol_v2.cpp:14-17 | writes exactly the two little-endian bytes at the offset and no other byte of the buffer |
| Bytes.WriteU32 | firmware/src/protocol_v2.cpp:19-24 | writes exactly the four little-endian bytes at the offset and no other byte of the buffer |
| CrcRegister.ShiftByte | firmware/src/crc.cpp:9-15 | the inner loop applies the shift step eight times to the register |
| CrcRegister.ShiftsXor | firmware/src/crc.cpp:9-15 | shifting is linear over exclusive or, for any number of steps |
| CrcRegister.ShiftsInjective | firmware/src/crc.cpp:9-15 | shifting loses nothing: different registers stay different |
| Crc.Crc16Ccitt | firmware/src/crc.cpp:5-18 | the two nested loops compute the CRC that the linearity, injectivity, burst and parity lemmas are about |
| Crc.CrcFromConcat | firmware/src/crc.cpp:7-16 | the CRC of a concatenation continues from the register after its first part |
| Crc.CrcFromInjective | firmware/src/crc.cpp:7-16 | over the same bytes, different registers end different |
| CrcDetection.CheckValue | firmware/src/crc.cpp:5-18 | over the digits 1 to 9 the CRC is 0x29B1, the check value of CRC-16/CCITT-FALSE |
| CrcDetection.BurstDetected | firmware/src/crc.cpp:5-18 | a sealed message in which at most 16 consecutive bits before the CRC field are damaged is no longer sealed |
| CrcDetection.DamageEscapesExactly | firmware/src/crc.cpp:5-18 | any damage whatever goes unnoticed exactly when the CRC field is damaged by what the damage to the message makes of a zero register |
| CrcDetection.BorderWindow | firmware/src/crc.cpp:5-18 | damage to the last message byte and the low CRC byte goes unnoticed exactly when it flips 0x89 in one and 0xA1 in the other: the little-endian CRC field breaks burst detection at the border |
| CrcDetection.BorderEscapes | firmware/src/crc.cpp:5-18 | every sealed message of three bytes or more has such an unnoticed damage |
| CrcDetection.SealedIsEven | firmware/src/crc.cpp:5-18 | a sealed message, CRC field included, has an even number of one bits |
| CrcDetection.OddFlipsDetected | firmware/src/crc.cpp:5-18 | flipping any odd number of bits of a sealed message, of any length, breaks the seal |
| CrcDetection.OddFlipsChangeCrc | firmware/src/crc.cpp:5-18 | flipping any odd number of bits changes the CRC of a message, also when it is kept apart from the message |
| Cobs.EncodedLength | firmware/src/cobs.cpp:7-43 | encoding adds one byte and one more for each completed 254-byte block, of which there are at most n / 254 |
| Cobs.EncodedZeroFree | firmware/src/cobs.cpp:7-43 | an encoding contains no zero byte |
| Cobs.DecodeEncoded | firmware/src/cobs.cpp:45-76 | decoding undoes encoding, for every input of any length |
| Cobs.EncodeDecoded | firmware/src/cobs.cpp:7-76 | a zero-free frame that decodes is the encoding of what it decodes to, but for the final 1 the encoder writes after a full last block |
| Cobs.FullBlockIsLong | firmware/src/cobs.cpp:45-76 | such a last block needs at least 254 decoded bytes |
| Cobs.CobsEncode | firmware/src/cobs.cpp:7-43 | returns 0 exactly when the capacity is smaller than the encoding, else writes the encoding and its length; nothing at or beyond the capacity is written |
| Cobs.CobsDecode | firmware/src/cobs.cpp:45-76 | succeeds exactly when the input decodes and the result fits, and then the buffer holds the result; nothing at or beyond the capacity is written |
| Protocol.RawCanonical | firmware/src/protocol_v2.cpp:43-115 | the checks of the receiver accept raw bytes as a packet exactly when they are the raw bytes the sender makes of it and its payload is at most 128 bytes |
| Protocol.BadCrcExactly | firmware/src/protocol_v2.cpp:80-102 | a CRC error is reported exactly for the body of some packet followed by a field that is not its CRC; every other rejection is another error |
| Protocol.FrameLength | firmware/src/protocol_v2.cpp:62-69 | a frame is exactly eleven bytes longer than its payload, so never longer than the 141-byte buffer |
| Protocol.FrameDelimited | firmware/src/protocol_v2.cpp:62-69 | a frame ends in its only zero byte |
| Protocol.FrameCanonical | firmware/src/protocol_v2.cpp:43-115 | a nonempty zero-free frame decodes to a packet exactly when encoding that packet gives the frame and a zero: accepted frames and sendable packets correspond one to one |
| Protocol.FrameInjective | firmware/src/protocol_v2.cpp:43-70 | different sendable packets have different frames |
| Protocol.BurstRejected | firmware/src/protocol_v2.cpp:85-102 | any burst of at most 16 bits before the CRC field of an accepted packet makes the receiver reject it |
| Protocol.TwoByteWindowRejected | firmware/src/protocol_v2.cpp:85-102 | so does any damage to two adjacent bytes that both lie before the CRC field or both in it |
| Protocol.OddFlipsRejected | firmware/src/protocol_v2.cpp:85-102 | so does flipping any odd number of bits |
| Protocol.EncodePacket | firmware/src/protocol_v2.cpp:43-70 | succeeds exactly when the payload is at most 128 bytes and the frame fits, and then writes the frame; nothing at or beyond the capacity is written |
| Protocol.DecodePacket | firmware/src/protocol_v2.cpp:72-115 | returns what the frame specification says: the packet, or which of the three errors |
| Framing.FramingDecoder.Consume | firmware/src/protocol_v2.cpp:117-136 | one byte: the new buffer contents, and the packet or error delivered, as functions of the old contents and the byte |
| Framing.FramingDecoder.Reset | firmware/src/protocol_v2.cpp:138-140 | empties the buffer |
| Framing.FramingDecoder.ConsumeAll | firmware/platforms/esp32_arduino/src/main.cpp:290-302 | feeding a stream delivers exactly the receptions of the stream, in order |
| Framing.StreamConcat | firmware/src/protocol_v2.cpp:117-136 | a stream may be fed in pieces |
| Framing.RunOfBytes | firmware/src/protocol_v2.cpp:128-135 | an unbroken run of L nonzero bytes gives exactly floor(L / 142) frame errors and leaves the last L mod 142 bytes |
| Framing.DelimitedRun | firmware/src/protocol_v2.cpp:117-136 | ended by a zero it then gives the decoding of those bytes, if there are any |
| Framing.FramesReceived | firmware/src/protocol_v2.cpp:117-136 | frames sent back to back are received as exactly their packets, in order |
| Framing.Resynchronises | firmware/src/protocol_v2.cpp:117-136 | the same holds whatever the decoder held and whatever garbage came before, once one zero has passed |
| HostCodec.Crc16CcittHost | python/daft_protocol/codec.py:25-34 | the host computes the CRC of the firmware, on wider integers masked to 16 bits |
| HostCodec.CobsEncodeHost | python/daft_protocol/codec.py:37-58 | the host produces the encoding of the firmware |
| HostCodec.CobsDecodeHost | python/daft_protocol/codec.py:61-80 | the host decodes exactly what the encoding specification decodes, without the capacity of a buffer |
| HostCodec.EncodePacketHost | python/daft_protocol/codec.py:83-95 | the host raises an error exactly for fields out of range and payloads above 128 bytes, and otherwise writes the frame of the firmware |
| HostCodec.DecodePacketHost | python/daft_protocol/codec.py:98-116 | the host accepts the same frames as the bounded firmware decoder, with the same packet |
| SerialTransport.Transport.ReadBufferedPacket | python/daft_protocol/transport_serial.py:95-112 | takes the next nonempty frame out of the receive buffer, or finds none, or reports one rejected frame, or one overflow, which it counts; what is left in the buffer gives the rest |
| SerialTransport.Transport.ReadPacket | python/daft_protocol/transport_serial.py:114-136 | delivers the first packet that the buffer and reads of at most 128 bytes yield and leaves the rest to later calls; bytes, errors, overflows and timeouts are counted exactly |
| SerialTransport.Transport.Drain | python/daft_protocol/transport_serial.py:114-136 | reading until nothing is left delivers the whole specified list of packets, and counts packets, errors and overflows exactly |
| Chunking.ParsedConcat | python/daft_protocol/transport_serial.py:95-112 | parsing a stream may stop and resume anywhere |
| Chunking.ReadsGiveParsed | python/daft_protocol/transport_serial.py:95-133 | from any state of the reader, forgotten bytes included, no packet of the stream is lost, and without a hidden frame nothing else is delivered |
| Chunking.CutsDoNotMatterExactly | python/daft_protocol/transport_serial.py:95-133 | the packets delivered are those of the accepted zero-separated segments, in order, under every cut into reads of at most 128 bytes, if and only if the stream hides no frame behind bytes that overflows can discard |
| Chunking.BoundedRunsHideNothing | python/daft_protocol/transport_serial.py:99-104 | a stream without a run of more than 256 nonzero bytes hides nothing |
| Chunking.HostReceivesFrames | python/daft_protocol/transport_serial.py:95-133 | the frames of any packets, under every cut into reads, are received as exactly those packets, in order |
| Chunking.LongRunHides | python/daft_protocol/transport_serial.py:99-104 | any frame behind 257 nonzero bytes is hidden |
| Chunking.LongRunsDependOnChunking | python/daft_protocol/transport_serial.py:99-104 | two cuts of such a stream into reads of at most 128 bytes: one delivers the packet, the other nothing |
| HostClient.NthNumberIs | python/daft_protocol/client.py:46-51 | the k-th request of a client is numbered 1 + k mod 65535 |
| HostClient.NumbersRepeat | python/daft_protocol/client.py:46-51 | no request is numbered 0, and two share a number exactly when a multiple of 65535 lies between them |
| HostClient.OutcomeSkips | python/daft_protocol/client.py:58-74 | packets that decide nothing do not matter for the outcome of a request |
| HostClient.OutcomeIsOwn | python/daft_protocol/client.py:58-74 | an answer or a device error is a packet with the number of the request, of the kind wanted or an error; a protocol failure is such a packet, or telemetry or an event that makes no sense |
| HostClient.PassedOverIsIgnored | python/daft_protocol/client.py:58-67 | well-formed telemetry and events, and every packet numbered otherwise, may be taken out of what arrives, anywhere, without changing the outcome |
| HostClient.FirstOwnDecides | python/daft_protocol/client.py:66-74 | the first packet with the number of the request decides it: an error, the answer wanted, or a failure |
| HostClient.DaftClient.Seq | python/daft_protocol/client.py:46-51 | returns the number due and advances past 65535 to 1 |
| HostClient.DaftClient.Request | python/daft_protocol/client.py:53-74 | a payload above 128 bytes spends its number and reads nothing; otherwise the outcome is that of the first packet that decides, which by the three lemmas above is one of its own, no more is read, and exactly the telemetry and events before it are recorded in order |
| Config.DefaultIsValid | firmware/include/daft/config.hpp:119-128 | the defaults pass validation |
| Config.StagingIsLocal | firmware/src/config_validation.cpp:151-297 | an accepted stage gives a valid configuration, changes no other field, and a query then returns the value, with booleans normalised |
| Config.StagingBounds | firmware/src/config_validation.cpp:115-230 | from a valid configuration a stage is accepted exactly for an interval of values that the other fields fix (for microsteps the powers of two, for reserved fields none): staging and validation together, over every field and value |
| Config.ValidExactly | firmware/src/config_validation.cpp:115-149 | a configuration is valid exactly if its fixed part makes sense and every field that is checked holds a value that those bounds let a host stage |
| StagingPaths.EditsStayConnected | firmware/src/config_validation.cpp:151-230 | what any list of accepted edits reaches differs from the start in stageable fields only, and there by values that fit an edit |
| StagingPaths.PathBetween | firmware/src/config_validation.cpp:115-230 | finds edits, each passing validation on its own, that lead from one valid configuration to another |
| StagingPaths.ReachableByEdits | firmware/src/config_validation.cpp:115-230 | such edits exist exactly when the two agree on everything unstageable and the changed 32-bit limits fit a signed value |
| ConfigBlob.StoredConfigReadsBack | firmware/src/config_validation.cpp:299-444 | every valid configuration is stored in exactly 104 bytes that read back as it, but for the axis name |
| ConfigBlob.NormalisedIsValid | firmware/src/config_validation.cpp:115-149 | losing the axis name does not change validity |
| ConfigBlob.SerializeConfig | firmware/src/config_validation.cpp:299-367 | succeeds exactly for a valid configuration and room for a largest blob, and then holds the stored form followed by zeros; else the buffer is untouched |
| ConfigBlob.DeserializeConfig | firmware/src/config_validation.cpp:369-444 | returns the configuration read from the first 104 bytes when the length is within range and it is valid, else nothing |
| ConfigStore.WrittenSlotDecodes | firmware/src/config_store.cpp:16-54 | a slot as a finished write leaves it decodes to the configuration and its generation |
| ConfigStore.InterruptedSlot | firmware/platforms/esp32_arduino/src/main.cpp:77-94 | a slot whose write was interrupted anywhere after its marker was cleared decodes to nothing, whatever bytes were left |
| StoreDamage.SlotCanonical | firmware/src/config_store.cpp:25-54 | a slot decodes exactly when its marker stands, its payload is a blob, and its description is the one a save writes for that payload, CRC included, but for two reserved bytes |
| StoreDamage.DamageRejected | firmware/src/config_store.cpp:45-47 | a slot whose payload suffers a burst of at most 16 bits, or any odd number of flipped bits, no longer decodes |
| StoreDamage.DamageFallsBack | firmware/src/config_store.cpp:62-97 | such damage to the newest slot makes a load return what the other slot holds, or nothing, and never what was damaged |
| ConfigStore.NewerAcrossWrap | firmware/src/config_store.cpp:58-60 | of two consecutive generations the signed difference picks the later, across the wrap at 2^32 |
| ConfigStore.SaveSparesNewest | firmware/src/config_store.cpp:110-149 | a save, finished or not, leaves alone the slot that a load would return |
| ConfigStore.EventRefines | firmware/src/config_store.cpp:62-157 | every event keeps two valid slots on consecutive generations, and acts on the store as on an atomic register |
| ConfigStore.HistoryConsecutive | firmware/src/config_store.cpp:110-147 | so do whole histories, interrupted saves and clears included |
| ConfigStore.HistoryRefines | firmware/src/config_store.cpp:62-157 | every step of every history is a step of the atomic register |
| ConfigStore.LoadReturnsLastCommitted | firmware/src/config_store.cpp:62-157 | over any history of saves, power losses, clears and reboots a load returns exactly the last configuration whose marker was written; a clear cut short leaves that open only until the next save or clear finishes |
| ConfigStore.CutClearLeavesOneOfThree | firmware/src/config_store.cpp:62-97 | until then, through any number of clears and saves that are cut short and of reboots, a load returns what it returned before the clear, or the configuration before that, or none |
| ConfigStore.CutClearGeneration | firmware/src/config_store.cpp:62-97 | a clear that fails changes the generation loaded exactly when it reached the newest slot, unless that leaves nothing where the generation was zero |
| ConfigStore.GenerationCountsSaves | firmware/src/config_store.cpp:110-147 | from an empty store the loaded generation is the number of finished saves since the last clear, modulo 2^32, but for saves between a clear cut short and one that finishes |
| ConfigStore.EventGeneration | firmware/src/config_store.cpp:99-157 | what one event makes a load return, generation included |
| ConfigStore.PowerLossBetweenKeys | firmware/platforms/esp32_arduino/src/main.cpp:77-94 | a power loss between any two keys of a save leaves a store from which a load returns what it returned before |
| ConfigStore.ReliableSaveIsEvent | firmware/src/config_store.cpp:99-157 | with readable slots and a marker that can be cleared, a save is one event of the histories |
| ConfigStore.SaveHitsNewestExactly | firmware/src/config_store.cpp:117-138 | a save writes over the slot a load would return exactly when that slot cannot be read and none is free before it |
| ConfigStore.Store.ChooseTarget | firmware/src/config_store.cpp:110-140 | the loop over slots finds the slot to write and the generation to give it, passing over slots that cannot be read |
| ConfigStore.Store.WriteSlot | firmware/platforms/esp32_arduino/src/main.cpp:77-94 | marker cleared, or left standing if that fails unnoticed, then payload, description, marker set, in this order: the result, and every state passed through, of a write that finishes and of one that fails at any key |
| ConfigStore.Store.DecodeSlot | firmware/src/config_store.cpp:36-54 | decodes a slot exactly as `StoreDamage.SlotCanonical` characterises it: marker, description, length, CRC and validity |
| ConfigStore.Store.Load | firmware/src/config_store.cpp:62-97 | the loop over slots returns the newest configuration of the specification, passing over slots that cannot be read |
| ConfigStore.Store.SaveConfig | firmware/src/config_store.cpp:99-157 | writes the slot and generation of the specification by what can be read, and reports the new generation exactly when it finished |
| ConfigStore.Store.ClearAll | firmware/platforms/esp32_arduino/src/main.cpp:96-104 | erases every key, or fails after erasing some of them |
| ActuatorClass.Actuator.Begin | firmware/src/actuator.cpp:86-130 | performs the boot step on the fields, and from valid defaults establishes the invariant |
| ActuatorClass.Actuator.Update | firmware/src/actuator.cpp:132-173 | performs the update step on the fields, which `ActuatorUpdates` characterises: boot event, end of motion, watchdog; keeps the invariant, and every motion call it makes is in bounds |
| ActuatorClass.Actuator.SendTelemetry | firmware/src/actuator.cpp:183-190 | sends the status and sets the timer; keeps the invariant and makes no motion call out of bounds |
| ActuatorClass.Actuator.RecordFrameError | firmware/src/actuator.cpp:192-202 | counts the error and raises its fault; keeps the invariant and makes no motion call out of bounds |
| ActuatorClass.Actuator.HandlePacket | firmware/src/actuator.cpp:204-655 | performs the whole packet step on the fields, which `ActuatorRefusals`, `ActuatorOutcomes`, `ActuatorEffects` and `ActuatorStaging` characterise: repeat or dispatch, calls, packets sent, and the new cache; keeps the invariant, and every motion call it makes is in bounds |
| ActuatorClass.Actuator.ReplayLastResponse | firmware/src/actuator.cpp:950-954 | the loop re-sends every cached response in order |
| MainLoop.Firmware.Setup | firmware/platforms/esp32_arduino/src/main.cpp:335-336 | starts the actuator from the defaults; from valid ones the invariant holds |
| MainLoop.Firmware.ServiceSerial | firmware/platforms/esp32_arduino/src/main.cpp:290-302 | the bytes that arrived make the actuator, the calls and the packets sent those of the run that hears their receptions, and keep the invariant |
| MainLoop.Firmware.Loop | firmware/platforms/esp32_arduino/src/main.cpp:338-343 | one turn is the run of those receptions, an update, and telemetry if that is due then |
| MainLoop.TurnUpdatesOnce | firmware/platforms/esp32_arduino/src/main.cpp:338-343 | every turn updates the actuator exactly once, after everything it received, and then reports exactly if reports are switched on and the interval has passed, under the number of the device |
| MainLoop.TurnsDeliverStream | firmware/platforms/esp32_arduino/src/main.cpp:290-302 | however a stream is spread over turns, what the actuator hears is what the frame decoder makes of the stream |
| ActuatorInvariant.BeginEstablishes | firmware/src/actuator.cpp:86-130 | a boot from valid defaults establishes the invariant, whatever was stored |
| ActuatorInvariant.StepKeepsInvariant | firmware/src/actuator.cpp:86-655 | every step keeps it: active, staged and default configurations valid; not staged implies staged equals active; IDLE, MOVING_POSITION, RUNNING_VELOCITY and COMMISSIONING imply enabled, DISABLED the opposite; MOVING_POSITION and STOPPING imply position mode, RUNNING_VELOCITY velocity mode; BOOTING is never re-entered; at most four cached responses |
| ActuatorInvariant.ApplyAlwaysValid | firmware/src/actuator.cpp:858-892 | so the validity check of an apply never fails: out of motion only a driver that refuses can keep a staged configuration from becoming active, and that changes no setting |
| ActuatorRuns.BootedRunKeepsInvariant | firmware/src/actuator.cpp:86-655 | the invariant holds after any run from a boot |
| ActuatorSafety.StepPermitted | firmware/src/actuator.cpp:86-655 | in any step every motion call is in bounds, a disabled driver is turned on exactly by a fresh request for a mode that moves which the state does not refuse and both driver calls carry out, and FAULTED is left exactly by the five listed packets |
| ActuatorSafety.EmergencyStopDisables | firmware/src/actuator.cpp:352-368 | a handled ESTOP stops, then disables, and ends FAULTED and disabled |
| ActuatorSafety.TimeoutDisables | firmware/src/actuator.cpp:155-164 | so does a velocity timeout whose action is to disable |
| ActuatorSafety.RelativeEndpoint | firmware/src/actuator.cpp:550-593 | a relative move made under soft limits ends within them, except from the one backend position that inversion cannot mirror, and there exactly when the request asks for the move to the upper limit |
| ActuatorSafety.RelativeEndpointEscapes | firmware/src/actuator.cpp:563-581 | from that position such a move is accepted and ends one step beyond the limit |
| ActuatorRuns.MotionAlwaysBounded | firmware/src/actuator.cpp:508-630 | every motion call of any run: driver enabled, nothing staged, neither FAULTED nor STOPPING, speed and acceleration nonzero and within motion and safety limits, endpoint within soft limits |
| ActuatorAnswers.MotionIsAcceptedExactly | firmware/src/actuator.cpp:508-630 | and the other way: a request for a motion reaches the backend and is taken on exactly when driver, state, limits, endpoint and mirror image allow it and the backend agrees |
| ActuatorRuns.DisabledIsLockedOut | firmware/src/actuator.cpp:296-350 | over any run, mode requests that are refused or repeated included, a disabled driver stays disabled if and only if no step turns it on, and until then no motion call is made |
| ActuatorRuns.StopLockout | firmware/src/actuator.cpp:352-368 | the same after a handled ESTOP, for every run that follows |
| ActuatorRuns.TimeoutLockout | firmware/src/actuator.cpp:155-164 | the same after a velocity timeout whose action is to disable |
| ActuatorRuns.FaultedRefusesMode | firmware/src/actuator.cpp:305-308 | so as long as the actuator is faulted no mode request turns the driver on, whatever it would answer |
| ActuatorRuns.FaultedPersists | firmware/src/actuator.cpp:296-409 | a faulted actuator stays faulted over any run with none of the listed packets and no restart |
| ActuatorStops.RunIsAbandonedExactly | firmware/src/actuator.cpp:132-655 | a step leaves RUNNING_VELOCITY without asking the backend for a stop exactly when it is one of those listed (frame error, clear faults, broken driver UART, failed save, refused run, unknown command, missing callback); the configuration of a run in progress changes in its telemetry rate only |
| ActuatorStops.AbandonedIsUnwatched | firmware/src/actuator.cpp:132-202 | out of a velocity run nothing calls the backend until another packet is handled |
| ActuatorWatchdog.TimeoutIsExact | firmware/src/actuator.cpp:147-148 | at an update the 32-bit comparison decides exactly whether more than the timeout has really passed, across wraps |
| ActuatorWatchdog.WatchdogBound | firmware/src/actuator.cpp:147-228 | with an update at least every D ms, D + 60000 < 2^32, a velocity run is in progress at most the timeout plus D after the last handled packet |
| ActuatorWatchdog.TelemetryIsDueExactly | firmware/src/actuator.cpp:175-190 | over any run, telemetry is due exactly when it is switched on and its interval has passed since it was last sent, in real time modulo 2^32 ms |
| ActuatorReplay.RepeatReplays | firmware/src/actuator.cpp:205-210 | an identical repeat calls nothing, re-sends the cached responses in order, and changes only counters and the host timer |
| ActuatorReplay.RepeatAnswersTheSame | firmware/src/actuator.cpp:205-221 | it re-sends all that the caching writer was given, because no command sends more than four packets through it |
| ActuatorOnce.StepAlike | firmware/src/actuator.cpp:86-655 | any step but an exact repeat does the same to actuators alike but for link counters and the host timer, if in an update the watchdog says the same of both |
| ActuatorOnce.ExactlyOnce | firmware/src/actuator.cpp:204-221 | leaving out the exact repeats from any run, of packets, updates, frame errors, telemetry and restarts in any order, changes no backend call, and leaves the actuator alike but for link counters and the host timer, if the watchdog says the same at every update |
| ActuatorOnce.AlikeExactly | firmware/src/actuator.cpp:147-148 | the condition is exact: the two runs are alike after every step if and only if the watchdog says the same at every update |
| ActuatorOnce.TimeoutsByClock | firmware/src/actuator.cpp:147-148 | the condition by the clock: at every update in a velocity run the timeout has passed since the last packet exactly if it has since the last one that is no exact repeat |
| ActuatorOnce.RepeatPutsOffTimeout | firmware/src/actuator.cpp:205-207 | it can fail: a repeat when the timeout has just been reached keeps the next update from stopping the run |
| ActuatorLog.LogRebuildsState | firmware/src/actuator.cpp:987-1009 | in runs of packets, updates with a writer and telemetry, folding the events sent rebuilds state and faults, and state changes chain exactly when no answer that reported one is repeated |
| ActuatorLog.LogSinceBoot | firmware/src/actuator.cpp:86-655 | after a boot the events of the whole run since then rebuild state and faults |
| ActuatorLog.RepeatLogged | firmware/src/actuator.cpp:950-954 | a repeat leaves a listener right, and breaks the chain of state changes exactly when it re-sends one |
| ActuatorLog.AnswerChangesState | firmware/src/actuator.cpp:765-773 | an answer reports a state change exactly when it is that of a driver status request that finds a failing UART outside FAULTED |
| ActuatorLog.RepeatedStatusUnchains | firmware/src/actuator.cpp:765-773 | so such a request delivered twice breaks the chain |
| ActuatorLog.FrameErrorIsSilent | firmware/src/actuator.cpp:192-202 | a frame error sends nothing: a listener stays right exactly when the fault was set and the actuator faulted already |
| ActuatorAnswers.EveryRequestIsAnswered | firmware/src/actuator.cpp:223-654 | every packet but a ping or a repeat gets exactly one reply, with its number, last of all that is sent and kept for repeats: the one its kind calls for, or an error; errors and nothing else are counted as rejected |
| ActuatorAnswers.PingIsAnswered | firmware/src/actuator.cpp:233-246 | a ping gets an acknowledgement and a pong |
| ActuatorAnswers.MotionIsAcknowledgedTruthfully | firmware/src/actuator.cpp:508-630 | a motion is acknowledged exactly when the backend was asked once for the motion requested and took it on; otherwise the state is kept or FAULTED |
| ActuatorAnswers.ControlModeIsAcknowledgedTruthfully | firmware/src/actuator.cpp:296-350 | a mode is acknowledged only when in force, with exactly the calls that takes: the driver configured and then enabled, or disabled; when refused, the driver was not turned on |
| ActuatorRefusals.RefusedExactly | firmware/src/actuator.cpp:230-655 | the complete table of refusals: every packet that is no repeat is answered last, under its number, with an error exactly if its length, the state, the configuration, the limits or an answer of the backend call for one, and then with that error |
| ActuatorOutcomes.RequestComesOut | firmware/src/actuator.cpp:230-655 | what state, mode, driver and faults are after any request: a refusal leaves them as they are unless driver, backend or store failed, which is a fault and FAULTED; what is not refused has the effect its kind demands |
| ActuatorOutcomes.FaultsOfStep | firmware/src/actuator.cpp:86-655 | any step keeps the faults it finds, unless it clears them or is a restart, and adds exactly those it has a cause for |
| ActuatorOutcomes.FaultsOfRun | firmware/src/actuator.cpp:86-655 | after any run a fault stands exactly if a step raised it, or it stood before, and no step since has cleared it |
| ActuatorEffects.RampStopEffect | firmware/src/actuator.cpp:369-387 | a ramp stop is passed on, at the deceleration it asks for, exactly when state or backend say that there is a motion; taken, it leaves STOPPING |
| ActuatorEffects.ClearFaultsEffect | firmware/src/actuator.cpp:389-409 | clearing faults clears all, settles the state by whether the driver is on, and calls nothing |
| ActuatorEffects.TelemetryRateEffect | firmware/src/actuator.cpp:632-645 | the telemetry rate is the one asked for at once, active and staged, and nothing else of either configuration changes |
| ActuatorEffects.QueryEffect | firmware/src/actuator.cpp:233-294 | a query changes nothing and is answered, last, with what it asks for, the query itself counted: a status says what state, mode, driver, faults, configuration and backend are, positions on the logical axis |
| ActuatorEffects.FieldQueryEffect | firmware/src/actuator.cpp:411-419 | a query of a known field is answered with its active value, its mutability, and whether anything is staged |
| ActuatorEffects.TelemetryEffect | firmware/src/actuator.cpp:183-190 | telemetry says the same as a status would, and changes nothing |
| ActuatorEffects.DriverStatusEffect | firmware/src/actuator.cpp:765-789 | the status of the driver is passed on, and a driver that is set up but does not answer is a fault |
| ActuatorEffects.RebootEffect | firmware/src/actuator.cpp:489-498 | a reboot is acknowledged, and then exactly one call asks for it |
| ActuatorEffects.SaveTells | firmware/src/actuator.cpp:445-459 | a save hands over the active configuration, and if it is taken raises the generation and tells the new one |
| ActuatorEffects.AdoptTells | firmware/src/actuator.cpp:461-487 | an acknowledged apply or reset tells the generation, which it leaves as it was |
| ActuatorEffects.FaultsTell | firmware/src/actuator.cpp:389-409 | clearing faults first tells which there were, and a failing driver is told with its details before its status |
| ActuatorEffects.MismatchEffect | firmware/src/actuator.cpp:205-216 | a packet numbered like the last one and of its kind, but not the same, is refused as a mismatch, and neither done nor remembered |
| ActuatorEffects.BootEffect | firmware/src/actuator.cpp:86-130 | a boot configures the driver with the active configuration and turns it off, or faults; it sends nothing, counts from zero and forgets the last request |
| ActuatorStaging.StageEffect | firmware/src/actuator.cpp:825-856 | CONFIG_STAGE_FIELD is acknowledged exactly for six bytes that name a field and a value acceptable to what is staged; then that field of what is staged has that value, every other field and the fixed part are what was staged before, and the active configuration stays |
| ActuatorStaging.EditDecidesConfig | firmware/src/actuator.cpp:844-856 | that leaves one configuration only |
| ActuatorStaging.StagedByEdits | firmware/src/actuator.cpp:421-429 | over any run without apply, reset, new rate or restart, what is staged is the edits asked for, each packet counted once, applied in order to what was staged, those not acceptable passed over |
| ActuatorStaging.EditsBecomeActive | firmware/src/actuator.cpp:858-892 | a following apply makes exactly those edits active, unless something staged meets a motion or a refusing driver, and then nothing changes |
| ActuatorStaging.StagePayload | python/daft_protocol/messages.py:97-167 | the firmware reads a payload as an edit exactly if it is the one the client builds for it, field numbers and signed values included |
| ActuatorStaging.InstallableExactly | firmware/src/actuator.cpp:825-892 | out of motion with nothing staged, a host can make a valid configuration active by staging and applying if and only if it differs from the active one in stageable fields, by values that fit an edit |
| ActuatorUpdates.UpdateEffect | firmware/src/actuator.cpp:132-173 | an update ends a motion exactly when the backend says it has ended, idle or disabled as the driver is, and a velocity run exactly when the host was silent for too long, by the configured action and calls; otherwise drive, faults and backend are left alone |
| ActuatorUpdates.MotionEndsWhenHeard | firmware/src/actuator.cpp:141-145 | over any run of updates, telemetry and queries a move or stop goes on until the first update that hears of its end, and then has ended for good |
| ActuatorUpdates.AcceptedMoveLasts | firmware/src/actuator.cpp:508-593 | so an accepted move is in progress until an update hears that it has ended, and leaves the actuator idle in position mode |
| ActuatorUpdates.UpdateTells | firmware/src/actuator.cpp:132-173 | with a writer an update sends the boot event if it is still due, then the end of a motion or the timeout it found, with its values; without one it sends nothing and the boot is still due |
| ActuatorUpdates.BootIsToldOnce | firmware/src/actuator.cpp:132-139 | after a boot its event, with its reason, is sent by the first update that has a writer and by no later one |
| ActuatorDriver.DriverFollows | firmware/src/actuator.cpp:86-655 | any step leaves `enabled` as the last call to the driver that took effect did, and the active driver settings as the last it took; except a boot or reset whose settings the driver refuses, which adopts them all the same |
| ActuatorDriver.DriverFollowsRun | firmware/src/actuator.cpp:86-655 | so over any run in which the driver refuses no boot and no reset, the calls alone tell whether it is enabled and how it is set up |
| ActuatorDriver.DriverFollowsSinceBoot | firmware/src/actuator.cpp:120-130 | from a boot on they tell it whatever the driver was before |
| ActuatorCounters.StepCounts | firmware/src/actuator.cpp:192-221 | any step adds one to exactly the counters of what happened in it, and to the dropped packets as many as the port did not take |
| ActuatorCounters.RunCounts | firmware/src/actuator.cpp:192-221 | over any run without a restart the counters have grown by how often each thing happened, modulo 2^32 |
| ActuatorStorage.SaveStep | firmware/src/actuator.cpp:445-459 | a save stores the active configuration, and counts and acknowledges it exactly when the write finished |
| ActuatorStorage.BootStep | firmware/src/actuator.cpp:107-118 | a boot takes the stored configuration and generation, or the defaults and zero |
| ActuatorStorage.SaveThenBoot | firmware/src/actuator.cpp:107-118 | an acknowledged save followed by a boot restores the active configuration, but for the axis name; a save cut short leaves the boot what it was |
| ActuatorStorage.AgreementExactly | firmware/src/actuator.cpp:445-487 | any step keeps the generation reported that of the store, saves and clears that fail included, unless it is a reset that empties the store while the counter is not zero, or that fails to and loses the newest slot; and those never do |
| ActuatorStorage.GenerationAlwaysAgrees | firmware/src/actuator.cpp:445-459 | over any run, failing saves and clears and restarts included, the generation reported is always that of the newest stored configuration if and only if no such reset occurs |
| ActuatorStorage.ResetBreaksAgreement | firmware/src/actuator.cpp:461-487 | a reset leaves the counter, so when the store was emptied the two agree exactly when it was zero, and when that failed exactly when the newest slot is not lost |
| HostLink.FreshOnce | python/daft_protocol/client.py:46-51 | in a run of the requests of one client, each sent any number of times in a row, what is not an exact repeat is each request once, in order |
| HostLink.LinkExecutesOnce | firmware/platforms/esp32_arduino/src/main.cpp:290-302 | from bytes to calls: the frames of one client, each written any number of times in a row and spread in any way over turns of the main loop of a freshly booted actuator, are handled as the requests they are, each once and in order but for exact repeats, which change no backend call if the watchdog says the same at every update |
| HostLink.RepeatedRunOutlastsTimeout | firmware/src/actuator.cpp:205-207 | a RUN_VEL that has just started a run, repeated when the timeout is reached, is a case where the watchdog does not say the same |
| HostReplies.RunIgnores | firmware/src/actuator.cpp:204-221 | a run in which no request of a number is handled sends nothing that answers one, and caches nothing that does |
| HostReplies.RequestGetsItsReply | python/daft_protocol/client.py:58-74 | from responses to an outcome: a request whose number was not used since the boot ends with its reply, or with a device error if it was refused, however many of the packets sent before, replies to other requests included, arrive late, and whatever comes after |

## Left out

- Payload layout of responses, events and telemetry, and their time stamps: messages are typed values. `HostLink` only relies on the identifier, flags, number and payload length of each.
- Contents of identity and capability responses, apart from the generation and the host timeout; build metadata; name tables.
- The 32-bit fault mask is the set of its flags, and the bit numbers in FAULT_SET events are not computed.
- Details of a driver status beyond `configured`, `uart_ok` and one opaque word.
- Each backend callback answers once per step. `begin` reads the clock twice and every event reads it again; in the model those readings agree.
- ConfigStore.EventRefines: is about saves with readable slots and a marker that is cleared. `ConfigStore.Store.SaveConfig` states what a save does otherwise, and `ConfigStore.SaveHitsNewestExactly` what that means for the newest slot; whether a slot with an uncleared marker decodes after a power loss depends on its CRC.
- ActuatorWatchdog.WatchdogBound: is about one boot; a restart starts a new run. An update delayed for longer than 2^32 - 60000 ms is outside the claim, as the wrapped clock cannot tell it from a short one.
- HostLink.LinkExecutesOnce: is about one client instance; another one starts again at number 1 and may look like a repeat.
- HostReplies.RequestGetsItsReply: is not about pings, whose two replies `DaftClient.ping` collects in a loop of its own.
- ConfigBlob.DeserializeConfig: reads a whole blob before it compares the length, as the source does, so for lengths from 96 on the buffer has to hold 104 bytes; the buffers of its callers do.
- Messages of validation errors; the field a failed validation names is kept in `Config.Validate` only.
- Deadlines and sleeps of the host: the reads that return before a deadline are an input. Threads of the user interface.
- `python/apps/cli.py`, the commissioning interface, and the dictionaries that `parse_*` build.
- FastAccelStepper, TMC2209 and NVS internals, serial ports: calls into them are the abstract backend and the atomic key writes of the store. A relative move is taken to start from the position the backend reports. Of the board set-up only the start of the actuator is modelled.
- Reserved configuration fields: stored and validated, but the source gives them no behaviour.
