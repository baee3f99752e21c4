# Verification of the ATRIAS control path

ATRIAS is a walking robot. This project models the part of its software that must be right on every tick, and
proves it: the byte and bit protocols of the inertial sensors, the modular arithmetic on encoders and clocks,
and the stop logic that runs from the operator's GUI through the real-time master down to the motor boards
(Medullas). `dafny verify dfyconfig.toml` checks everything.

| module | what it models | main results |
|---|---|---|
| `Bits`, `Gf2`, `Crc` | the table-driven CRC | the fast loop is GF(2) division; every burst of up to 32 bits is detected; residue zero |
| `ImuPacket` | acceptance of a 36-byte sensor packet | a packet is accepted exactly if it is intact; sensor values change on accepted packets only, all together |
| `ImuStream` | the incremental 43-byte parser with in-place resynchronisation | whatever the chunking, it is one greedy scan of the bytes consumed |
| `ImuSettings` | encoder and parser of the sampling settings | each undoes the other, up to the unknown flag bits |
| `CArith`, `Encoders` | truncated remainders, wrap-around, three ways to unwrap an encoder | all three give the centred difference; the position is the true one |
| `CycleTiming` | the EtherCAT cycle and its clock filter | unique next instant of the grid; the phase converges and stays |
| `FieldNames`, `UniqueNames` | two encodings into strings | the exact names that survive, injectivity, pairwise distinct names |
| `Filters` | leaky counters and the toe switch | maximum over windows of the history; the last steady window |
| `Medulla`, `MedullaRuns`, `MedullaEffects`, `MedullaHazards` | the firmware of a board and its runs | invariant, way back from an error, watchdog, halt, filters; where every tick goes and what it gives the motor; two kinds of runs that show what the firmware lets happen |
| `RtOps`, `RtOpsRuns`, `RtOpsEffects`, `RtOpsResets`, `RtOpsAcks` | three interleaved threads of the master | the latch, what sets e-stop and what each command does, enabling, what is sent, which resets are acknowledged, what acknowledgements are worth |
| `ControllerManager`, `ControllerManagerRuns`, `ControllerManagerEffects`, `CommandChain`, `ChainHazards` | commands and acknowledgements, and both sides of them together | order, what each command and event does, e-stop, alternation of scripts, at most one enabling for each RUN of the user, what RT Ops was told; a manager that no command reaches any more |
| `DriveSafety`, `DriveDelivery`, `DriveHazards` | master, message, delivery, board and amplifier together | where every motor current comes from, call, message and delivery; how an e-stop gets to the motor, and exactly when it does not; what lost deliveries do |
| `ControlPath`, `ControlStop` | all of it, from the user to the motor | every motor command goes back to a RUN of the user; an E_STOP of the user gets to the motor |
| `Traces` | runs of any deterministic system | used for the runs that are given step by step |

Code that changes state step by step is modelled by classes and loops (`CrcUnit`, `ImuMedulla`, `Parser`,
`Encoder`, `ConnManager`, `ToeSwitch`, `NameCache`, `Firmware`, `StateMachine`, `ControllerLoop`, `Manager`,
`Amplifier`), each method proved equal to a function or to a property of everything that has happened so far;
the lemmas are about those functions. Runs are sequences of states with one action between neighbours. The
predicates `Ticks`, `Steps` and `SysSteps` name one step, so that a proof unfolds just the steps it speaks of.

## Where the code falls short

Each of these is proved as it is: when it happens, exactly, and a run from power-up in which it does.

- An e-stop held for 32768 ticks overflows the 16-bit debounce counter (taken to wrap). `Filters.TripsRightlyExact`:
  the filter trips when it should, throughout a history, exactly if the true count stays within 16 bits.
  `MedullaHazards.HeldEstopIsIgnored`: after that a board stays in run through as many as 32773 pressed samples. What
  still disarms it is the interrupt of the e-stop line, and until the first one that comes it is armed.
- The watchdog path to error does not clear the dwell counter (firmware/atrias2.1/src/medulla.c:349-354).
  `MedullaRuns.RunToResetExact`: when a board goes from run to reset in one tick; `MedullaHazards.RunToResetHappens`.
- Arming does not clear the duty of the PWM, nor does init look at the master's command
  (firmware/atrias2.1/src/medulla.c:290-323). That the PWM library, which is not part of this model, keeps its
  compare value while the output is disabled is assumed.
  `DriveSafety.ArmingExact`: the arming tick drives the motor unless the last applied value was zero or an interrupt
  disarms; `DriveHazards.ArmingDrives`: at full scale, while the last message says zero.
- So an e-stop that has reached a board does not keep it silent. `DriveSafety.StopReachesMotor`: a tick gives the
  motor anything but halt damping exactly if it arms with a last applied value that is not zero, and no interrupt;
  `DriveSafety.StopSilencesMotor`: from the second tick on none does. `DriveHazards.ArmingDrivesThroughStop`: the
  first one at full scale, after two messages that say error, the second of them delivered.
- A reset is lost if the EtherCAT thread has read the state before it and stops after it, or if it comes between the
  two reads of calcState. `RtOpsResets.ResetExact`: it is acknowledged however the threads go on exactly if neither
  is under way, nor another write of the loop, or an earlier acknowledgement is; `RtOpsResets.ResetLostToEtherCat` and
  `RtOpsResets.ResetLostToHalt` are runs that lose it. The Controller Manager then waits forever:
  `ChainHazards.StuckForGood`: it handles no command any more, the UNLOAD that would reset again included;
  `ChainHazards.UnloadGetsStuck` gets there, with nothing lost between the two.
- RT Ops acknowledges commands and resets that its own latch has refused. `RtOpsAcks.AckExact` and
  `RtOpsAcks.AckResetExact` say when an acknowledgement is true; `RtOpsAcks.AckEnableWhileStopped` and
  `RtOpsAcks.AckResetWhileStopped` are runs in which it is not.
- The event that the Controller Manager waits for is never cleared. `ControllerManagerRuns.FallsOutOfStepExactly`:
  it takes a running robot for a stopped one exactly after an ACK_DISABLE that comes while running;
  `CommandChain.QuickRestart`: RUN, STOP, RUN gets there, with RT Ops enabled and nothing lost;
  `ChainHazards.StopsAreDropped`: until the user gives RUN or UNLOAD nothing more is sent to RT Ops, however many
  STOP and E_STOP there are and whatever it reports.

Two more things hold in less than full generality, without a consequence here. The unrepaired C remainder gives the
centred value for some operands only: `CArith.PlainForm`, `Encoders.BoomDeltaIsCentred` and
`CycleTiming.CorrectionFollowsPhase` say for which. And the hardware check on the way to run finds nothing, since its
only filter has just been cleared: `MedullaRuns.InitChecksOnlyEstop`.

The event that the Controller Manager waits for is also never initialised. That does no harm as long as RT Ops
acknowledges only what it was told (`ControllerManagerRuns.ScriptsAlternate`), which it does
(`CommandChain.ScriptsAlternate`); only an acknowledgement that nobody asked for could do some
(`ControllerManagerRuns.AlternationExact`).

## Model

| member | source | states |
|---|---|---|
| Crc.CrcUnit.GenerateTable | firmware/atrias2.1/src/crc.c:27-50 | each of the 256 entries is what eight bit-serial division steps make of its index |
| Crc.CrcUnit.Divide | firmware/atrias2.1/src/crc.c:40-47 | the inner loop is that many division steps |
| Crc.ByteStepIsBitSerial | firmware/atrias2.1/src/crc.c:60-63 | one table lookup does the work of eight bit steps |
| Crc.CrcUnit.Calc | firmware/atrias2.1/src/crc.c:52-66 | the byte loop over the table computes the bit-serial checksum of the first bytes of the packet |
| Crc.ChecksumIsRemainder | firmware/atrias2.1/src/crc.c:10-17 | the checksum is the one remainder of the message polynomial, with the initial register on top, modulo the divisor |
| Crc.BurstDetected | firmware/atrias2.1/src/crc.c:27-66 | packets of one length that differ, but only within 32 consecutive bits, have different checksums |
| Crc.Residue | firmware/atrias2.1/src/crc.c:52-66 | the checksum over packet and trailer is zero exactly if the bits of the trailer are the packet's checksum |
| Crc.TrailerExact | firmware/atrias2.1/src/medulla_imu.c:168-174 | that is, if the trailer holds the checksum's four bytes, most significant first |
| Crc.KvhIsOdd | firmware/atrias2.1/src/crc.c:24-25 | the sensor's polynomial has a constant term, which is what the detection results need |
| ImuPacket.AcceptanceIsResidue | firmware/atrias2.1/src/medulla_imu.c:102-108 | the test of 32 bytes against the trailer holds exactly if the checksum of all 36 bytes is zero |
| ImuPacket.DamageRejected | firmware/atrias2.1/src/medulla_imu.c:94-108 | an intact packet damaged within 32 bits is not accepted |
| ImuPacket.DecodeExact | firmware/atrias2.1/src/medulla_imu.c:109-119 | each sensor value is the bytes at its place in the packet, words most significant byte first, the temperature in two's complement |
| ImuPacket.ImuMedulla.ProcessData | firmware/atrias2.1/src/medulla_imu.c:94-120 | sensor values are those of an intact packet, all together, or unchanged; the flags say why |
| ImuPacket.ImuMedulla.UpdateInputs | firmware/atrias2.1/src/medulla_imu.c:122-134 | the same for one cycle, with the flag for a short read and the buffer that a short read leaves |
| ImuStream.ScanExact | firmware/imu_medulla/src/imu.c:147-200 | a packet is accepted exactly if it checks and no accepted packet overlaps it from the left |
| ImuStream.ScanDisjoint | firmware/imu_medulla/src/imu.c:147-200 | accepted packets are in order, do not overlap and end before the pending bytes |
| ImuStream.RestExact | firmware/imu_medulla/src/imu.c:166-194 | the pending bytes start with a header, are too few, and no waiting header lies before them |
| ImuStream.ScanAppend | firmware/imu_medulla/src/imu.c:166-170 | scanning may stop at any byte and resume from the pending bytes |
| ImuStream.ScanRestart | firmware/imu_medulla/src/imu.c:178-194 | a packet with a bad sum is given up to its next header byte, at least one byte further |
| ImuStream.PublishedExact | firmware/imu_medulla/src/imu.c:463-482 | at all times what has been published is, packet for packet, nine numbers with the bytes after the header as their digits, four each, most significant first |
| ImuStream.OneByteDetected | firmware/imu_medulla/src/imu.c:395-421 | a good packet with one byte changed, anywhere, is not accepted |
| ImuStream.SumTrailer | firmware/imu_medulla/src/imu.c:395-421 | a good packet ends with its sum, most significant byte first |
| ImuStream.Parser.RunStateMachine | firmware/imu_medulla/src/imu.c:147-205 | one call keeps: the pending bytes are those of the greedy scan of all bytes consumed, in order, and the matrices published are those of the packets it accepts |
| ImuStream.Parser.Run | firmware/imu_medulla/src/imu.c:147-205 | the same for any number of calls and any chunking of the stream |
| ImuStream.Parser.SeekHeader | firmware/imu_medulla/src/imu.c:150-164 | bytes are skipped to the first header; only an empty driver stops it |
| ImuStream.Parser.ReadPacket | firmware/imu_medulla/src/imu.c:166-198 | a bulk read of any size keeps the scan |
| ImuStream.Parser.Finish | firmware/imu_medulla/src/imu.c:171-194 | a full buffer is accepted or resynchronised as the scan says |
| ImuStream.Parser.VerifyChecksum | firmware/imu_medulla/src/imu.c:395-421 | the loop decides whether the last two bytes are the 16-bit sum of the others |
| ImuStream.Parser.Resync | firmware/imu_medulla/src/imu.c:178-194 | the shift in place leaves exactly the suffix from the next header, and drops at least one byte |
| ImuSettings.UnpackPack | firmware/imu_medulla/src/imu.c:514-554 | unpacking what was packed gives back all settings, the inverted flags included |
| ImuSettings.PackUnpack | firmware/imu_medulla/src/imu.c:514-554 | packing what was unpacked gives the bytes back with the unknown flag bits cleared |
| ImuSettings.PackExact | firmware/imu_medulla/src/imu.c:535-554 | each byte of the packed settings as a number: which setting it holds, and each flag at its bit, three inverted |
| ImuSettings.ShortParts | firmware/imu_medulla/src/imu.c:433-442 | the two conversions of 16-bit numbers undo each other |
| ImuSettings.StoreShort | firmware/imu_medulla/src/imu.c:439-442 | two bytes are stored, most significant first, and no other changes |
| ImuSettings.EncodeFlags | firmware/imu_medulla/src/imu.c:536-546 | the flag word built bit by bit holds each flag at its bit, three inverted, and nothing else |
| ImuSettings.Encode | firmware/imu_medulla/src/imu.c:535-554 | bytes 4 to 13 of the command become the packed settings, the others stay |
| ImuSettings.Parse | firmware/imu_medulla/src/imu.c:514-533 | the settings are those unpacked from bytes 1 to 10 of the response |
| ImuSettings.EncodeThenParse | firmware/imu_medulla/src/imu.c:514-554 | parsing an encoded command from its byte 3 on gives the settings back, whatever they are |
| CArith.RepairIsExact | software/atrias_medulla_drivers/src/Encoder.cpp:44-49 | `Encoder::mod` is the modulo for dividends of either sign |
| CArith.DivExact | software/atrias_ecat_conn/src/ConnManager.cpp:122-128 | the quotient and the remainder are those of C, which truncate toward zero |
| CArith.PlainForm | software/atrias_medulla_drivers/src/BoomMedulla.cpp:91-93 | the unrepaired C expression is centred exactly if its dividend is not negative or is divisible |
| CArith.CentreExact | software/atrias_medulla_drivers/src/Encoder.cpp:38-39 | the centred value is the only one in the half-open range that is congruent |
| CArith.WrapInvisible | software/atrias_medulla_drivers/src/Encoder.cpp:27-41 | conversions to fixed-width integers keep everything modulo the encoder's range |
| Encoders.TravelIsTrue | software/atrias_medulla_drivers/src/Encoder.cpp:38-41 | slow steps add up to the true displacement, however often the reading wraps |
| Encoders.PositionIsTrue | software/atrias_medulla_drivers/src/Encoder.cpp:23-42 | the position is the centred first offset plus the true displacement, after any number of updates |
| Encoders.PositionModuloRange | software/atrias_medulla_drivers/src/Encoder.cpp:23-42 | at any speed the position is right modulo the range |
| Encoders.SlowEnoughIsNeeded | software/atrias_medulla_drivers/src/Encoder.cpp:38-39 | one step is measured right exactly if it is within half a range |
| Encoders.Encoder.Calibrate | software/atrias_medulla_drivers/src/Encoder.cpp:26-32 | the first reading gives the centred offset from the calibration value |
| Encoders.Encoder.Update | software/atrias_medulla_drivers/src/Encoder.cpp:23-42 | after each update position and last difference are those of all readings, through the unsigned wrap-arounds |
| Encoders.IncrementalDeltaIsCentred | software/atrias_medulla_drivers/src/HipMedulla.cpp:93-94 | the truncated remainder with the conversion to int16_t is the centred difference |
| Encoders.IncrementalEncoder.Process | software/atrias_medulla_drivers/src/LegMedulla.cpp:119-123 | the accumulated position is the travel of all readings, and the stored value the last reading |
| Encoders.AddDelta | software/atrias_medulla_drivers/src/HipMedulla.cpp:96 | adding the difference to the stored 16-bit value makes it the reading |
| Encoders.BoomDeltaIsCentred | software/atrias_medulla_drivers/src/BoomMedulla.cpp:84-93 | adding the range once gives the centred difference exactly above minus one and a half ranges, or when divisible |
| Encoders.BoomEncoder.constructor | software/atrias_medulla_drivers/src/BoomMedulla.cpp:33-61 | the start position is the centred offset, with the subtraction done in unsigned arithmetic |
| Encoders.BoomEncoder.Process | software/atrias_medulla_drivers/src/BoomMedulla.cpp:80-95 | the accumulated position is that of all readings; the difference is centred |
| CycleTiming.TargetExact | software/atrias_ecat_conn/src/ConnManager.cpp:133-141 | the next target is the one instant in the period from now that is congruent to the corrected old target |
| CycleTiming.CorrectionFollowsPhase | software/atrias_ecat_conn/src/ConnManager.cpp:122-128 | the correction is the phase error over the gain, negated; before the epoch the error is one period too small |
| CycleTiming.ConnManager.Cycle | software/atrias_ecat_conn/src/ConnManager.cpp:91-161 | one cycle, however late and answered in it or not: correction, target, sleep below a second, controller time on the grid, missed deadlines |
| CycleTiming.GridTime | software/atrias_ecat_conn/src/ConnManager.cpp:110-111 | the controller time is a multiple of the period |
| CycleTiming.PhaseStep | software/atrias_ecat_conn/src/ConnManager.cpp:104-141 | with clocks of one rate the next phase error depends on the last alone, not on overrun or jitter |
| CycleTiming.PhaseOfRun | software/atrias_ecat_conn/src/ConnManager.cpp:91-151 | so for whole runs |
| CycleTiming.Settling | software/atrias_ecat_conn/src/ConnManager.cpp:122-128 | the error keeps its sign, never grows and shrinks by one or more per cycle until below the gain |
| CycleTiming.Halves | software/atrias_ecat_conn/src/ConnManager.cpp:122-128 | in two gains of cycles the error is halved, or below the gain |
| CycleTiming.Converges | software/atrias_ecat_conn/src/ConnManager.cpp:91-151 | after 38 gains of cycles, or half a million, the error is below the gain |
| CycleTiming.StaysSettled | software/atrias_ecat_conn/src/ConnManager.cpp:91-151 | from then on it does not change |
| FieldNames.RoundTrip | software/atrias/scripts/load_bag.py:49-59 | unmangling undoes mangling, and the assertion passes, exactly on names without `~`, `_/` and `//` |
| FieldNames.Injective | software/atrias/scripts/load_bag.py:49-56 | names that mangle accepts have different mangled names |
| FieldNames.MangleExact | software/atrias/scripts/load_bag.py:49-59 | what mangle returns: underscores doubled, slashes as underscores, all else as it is; and an assertion fails on every other name |
| UniqueNames.NameInjective | software/atrias_controller_manager/src/ControllerManager-component.cpp:325-329 | base and number can be read off a name, even if the base contains underscores and digits |
| UniqueNames.BaseExact | software/atrias_controller_manager/src/ControllerManager-component.cpp:289-332 | a base is the parent's name, two underscores and the type, so the types of one parent have different bases |
| UniqueNames.SameNameExact | software/atrias_controller_manager/src/ControllerManager-component.cpp:289-332 | two requests get one name exactly if their bases agree and the 16-bit counter has come round |
| UniqueNames.NamesDistinct | software/atrias_controller_manager/src/ControllerManager-component.cpp:289-332 | names are pairwise distinct with at most 65536 requests for a base |
| UniqueNames.NameCache.GetUniqueName | software/atrias_controller_manager/src/ControllerManager-component.cpp:289-332 | the name returned carries the number of earlier requests for its base, modulo 65536 |
| Filters.LeakyIsMaximum | firmware/atrias2.1/src/medulla.c:265-270 | a leaky counter is the maximum of bad minus good samples over all windows that end now |
| Filters.TripsExactly | firmware/atrias2.1/src/medulla.c:361 | it is over its limit exactly if some window has that much net excess |
| Filters.DebounceExact | firmware/atrias2.1/src/medulla.c:265-270 | the 16-bit counter is the leaky one throughout exactly if that stays within 16 bits |
| Filters.TripsRightlyExact | firmware/atrias2.1/src/medulla.c:265-270 | so it is over a limit exactly when the leaky one is, throughout, if and only if the leaky one stays within 16 bits |
| Filters.HeldTooLong | firmware/atrias2.1/src/medulla.c:265-270 | 32768 pressed samples make the counter negative for good |
| Filters.ShowsOne | software/atrias_medulla_drivers/src/LegMedulla.cpp:533-551 | every history of readings shows exactly one value: that of its last steady window of 51, or false |
| Filters.ShowsSnoc | software/atrias_medulla_drivers/src/LegMedulla.cpp:537-546 | a reading changes it only by completing a steady window |
| Filters.FiftyOneShow | software/atrias_medulla_drivers/src/LegMedulla.cpp:537-546 | after a reading of the other kind 51 equal ones change what is shown, and fewer do not |
| Filters.TouchingExact | software/atrias_medulla_drivers/src/LegMedulla.cpp:533-537 | a reading touches exactly if it is more than 500 over the one at rest, as signed numbers, and is not 4095 |
| Filters.ToeSwitch.ToeDetect | software/atrias_medulla_drivers/src/LegMedulla.cpp:533-551 | the counter form returns that value after every call |
| Medulla.Firmware.OnEdge | firmware/atrias2.1/src/medulla.c:241-477 | one pass of the main loop, falling through its sections, is the tick function |
| Medulla.Firmware.Cycle | firmware/atrias2.1/src/medulla.c:241-503 | with the interrupt that may follow |
| Medulla.Firmware.InitState | firmware/atrias2.1/src/medulla.c:290-324 | init resets the errors and leads to run, armed, or to error |
| Medulla.Firmware.RunState | firmware/atrias2.1/src/medulla.c:325-376 | the checks of run: hardware over e-stop over watchdog over the master's command, with what each does to the dwell counter |
| Medulla.Firmware.HaltState | firmware/atrias2.1/src/medulla.c:407-445 | halt goes on, or ends in error with or without a pass of the error section |
| Medulla.Firmware.ErrorState | firmware/atrias2.1/src/medulla.c:462-477 | error disarms, counts, and answers a reset command after the dwell time |
| Medulla.Firmware.CheckErrors | firmware/atrias2.1/src/medulla_boom.c:162-183 | the boom's low-voltage filter; the other boards never report |
| Medulla.Firmware.HaltController | firmware/atrias2.1/src/medulla_leg.c:292-314 | halting per board: centred and saturated damping of the legs, zero for the hips, and when it ends |
| Medulla.EncoderChangeIsCentred | firmware/atrias2.1/src/medulla_leg.c:295-296 | one wrap at most, up or down, gives the centred difference of two encoder readings, as the repaired remainder does |
| MedullaRuns.MainLoop | firmware/atrias2.1/src/medulla.c:241-477 | the endless loop over any edges is a run as the lemmas below speak of |
| MedullaRuns.AlwaysSound | firmware/atrias2.1/src/medulla.c:265-477 | after every tick: armed only in run or halt, never in stop or an invalid state, all counters within their bounds |
| MedullaRuns.InitChecksOnlyEstop | firmware/atrias2.1/src/medulla.c:294-305 | check_error cannot fail in init |
| MedullaRuns.ErrorToRun | firmware/atrias2.1/src/medulla.c:273-477 | between an error and a later run come, in order, an answered reset, a reset tick, a run command in idle, a clear init |
| MedullaRuns.MakesProgress | firmware/atrias2.1/src/medulla.c:273-477 | each state since an error tells which of these have happened |
| MedullaRuns.CountsStale | firmware/atrias2.1/src/medulla.c:341-347 | in run the watchdog count is the exact number of stale ticks that directly precede |
| MedullaRuns.WatchdogExact | firmware/atrias2.1/src/medulla.c:341-354 | it fires exactly on the tenth stale run tick in a row, and that tick ends disarmed |
| MedullaRuns.StaleCommandsEnd | firmware/atrias2.1/src/medulla.c:341-382 | one value of the master's counter drives the motor in at most ten consecutive ticks |
| MedullaRuns.HaltCounts | firmware/atrias2.1/src/medulla_hip.c:223-230 | the halt count of hip and boom grows on every tick in halt |
| MedullaRuns.HaltEnds | firmware/atrias2.1/src/medulla.c:431-441 | a halted hip or boom is in error, disarmed, within 100 ticks, and in halt until then |
| MedullaRuns.LegHaltExact | firmware/atrias2.1/src/medulla_leg.c:292-303 | a leg stays in halt exactly without an e-stop and while it moves or its 8-bit count, incremented, is not over the limit |
| MedullaRuns.LegHaltEnds | firmware/atrias2.1/src/medulla_leg.c:292-303 | so a halted leg that does not move is in error, disarmed, within 102 ticks, whatever its count was |
| MedullaRuns.HaltStep | firmware/atrias2.1/src/medulla.c:407-441 | halt is left for error only, disarmed |
| MedullaRuns.DebounceMeasures | firmware/atrias2.1/src/medulla.c:265-455 | the debounce counter is that of the samples since the last reset tick |
| MedullaRuns.EstopTrips | firmware/atrias2.1/src/medulla.c:361-411 | run and halt end disarmed if the counter is over its limit, and without overflow it is exactly if some window since the last reset has over five more pressed samples |
| MedullaRuns.VoltageMeasures | firmware/atrias2.1/src/medulla_boom.c:162-193 | the boom's counter is the maximum over windows of all checks since reset_error, at most 501; run and halt need every window at most 500 |
| MedullaRuns.AppliedIsBounded | firmware/atrias2.1/src/medulla_leg.c:305-318 | what one tick applies: the master's value in run, or damping of at most 19900 |
| MedullaRuns.AppliedInRuns | firmware/atrias2.1/src/medulla.c:379-432 | so throughout a run, below the period of the PWM |
| MedullaRuns.RunExact | firmware/atrias2.1/src/medulla.c:325-405 | run goes on exactly without a fault and without a command that leaves it; stop and idle end idle and disarmed, faults disarmed |
| MedullaRuns.RunToResetExact | firmware/atrias2.1/src/medulla.c:349-354 | run ends in reset in one tick exactly if only the watchdog fires, the master asks for reset, and the dwell counter was left past its limit |
| MedullaHazards.RunToResetHappens | firmware/atrias2.1/src/medulla.c:349-475 | a run from power-up that does: one error, its recovery, ten stale ticks |
| MedullaHazards.HeldEstopIsIgnored | firmware/atrias2.1/src/medulla.c:265-382 | runs from power-up in which a board stays in run through up to 32773 pressed samples, any of them with an interrupt: armed exactly until the first |
| MedullaHazards.PlainTick | firmware/atrias2.1/src/medulla.c:265-477 | a tick without faults, state by state, as those runs need it |
| MedullaRuns.ObeysError | firmware/atrias2.1/src/medulla.c:290-339 | a tick that sees the command error applies no command, takes run to error, disarmed, and ends in run only from init |
| MedullaRuns.HaltDamps | firmware/atrias2.1/src/medulla_leg.c:292-318 | a leg or hip that ends a tick in halt has just been given its damping output; other boards are given none |
| MedullaEffects.DampingExact | firmware/atrias2.1/src/medulla_leg.c:292-318 | a leg in halt is given 180 counts for each count its encoder has turned, in the direction of the turn, nothing up to ten and 19900 at most; a hip zero |
| MedullaEffects.DampingInRuns | firmware/atrias2.1/src/medulla_leg.c:292-318 | so throughout a run, for the difference of the last two encoder readings |
| MedullaEffects.DrivesExactly | firmware/atrias2.1/src/medulla.c:379-382 | a tick drives with the master's current exactly if it begins and ends in run, on a leg or hip |
| MedullaEffects.InitExact | firmware/atrias2.1/src/medulla.c:290-324 | init arms unless the e-stop is pressed |
| MedullaEffects.RunGoes | firmware/atrias2.1/src/medulla.c:325-405 | where a run tick goes, for every fault, command and kind of board |
| MedullaEffects.HaltGoes | firmware/atrias2.1/src/medulla.c:407-445 | halt goes on exactly without a fault and while its count lasts |
| MedullaEffects.ErrorGoes | firmware/atrias2.1/src/medulla.c:462-477 | error ends exactly on a reset command after the dwell time |
| MedullaEffects.VoltageTripsExactly | firmware/atrias2.1/src/medulla_boom.c:162-193 | the boom's voltage stops it exactly if some window of its samples holds over 500 more low ones |
| MedullaEffects.ErrorLasts | firmware/atrias2.1/src/medulla.c:325-477 | an error lasts a thousand ticks at least, unless the watchdog alone has raised it |
| RtOps.StateMachine.SetState | software/atrias_rt_ops/src/StateMachine.cpp:19-30 | the latch, as one atomic write |
| RtOps.StateMachine.NewCMState | software/atrias_rt_ops/src/StateMachine.cpp:115-152 | a command is the list of its atomic writes and events, in order |
| RtOps.StateMachine.CalcState | software/atrias_rt_ops/src/StateMachine.cpp:66-113 | shared state, reset counter and result of a call, both its reads of the state included |
| RtOps.StateMachine.ShouldEStop | software/atrias_rt_ops/src/Safety.cpp:35-57 | true exactly for a current that is not finite or for the state halt |
| RtOps.StateMachine.CheckForNewErrors | software/atrias_rt_ops/src/RobotStateHandler.cpp:25-44 | an e-stop exactly if some Medulla reports error and the state read is neither e-stop nor reset |
| RtOps.ControllerLoop.ClampControllerOutput | software/atrias_rt_ops/src/ControllerLoop.cpp:35-54 | all six currents are clamped |
| RtOps.ClampExact | software/atrias_rt_ops/src/ControllerLoop.cpp:35-54 | each to the nearest value within 60 amperes, infinite ones included, and only what is no number stays so |
| RtOps.ControllerLoop.EndCycle | software/atrias_rt_ops/src/ControllerLoop.cpp:70-86 | the message is clamped, and zero unless its command is run |
| RtOpsRuns.UninterruptedCall | software/atrias_rt_ops/src/StateMachine.cpp:66-113 | the small steps of the loop alone carry out a whole calcState |
| RtOpsRuns.UninterruptedCommand | software/atrias_rt_ops/src/StateMachine.cpp:115-152 | those of the command thread alone a whole newCMState |
| RtOpsRuns.EcatDrains | software/atrias_rt_ops/src/RobotStateHandler.cpp:41-42 | those of the EtherCAT thread alone a whole eStop |
| RtOpsRuns.CmOrigin | software/atrias_rt_ops/src/StateMachine.cpp:115-152 | every pending write of the command thread belongs to one command, in process since it came |
| RtOpsRuns.LeavesEStop | software/atrias_rt_ops/src/StateMachine.cpp:19-30 | over all interleavings, e-stop lasts until a RESET command of the Controller Manager sets reset |
| RtOpsRuns.EntersEnabled | software/atrias_rt_ops/src/StateMachine.cpp:125-151 | enabled is entered only on an ENABLED command whose shouldHalt was false |
| RtOpsRuns.LatchedSendsError | software/atrias_rt_ops/src/ControllerLoop.cpp:56-90 | while e-stop lasts every message after the first says error, with zero currents |
| RtOpsRuns.StaysSilent | software/atrias_rt_ops/src/StateMachine.cpp:66-69 | every calcState call that starts while latched returns error |
| RtOpsRuns.EveryMessage | software/atrias_rt_ops/src/ControllerLoop.cpp:56-90 | over all interleavings, every message is what one calcState call answers to the state it read, with its controller's currents clamped or zero |
| RtOpsRuns.RunMessages | software/atrias_rt_ops/src/StateMachine.cpp:86-104 | a message with command run comes from a call that read enabled, with six finite currents; all others are zero |
| RtOps.CallOutcome | software/atrias_rt_ops/src/StateMachine.cpp:66-113 | what a whole calcState does, state by state: the new state, the events, the counter and the result, for every output and verdict of the safety check |
| RtOpsEffects.ControllerErrorStops | software/atrias_rt_ops/src/StateMachine.cpp:86-88 | over all interleavings: a call that reads enabled with a controller that asks for error sets e-stop and sends CONTROLLER_ESTOP before its message |
| RtOpsEffects.BadCurrentStops | software/atrias_rt_ops/src/StateMachine.cpp:90-96 | so does one with a current that is no number, with MEDULLA_ESTOP, and its message says error |
| RtOpsEffects.CheckDecides | software/atrias_rt_ops/src/StateMachine.cpp:90-104 | what the second read of a call leads to: e-stop for a bad current or halting, halt for shouldHalt unless e-stop has come by then, else the controller's own command and no change |
| RtOpsEffects.MedullaErrorStops | software/atrias_rt_ops/src/RobotStateHandler.cpp:25-44 | a Medulla's error sets e-stop and sends MEDULLA_ESTOP, unless the state read is e-stop or reset |
| RtOpsEffects.EStopHasCause | software/atrias_rt_ops/src/StateMachine.cpp:66-152 | whenever the state becomes e-stop, one of these, an e-stop command or an invalid one came before |
| RtOpsEffects.CommandTakesEffect | software/atrias_rt_ops/src/StateMachine.cpp:115-152 | what each command of the Controller Manager has done when it is carried out: the state set, unless e-stop holds, the acknowledgement sent, and whether a controller counts as loaded |
| RtOpsEffects.CallsAreGiven | software/atrias_rt_ops/src/ControllerLoop.cpp:56-90 | a call works on what the controller gave in that cycle if it counted as loaded, and on an idle output else |
| RtOpsResets.ResetCompletes | software/atrias_rt_ops/src/StateMachine.cpp:77-84 | a reset that finds no write or decision under way stays in reset until acknowledged, after at most six calls of calcState; so is one that finds an acknowledgement under way |
| RtOpsResets.ResetExact | software/atrias_rt_ops/src/RobotStateHandler.cpp:25-44 | a reset is acknowledged in every continuation without a command exactly if nothing is under way that disturbs it; if something is, there is one after which nothing but a command gets it acknowledged |
| RtOpsResets.LostForGood | software/atrias_rt_ops/src/StateMachine.cpp:66-113 | once e-stop or halting has taken its place, no step of any thread acknowledges it until another command |
| RtOpsResets.ResetLostToEtherCat | software/atrias_rt_ops/src/RobotStateHandler.cpp:28-42 | a run from power-up that ends in e-stop with nothing under way and the reset not acknowledged |
| RtOpsResets.ResetLostToHalt | software/atrias_rt_ops/src/StateMachine.cpp:86-101 | another that ends halting |
| RtOpsAcks.AckExact | software/atrias_rt_ops/src/StateMachine.cpp:115-152 | over all interleavings, a command gets its state exactly if the state at its own write is not e-stop or it asks for e-stop or reset; the acknowledgement is sent either way |
| RtOpsAcks.AckOrigin | software/atrias_rt_ops/src/StateMachine.cpp:150-151 | every acknowledgement of a command follows such a write |
| RtOpsAcks.AckUninterrupted | software/atrias_rt_ops/src/StateMachine.cpp:115-152 | the same condition for a whole command that no other thread interrupts, on the state in which it comes |
| RtOpsAcks.AckResetExact | software/atrias_rt_ops/src/StateMachine.cpp:77-84 | every ACK_RESET answers a read that completed a reset, and its write took effect exactly if no e-stop since that read lasted until it |
| RtOpsAcks.AckEnableWhileStopped | software/atrias_rt_ops/src/StateMachine.cpp:125-151 | a run from power-up that acknowledges ENABLED in e-stop |
| RtOpsAcks.AckResetWhileStopped | software/atrias_rt_ops/src/StateMachine.cpp:79-83 | a run from power-up that acknowledges a reset in e-stop |
| DriveSafety.MotorCurrentIsBounded | software/atrias_medulla_drivers/src/LegMedulla.cpp:213-236 | a message gives a motor at most 19900 counts, and none unless it says run, for legs and hips |
| DriveSafety.MotorFollowsCurrent | software/atrias_medulla_drivers/src/LegMedulla.cpp:213-236 | each of the six motors is given its own current of the message: 995 counts for three amperes, rounded toward zero, in the motor's direction, for all finite currents |
| DriveSafety.CountsAreBounded | software/atrias_medulla_drivers/src/HipMedulla.cpp:60-76 | the same for one clamped finite current in either direction |
| DriveSafety.Amplifier.SetAmpOutput | firmware/atrias2.1/src/amplifier.c:82-98 | direction pin and duty say exactly the value, if its magnitude fits into 16 bits |
| DriveSafety.SentIsBacked | software/atrias_rt_ops/src/ControllerLoop.cpp:56-87 | every message sent carries an authorised current or none |
| DriveSafety.ImagesAreBacked | software/atrias_medulla_drivers/src/LegMedulla.cpp:523-527 | so do the images in the master and in the Medulla, over all interleavings, losses and delays |
| DriveSafety.DrivesAreAuthorised | firmware/atrias2.1/src/medulla.c:379-382 | a nonzero motor command comes from a calcState that read enabled, with six finite currents and command run; board and message were in run |
| DriveSafety.MotorIsSafe | firmware/atrias2.1/src/medulla_leg.c:292-318 | at all times the motor gets an authorised command or halt damping, at most 19900, in run or halt only |
| DriveSafety.TickCalls | firmware/atrias2.1/src/medulla.c:290-477 | the enable, disable and output calls that a tick makes, section by section, leave the amplifier as its armed flag and last output say |
| DriveSafety.TickAmplifier | firmware/atrias2.1/src/amplifier.c:62-98 | so in every system run the motor gets exactly what the system says it gets |
| DriveSafety.ArmingExact | firmware/atrias2.1/src/medulla.c:315-322 | in every run the arming tick lets the motor have the last applied value, so it is silent exactly if that is zero or an interrupt disarms |
| DriveHazards.ArmingDrives | firmware/atrias2.1/src/medulla.c:315-322 | a run from power-up in which it drives any motor at full scale, though the last message says zero |
| DriveHazards.ArmingDrivesThroughStop | firmware/atrias2.1/src/medulla.c:290-323 | a run from power-up in which any motor is driven at full scale by the first tick after an e-stop has been delivered |
| DriveSafety.StopReachesMotor | software/atrias_rt_ops/src/ControllerLoop.cpp:56-90 | after an e-stop that lasts over two messages and one delivery a tick applies no command and takes run to error, disarmed; the motor gets something other than halt damping exactly if the tick arms, from init, what was applied last |
| DriveSafety.StopSilencesMotor | firmware/atrias2.1/src/medulla.c:336-339 | and from the second tick on only the halt damping of that tick |
| DriveDelivery.DriveProvenance | software/atrias_medulla_drivers/src/LegMedulla.cpp:523-527 | a nonzero motor command is that of the message received last, which was sent before its delivery and ends the calcState call that read enabled; and it says what the controller wanted of this motor |
| DriveDelivery.LostDeliveries | firmware/atrias2.1/src/medulla.c:341-354 | a board in run that gets no message over eleven ticks leaves run within them, disarmed, or for halt if the last message says so |
| ControlPath.DrivenByUser | software/atrias_controller_manager/src/ControllerManager-component.cpp:163-169 | from GUI to motor, over all interleavings and losses: that call read an enabled that answers a RUN of the user, and no RUN serves for two |
| ControlStop.EStopReachesRtOps | software/atrias_controller_manager/src/ControllerManager-component.cpp:188-212 | E_STOP of the user, taken while running: once RT Ops has read and carried out what the manager then writes, it is in e-stop until it reads a RESET |
| ControlStop.EStopReachesMotor | software/atrias_controller_manager/src/ControllerManager-component.cpp:188-212 | and after two messages and a delivery no tick gives a motor a command, and a board in run ends in error, disarmed; what else there may be is StopReachesMotor's |
| ControllerManager.Manager.HandleUserCommand | software/atrias_controller_manager/src/ControllerManager-component.cpp:152-203 | which command does what in which state |
| ControllerManager.Manager.LoadController | software/atrias_controller_manager/src/ControllerManager-component.cpp:214-240 | a named controller whose start script works is loaded, and its acknowledgement awaited |
| ControllerManager.Manager.SetState | software/atrias_controller_manager/src/ControllerManager-component.cpp:252-266 | the stop script and the latch of the e-stopped state |
| ControllerManager.Manager.ProcessCommands | software/atrias_controller_manager/src/ControllerManager-component.cpp:121-122 | the loop handles commands until the buffer is empty or an acknowledgement is pending |
| ControllerManager.Manager.TryProcessCommand | software/atrias_controller_manager/src/ControllerManager-component.cpp:268-283 | one command is taken from the front, unless an acknowledgement is pending |
| ControllerManager.Manager.UpdateHook | software/atrias_controller_manager/src/ControllerManager-component.cpp:68-127 | events and commands are queued in order, then processed |
| ControllerManager.Manager.Turn | software/atrias_controller_manager/src/EventManager-activity.cpp:21-87 | what one event does |
| ControllerManagerRuns.CommandsAreFifo | software/atrias_controller_manager/src/ControllerManager-component.cpp:268-283 | commands are handled in order of arrival, each once, and wait only for an acknowledgement |
| ControllerManagerRuns.PendingBlocks | software/atrias_controller_manager/src/ControllerManager-component.cpp:268-283 | none is handled while one is pending |
| ControllerManagerEffects.CommandEffects | software/atrias_controller_manager/src/ControllerManager-component.cpp:152-240 | what each command does in each state: the new state, what RT Ops is sent, what is awaited, the script |
| ControllerManagerEffects.EventEffects | software/atrias_controller_manager/src/EventManager-activity.cpp:21-87 | what each event does, awaited or not |
| ControllerManagerEffects.EveryCommandIsTaken | software/atrias_controller_manager/src/ControllerManager-component.cpp:268-283 | in every run, each command that a step handles is taken by a manager that waits for nothing, in order |
| ControllerManagerEffects.EStopOfUser | software/atrias_controller_manager/src/ControllerManager-component.cpp:188-212 | in every run, E_STOP taken while running ends the step in the e-stopped state, E_STOP sent to RT Ops and ACK_E_STOP awaited |
| ControllerManagerEffects.UnloadOfUser | software/atrias_controller_manager/src/ControllerManager-component.cpp:175-203 | UNLOAD with a controller sends RESET and awaits ACK_RESET |
| ControllerManagerEffects.StopOfUser | software/atrias_controller_manager/src/ControllerManager-component.cpp:176-184 | STOP while running sends DISABLED, whatever the step does afterwards |
| ControllerManagerEffects.EStopOfRtOps | software/atrias_controller_manager/src/EventManager-activity.cpp:60-80 | an e-stop event of RT Ops that is not awaited puts the manager into the e-stopped state |
| ControllerManagerEffects.CommandsArrive | software/atrias_controller_manager/src/ControllerManager-component.cpp:68-127 | what has been handled and what waits are all the commands that the GUI has sent, in order |
| ControllerManagerEffects.EventsWait | software/atrias_controller_manager/src/ControllerManager-component.cpp:68-127 | events are queued in order and leave the queue one by one |
| ControllerManagerRuns.LeavesEStopped | software/atrias_controller_manager/src/ControllerManager-component.cpp:263-264 | the e-stopped state is left only on an awaited ACK_RESET |
| ControllerManagerRuns.ScriptsAlternate | software/atrias_controller_manager/src/ControllerManager-component.cpp:214-266 | start and stop scripts strictly alternate, whatever event is awaited at first, if stops and starts are not acknowledged before the first command |
| ControllerManagerRuns.AlwaysSettled | software/atrias_controller_manager/src/ControllerManager-component.cpp:152-283 | so the manager's flags, scripts and what it told RT Ops fit together at all times |
| ControllerManagerRuns.AlternationExact | software/atrias_controller_manager/src/EventManager-activity.cpp:14-19 | with acknowledgements that nobody asked for, the scripts alternate in all runs exactly if the event awaited at first is not ACK_DISABLE |
| ControllerManagerRuns.RunningIsTold | software/atrias_controller_manager/src/ControllerManager-component.cpp:163-191 | in the running state RT Ops was told last to enable, or to reset if that is pending |
| ControllerManagerRuns.FallsOutOfStepExactly | software/atrias_controller_manager/src/EventManager-activity.cpp:39-44 | believing to be stopped after telling to enable begins exactly with an ACK_DISABLE dispatched while running |
| ControllerManagerRuns.QuickRestart | software/atrias_controller_manager/src/EventManager-activity.cpp:39-44 | RUN, STOP, RUN gets there, each acknowledgement coming after its command |
| ControllerManagerRuns.StopIsIgnored | software/atrias_controller_manager/src/ControllerManager-component.cpp:163-203 | a stopped or e-stopped manager drops whatever is neither RUN nor UNLOAD |
| CommandChain.CmRun | software/atrias_rt_ops/src/StateMachine.cpp:32-64 | RT Ops and the Controller Manager together, commands and events possibly lost: stops and starts are acknowledged only after a command |
| CommandChain.ReadInOrder | software/atrias_controller_manager/src/ControllerManager-component.cpp:68-127 | in the chain a hook reads consecutive events, later than all that were read or lost before |
| CommandChain.ScriptsAlternate | software/atrias_controller_manager/src/ControllerManager-component.cpp:214-266 | so in the chain the scripts alternate, whatever event is awaited at first |
| CommandChain.EnabledByUser | software/atrias_controller_manager/src/ControllerManager-component.cpp:163-169 | RT Ops becomes enabled at most as often as the manager has handled a RUN command of the user |
| CommandChain.QuickRestart | software/atrias_controller_manager/src/EventManager-activity.cpp:39-44 | a run of the chain from power-up, nothing lost, that ends with RT Ops enabled and a manager in the stopped state that waits for nothing |
| ChainHazards.StopsAreDropped | software/atrias_controller_manager/src/ControllerManager-component.cpp:163-203 | over all continuations in which the user gives neither RUN nor UNLOAD, such a manager sends RT Ops nothing more |
| ChainHazards.StuckForGood | software/atrias_controller_manager/src/ControllerManager-component.cpp:268-283 | a manager that waits for a lost reset handles no command any more, whatever the user and RT Ops do |
| ChainHazards.GetsStuck | software/atrias_controller_manager/src/ControllerManager-component.cpp:247-250 | every disturbed reset that a manager waits for can end so |
| ChainHazards.UnloadGetsStuck | software/atrias_controller_manager/src/ControllerManager-component.cpp:247-250 | a run from power-up that does, with a Medulla's error and an UNLOAD at the same time |

## Left out

- Encoder velocities, timestamps and scaling to physical units: floating-point quotients without a promise to prove.
- Overflow of the 64-bit and 32-bit signed accumulators of positions and times: they are unbounded integers here.
- Rounding of doubles: they are reals or one of the values that are not numbers. C leaves the conversion of such a value to an integer open; one value is chosen, and it is proved never to reach a motor.
- The polling branch of the inertial sensor (`imu_current_state` other than 1), its acceleration and rate packets, and the commands that set it up.
- `Safety::shouldHalt`, the collision limits and everything behind the unconditional return in `shouldEStop`: `shouldHalt` is any boolean.
- The sections of `check_error` and `check_halt` that are not compiled in, and the error flags that the Medullas only report.
- The hardware watchdog of a Medulla, lost edges of the distributed clock, and a tick that overruns: a tick happens or does not.
- Interrupts inside a tick: they come between ticks. For the armed flag that is the same: only the end of an init tick sets it, and an interrupt before that end is one that follows the tick before; all else only clears it.
- Wakeups, scheduling and the try-lock of the Controller Manager: its two handlers are atomic, and nothing is said about when they run.
- The Controller Manager's debug operations for loading and unloading, its error code, and the content of what it tells the GUI.
- Script runs that fail when a controller is stopped (an assertion in the source), and builds without assertions, in which the stop script would not run at all.
- EtherCAT frames, SPI, UART, ADC and PWM registers, LEDs and printing: only their effect is kept (bytes received, the armed flag, direction and duty).
- Walking controllers, kinematics, the GUIs, ROS and Orocos plumbing, log recording, and the rest of `load_bag.py`.
- Filters.DebounceExact: takes the overflow of the C int, which the language leaves undefined, to wrap.
- RtOpsRuns.LeavesEStop: starts from a state that is NO_CONTROLLER_LOADED or by chance E_STOP, because the constructor reads `currentState` before anything sets it.
- MedullaRuns.HaltEnds: speaks of hips and booms only; a leg stays in halt as long as its motor turns (`MedullaRuns.LegHaltExact`), and a sensor board until an e-stop.
- ControllerManagerRuns.RunningIsTold: needs acknowledgements that answer a command, or an awaited event that is not ACK_ENABLE at first; the first is what `CommandChain.CmRun` proves of RT Ops.
- DriveSafety.DrivesAreAuthorised: says that an authorised call with that count exists; that it is the call of the message received is `DriveDelivery.DriveProvenance`, and neither bounds its age: `MedullaRuns.StaleCommandsEnd` and `DriveDelivery.LostDeliveries` do, in ticks.
