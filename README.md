# UpVote battlebot firmware core in Dafny

This project models the control core of the UpVote Arduino battlebot firmware.
The firmware is written in C++ for an ATmega328-class board. The model covers:

- **The CRSF radio receiver.** This is the five-state, byte-at-a-time frame
  assembler over a 64-byte buffer, with the table-driven CRC-8/DVB-S2. It
  includes the unpacking of sixteen 11-bit RC channels, the conversion of
  channels to stick and switch inputs, the link-timeout failsafe, and the
  battery telemetry frame sent back to the transmitter.
- **The safety core.** This is the sticky first-error-wins error register,
  the time-based switch debouncer, and the weapon arming state machine with
  its re-arm throttle hysteresis.
- **The outputs.** These are the weapon ESC pulse, the self-righting servo
  pulse and the shared slew-rate limiter. They also include the status LED,
  with its error-code blinker, and the motor-direction shift register.
- **The 100 Hz control loop.** This is the deadline gate, overrun detection
  and period advance on the wrapping microsecond counter.

The global state record `g_state` is the class `State.RuntimeState`; its
nested groups are flattened into one field list. Each source file's
file-level `static` state is a class holding those variables, and each
class's methods are proved against pure functions. The class-to-state
mapping is:

| class | source state |
|---|---|
| `Input.CrsfReceiver` | the `crsf_parser` struct |
| `Weapon.WeaponControl` | `g_weapon_previous_us` |
| `Servo.ServoControl` | `g_servo_previous_us` |
| `Diagnostics.DiagnosticsControl` | `last_error` and the LED pin |
| `Actuators.ActuatorOutputs` | `shift_reg_state` and the recorded pin writes |
| `ControlLoop.Scheduler` | `next_loop_us` |
| `Telemetry.TelemetrySender` | `last_telemetry_ms` |

These are the pure functions the methods are proved against:

- `Crsf.Step`, `Crsf.Receive` and `Crsf.LinkTimeout` for the receiver;
- `Weapon.ArmingStep` and `Weapon.WeaponOutput` for the weapon;
- `Servo.ServoOutput` for the servo;
- `Diagnostics.DiagnosticsStep` for the LED;
- `Actuators.UpdatePins` for the outputs;
- `ControlLoop.TickDecision` for the loop.

The properties are proved about those functions. The build-time constants
are a `Types.Config` value. The configuration header is empty in this
snapshot of the repository, so `Config.Valid` collects the relations the
code relies on:

- re-arm threshold below arm threshold;
- ESC minimum at most maximum;
- retract ≤ neutral ≤ extend;
- positive slew limits, all pulse widths below 2^15;
- a deadband in [0, 1).

Modules, one per source file: `Types`, `State`, `Safety`, `Debounce`,
`Slew`, `Crc8`, `Channels`, `Crsf`, `Input`, `Telemetry`, `Weapon`,
`Servo`, `Diagnostics`, `Actuators`, `ControlLoop`.

## Model

| member | source | states |
|---|---|---|
| Types.Elapsed | src/utilities.cpp:17 | uint32_t `now - since` is the true gap when no wrap occurred and the gap plus 2^32 across a wrap |
| Types.SystemError.Code | include/state.h:19-25 | codes 0..4, with 0 exactly for ERR_NONE |
| Types.CodeInjective | include/state.h:19-25 | distinct errors have distinct codes, so the blink count identifies the error |
| State.RuntimeState.constructor | src/state.cpp:11-58 | boot state: inputs neutral, link down, disarmed, no error, outputs at their safe values, LED counters cleared |
| Safety.SubmitError | src/safety.cpp:28-33 | the register after one submission holds the old or the submitted error; a recorded error is kept, and the register is empty afterwards only if it was empty and ERR_NONE was submitted |
| Safety.SubmitToEmptyRecords | src/safety.cpp:28-33 | `safety_set_error(e)` on an empty register records `e` |
| Safety.SubmitIsSticky | src/safety.cpp:30 | a recorded error is never overwritten, whatever is submitted |
| Safety.SubmitNeverClears | src/safety.cpp:28-33 | submitting never moves the register from an error back to ERR_NONE |
| Safety.FirstError | include/safety.h:39-40 | reference definition: the first non-NONE error of a sequence, NONE exactly when every entry is NONE |
| Safety.SubmitAllFirstWins | src/safety.cpp:28-33 | over any sequence of submissions, a clear register ends up holding the first real error and a set register is unchanged |
| Safety.Init | src/safety.cpp:11-17 | `safety_init` leaves the weapon disarmed and no error recorded |
| Safety.IsSafe | src/safety.cpp:19-26 | safe if and only if no error is recorded |
| Safety.SetError | src/safety.cpp:28-33 | only the error field changes, following first-error-wins |
| Safety.GetArmState | include/safety.h:23-26 | returns the stored arming state and reads nothing else |
| Safety.IsArmed | include/safety.h:29-31 | armed if and only if the stored state is ARMED |
| Safety.GetError | include/safety.h:34-37 | returns the stored error |
| Safety.ClearError | include/safety.h:43-46 | the register is empty afterwards and no other field changes |
| Safety.ClearThenSet | include/safety.h:39-46 | after a clear, the next submitted error takes effect again |
| Debounce.DebounceAsWritten | src/utilities.cpp:9-25 | agreeing input restarts the timer; a differing input flips the output exactly when the elapsed time reaches the debounce time, and then leaves the timer alone; the output only ever takes the raw value |
| Debounce.Debounce | src/utilities.cpp:9-25 | the same rules, except that accepting a change also restarts the timer |
| Debounce.RunTracksLastAgreement | include/utilities.h:16-18 | along any history the timer holds the time of the last sample that agreed with the output, and no later sample agreed |
| Debounce.DebounceFlipNeedsHold | include/utilities.h:16-18 | the output changes only after the raw input has read the new value at every call for at least the debounce time |
| Debounce.AsWrittenFlipsOnOneSample | src/utilities.cpp:15-20 | the routine as written flips back on a single sample one millisecond after accepting a change |
| Slew.ToInt16 | src/weapon.cpp:130 | the int16_t cast is exact in range and otherwise congruent modulo 2^16 |
| Slew.SlewStep | src/weapon.cpp:129-138 | for pulse widths below 2^15, a step moves toward the target by at most the limit, never overshoots, lands on the target when within the limit, and otherwise moves by exactly the limit |
| Slew.SlewReachesTarget | src/servo.cpp:37-49 | a fixed target is reached, and then held, within ceil(distance / limit) steps |
| Slew.SlewStaysAtTarget | src/servo.cpp:37-49 | once on the target, the limiter stays there |
| Crc8.Crc8Append | src/input.cpp:37-43 | the CRC is a left fold over the bytes of the message |
| Crc8.CheckValue | src/input.cpp:14-16 | the CRC-8/DVB-S2 check value: the CRC of "123456789" is 0xBC |
| Crc8.TableFoldIsCrc8 | src/input.cpp:37-43 | with a correct table, the table loop computes the bitwise CRC of every message |
| Crc8.FirmwareTableIsCrcTable | src/input.cpp:16-33 | each of the 256 table entries equals eight MSB-first shifts of its index with polynomial 0xD5 |
| Crc8.FirstTableEntries | src/input.cpp:17 | entry 0 is 0 and entry 1 is the polynomial 0xD5 |
| Crc8.TableCrc8 | src/input.cpp:37-43 | the accumulator loop over a buffer slice computes the table fold of that slice |
| Crc8.ComputeCrc8 | src/input.cpp:37-43 | `crsf_crc8(&buf[start], len)` is the CRC-8/DVB-S2 of exactly that slice |
| Channels.UnpackedInRange | src/input.cpp:52-74 | every unpacked channel is below 2048 |
| Channels.UnpackOfPack | src/input.cpp:52-74 | unpacking a transmitter's packing of sixteen 11-bit values returns those values |
| Channels.PackOfUnpack | src/input.cpp:52-74 | packing the channels decoded from any 22-byte payload reproduces the payload, so no payload bit is lost |
| Channels.UnpackedFieldBits | src/input.cpp:52-74 | channel i is bits [11i, 11i + 11) of the payload as a little-endian bit stream |
| Channels.LowChannelsByFormulas | src/input.cpp:58-65 | the shift-and-mask formulas for channels 0-7 agree with the bit-stream unpacking |
| Channels.HighChannelsByFormulas | src/input.cpp:66-73 | the shift-and-mask formulas for channels 8-15 agree with the bit-stream unpacking |
| Channels.UnpackChannels | src/input.cpp:52-74 | the sixteen channels written are the bit-stream unpacking of the 22 payload bytes |
| Crsf.NormalizeChannel | src/input.cpp:83-94 | the corrected normalisation on the signed difference: the result is in [-1, +1], zero exactly at the centre 992, signed like raw - 992, and saturated at 172 and 1811 |
| Crsf.NormalizeChannelAsWritten | src/input.cpp:83-94 | as the firmware computes it with 16-bit unsigned `raw - 992`: never negative, and equal to the corrected value from the centre up |
| Crsf.AsWrittenBelowCentreReadsFull | src/input.cpp:86-87 | as written, every value below 992 reads +1, also after the deadband, and as a full weapon level, where the signed difference gives a negative stick and a weapon level below one half; at 172 the two are full scale apart |
| Crsf.ApplyDeadband | src/input.cpp:100-113 | zero inside the deadband, sign kept outside it, and [-1, +1] mapped onto itself with both ends reached |
| Crsf.WeaponLevel | src/input.cpp:269-271 | the slider maps [-1, +1] linearly onto [0, 1] and stays in [0, 1] |
| Crsf.DecodeSwitch | src/input.cpp:118-126 | the position is 0, 1 or 2: below 700, 700..1299, and 1300 or more, each an if-and-only-if |
| Crsf.RcInputs | src/input.cpp:258-288 | arm, kill and self-right are on exactly when channels 4, 5 and 6 are at least 1300; the sticks are in [-1, 1], the weapon in [0, 1], and a centred roll channel gives roll 0 |
| Crsf.WriteIndex | src/input.cpp:187-229 | every buffer write the assembler makes is below index 64 |
| Crsf.CheckedBytes | src/input.cpp:310-312 | the CRC covers `frame_length - 1` bytes from the type byte on |
| Crsf.AddressByte | src/input.cpp:184-192 | only 0xC8 starts a frame, stored at index 0; any other byte leaves the parser unchanged |
| Crsf.LengthByte | src/input.cpp:196-209 | a length of 1..62 is stored at index 1 and the type byte is awaited; 0 or above 62 returns to address seeking without writing the buffer |
| Crsf.TypeByte | src/input.cpp:213-223 | the type is stored at index 2; a payload follows exactly when the length exceeds 2 |
| Crsf.PayloadByte | src/input.cpp:227-238 | each byte is stored at the byte count, which advances by one; the CRC is awaited exactly when the count reaches length + 1 |
| Crsf.CrcByte | src/input.cpp:293-345 | the parser always returns to address seeking with a zero count; the frame is accepted exactly when the CRC matches; channels change only for a 24-byte frame of type 0x16, and then hold the unpacked payload |
| Crsf.Step | src/input.cpp:349-371 | one byte writes at most the buffer cell at the write index; only the CRC state yields an outcome, and it is accepted exactly on a matching CRC |
| Crsf.Run | src/input.cpp:349-371 | after any byte sequence the assembler is in a consistent state: a 64-byte buffer, sixteen channels, and a byte count and frame length that fit its sync state |
| Crsf.RunConcat | src/input.cpp:349-371 | feeding two chunks one after the other is feeding their concatenation |
| Crsf.SkipsNoise | src/input.cpp:184-192 | while seeking an address, bytes other than 0xC8 leave the parser untouched |
| Crsf.FramePrefix | src/input.cpp:184-238 | after the first 3 + k bytes of a framed byte string the parser holds those bytes, the declared length and count 3 + k |
| Crsf.AcceptsWellFormed | src/input.cpp:184-345 | a frame with a correct length byte and CRC, fed from address seeking, is accepted with its own type, length and payload |
| Crsf.AcceptsAfterNoise | src/input.cpp:184-192 | noise without 0xC8 in front of a well-formed frame does not prevent its acceptance |
| Crsf.LengthOneFrame | src/input.cpp:218-222 | a length-1 frame still takes a type byte and a CRC byte, and its CRC over zero bytes accepts exactly the byte 0 |
| Crsf.DecodesRcChannelsFrame | src/input.cpp:315-329 | the frame a transmitter sends for sixteen channel values is accepted and leaves exactly those values in the raw channels |
| Crsf.ApplyOutcome | src/input.cpp:315-340 | a CRC mismatch only submits ERR_CRSF_CRC; any accepted frame raises the link and stamps the time; an accepted 24-byte channels frame sets the inputs from its channels, and no other outcome changes them |
| Crsf.Receive | src/input.cpp:447-450 | draining bytes runs the assembler over them in order |
| Crsf.ReceiveKeepsError | src/input.cpp:339 | over any byte stream a recorded error survives, and a clear register can only take ERR_CRSF_CRC |
| Crsf.ReceiveByte | src/input.cpp:349-371 | one byte is one assembler step, and a byte arriving before the CRC byte changes no field of `g_state` |
| Crsf.ReceivesRcChannelsFrame | src/input.cpp:315-335 | a channels frame brings the link up, stamps it now, sets every input from the encoded channels and leaves the error alone |
| Crsf.ReceivesWellFormed | src/input.cpp:293-345 | a well-formed frame changes the link fields exactly as its accepted outcome says |
| Crsf.LinkTimeout | src/input.cpp:454-470 | past the timeout, the link is down, ERR_CRSF_TIMEOUT is submitted first-wins and every input is neutral; otherwise nothing changes |
| Crsf.RecoveryKeepsTimeoutError | src/input.cpp:334-335 | a frame after a link loss restores the link but not the error register |
| Input.CrsfReceiver.constructor | src/input.cpp:142-148 | the zero-initialised parser struct, seeking an address |
| Input.CrsfReceiver.Init | src/input.cpp:154-176 | the parser seeks an address with cleared counters, inputs are neutral, the link is down and its timer starts now |
| Input.CrsfReceiver.HandleAddressByte | src/input.cpp:184-192 | the handler does what `Crsf.AddressByte` says |
| Input.CrsfReceiver.HandleLengthByte | src/input.cpp:196-209 | the handler does what `Crsf.LengthByte` says |
| Input.CrsfReceiver.HandleTypeByte | src/input.cpp:213-223 | the handler does what `Crsf.TypeByte` says |
| Input.CrsfReceiver.HandlePayloadByte | src/input.cpp:227-238 | the handler does what `Crsf.PayloadByte` says |
| Input.CrsfReceiver.ProcessRcChannelsFrame | src/input.cpp:242-289 | the raw channels are the unpacked payload at index 3, and the inputs are `Crsf.RcInputs` of them |
| Input.CrsfReceiver.SetInputsFromChannels | src/input.cpp:258-288 | every input field is `Crsf.RcInputs` of the raw channels |
| Input.CrsfReceiver.ProcessIfRcChannels | src/input.cpp:317-331 | only a frame of type 0x16 with length 24 touches channels and inputs |
| Input.CrsfReceiver.AcceptFrame | src/input.cpp:315-335 | the valid-CRC branch updates the link fields as `Crsf.ApplyOutcome` says for an accepted frame |
| Input.CrsfReceiver.StoreCrcByte | src/input.cpp:295-313 | the computed and received CRC agree exactly when the frame is accepted |
| Input.CrsfReceiver.HandleCrcByte | src/input.cpp:293-345 | the parser and `g_state` follow `Crsf.CrcByte` and `Crsf.ApplyOutcome` |
| Input.CrsfReceiver.ProcessByte | src/input.cpp:349-371 | one byte moves the receiver exactly as `Crsf.ReceiveByte` does |
| Input.CrsfReceiver.Update | src/input.cpp:445-471 | the parser ends at `Crsf.Run` of the bytes, and `g_state` at the timeout check applied after the drain |
| Input.CrsfReceiver.Drain | src/input.cpp:447-450 | the receiver after the loop is `Crsf.Receive` of the waiting bytes |
| Input.CrsfReceiver.CheckLinkTimeout | src/input.cpp:454-470 | the link fields follow `Crsf.LinkTimeout` |
| Telemetry.TruncDiv | src/input.cpp:427 | C integer division truncates toward zero |
| Telemetry.RamPercent | src/input.cpp:426-428 | the reported level is at most 100, and is the plain truncated percentage of 2048 bytes for free RAM in range |
| Telemetry.BatteryPayload | src/input.cpp:397-429 | the payload is 8 bytes |
| Telemetry.DecodeBatteryPayloadRoundTrip | src/input.cpp:397-429 | a receiver reads back 7.4 V, zero current, the error code as capacity and the RAM level as remaining |
| Telemetry.BatteryFrameAsWritten | src/input.cpp:388-437 | the frame as written is 12 bytes, with the length byte saying 11 |
| Telemetry.BatteryFrame | src/input.cpp:388-437 | the corrected frame is 12 bytes, with the length byte counting the 10 bytes after it |
| Telemetry.AsWrittenFrameNeedsStrayZero | src/input.cpp:394 | a parser reading the frame as written still awaits a CRC after all 12 bytes, and accepts only if the next byte is 0x00 |
| Telemetry.BatteryFrameAccepted | src/input.cpp:388-437 | the corrected frame is accepted on its own with type 0x08 and its payload |
| Telemetry.TelemetrySender.SendBatteryTelemetry | src/input.cpp:388-437 | the bytes written are the battery frame for the current error and RAM level |
| Telemetry.TelemetrySender.WriteBatteryPayload | src/input.cpp:397-429 | the eight payload bytes are written in order and the header is kept |
| Telemetry.TelemetrySender.UpdateTelemetry | src/input.cpp:473-482 | a frame is sent and the timer restarted exactly when a telemetry period has elapsed in wrapping milliseconds; otherwise nothing is sent |
| Weapon.ArmingStep | src/weapon.cpp:42-106 | any disarm condition disarms and records the throttle; armed implies no disarm condition held; armed with none stays as is; from disarmed, arming happens exactly when the hysteresis throttle test passes |
| Weapon.RunKeepsArmedThrottleBounded | src/weapon.cpp:85-102 | along any run, while armed the remembered throttle is at most the arm threshold |
| Weapon.ArmedOnlyAfterCleanArming | src/weapon.cpp:53-102 | from disarmed, ending armed needs some evaluation with throttle at most the arm threshold and no disarm condition at any evaluation since |
| Weapon.RearmHysteresis | src/weapon.cpp:77-82 | after a high-throttle disarm, the weapon stays disarmed with the remembered throttle unchanged while the throttle stays at or above the re-arm threshold |
| Weapon.ScaleToSpan | src/weapon.cpp:122-123 | the truncated product of a [0, 1] throttle and the span is within the span, hitting 0 and the span at the ends |
| Weapon.WeaponTarget | src/weapon.cpp:111-127 | the target is within [min, max]; it is the minimum when disarmed and the extremes at throttle 0 and 1 |
| Weapon.WeaponOutput | src/weapon.cpp:110-141 | for pulse widths below 2^15, a step never moves away from the target and lands on it when it is within one slew step |
| Weapon.OutputStaysInRange | src/weapon.cpp:129-140 | the output stays in [min, max] and moves at most one slew step per update |
| Weapon.DisarmedRunIsSlewToMinimum | src/weapon.cpp:124-138 | while disarmed, the output is the slew limiter running toward the minimum |
| Weapon.DisarmedOutputReachesMinimum | src/weapon.cpp:124-138 | after a disarm the ESC pulse reaches the minimum within ceil((prev - min) / slew) updates |
| Weapon.WeaponControl.Init | src/weapon.cpp:147-162 | both switches released with timers at now, disarmed with throttle 0, stored and commanded pulse at the minimum |
| Weapon.WeaponControl.UpdateSwitchDebounce | src/weapon.cpp:22-38 | both switches go through the debouncer with the same time stamp |
| Weapon.WeaponControl.UpdateArming | src/weapon.cpp:42-106 | the arming fields follow `Weapon.ArmingStep` on the current inputs |
| Weapon.WeaponControl.CalculateOutput | src/weapon.cpp:110-141 | the stored and returned pulse is `Weapon.WeaponOutput` of the previous one |
| Weapon.WeaponControl.Update | src/weapon.cpp:164-173 | debounce, then arming on the fresh switch values, then the output written to `g_state` |
| Servo.ServoTarget | src/servo.cpp:21-35 | extended if and only if the button is pressed, the link is up and the kill switch is off; neutral otherwise |
| Servo.ClampToEndpoints | src/servo.cpp:51-56 | the result lies between the endpoints and equals the input when that already does |
| Servo.ServoOutput | src/servo.cpp:20-59 | the stored pulse is always within the endpoints after a call |
| Servo.OutputIsSlewStep | src/servo.cpp:37-56 | from within the endpoints the clamp never engages, so each step is a plain slew step |
| Servo.FixedTargetRunIsSlew | src/servo.cpp:20-59 | with a fixed target, repeated updates are the slew limiter running toward it |
| Servo.ReturnsToNeutral | src/servo.cpp:29-49 | with the button released, the link lost or the kill switch on, the servo reaches neutral within ceil(distance / slew) updates |
| Servo.ReachesExtended | src/servo.cpp:25-49 | holding the button with a healthy link and no kill extends the servo fully |
| Servo.ServoControl.Init | src/servo.cpp:65-69 | stored and commanded pulse at neutral |
| Servo.ServoControl.CalculateOutput | src/servo.cpp:20-59 | the stored and returned pulse is `Servo.ServoOutput` of the previous one |
| Servo.ServoControl.Update | src/servo.cpp:71-74 | `g_state` gets exactly the stored pulse, which is within the endpoints |
| Diagnostics.StatusOf | src/diagnostics.cpp:90-99 | error before link loss before arming, each status an if-and-only-if |
| Diagnostics.ToggleIfDue | src/diagnostics.cpp:105-118 | the LED toggles and the timer restarts exactly when the half period has elapsed |
| Diagnostics.BlinkStep | src/diagnostics.cpp:34-64 | the blink counter stays below the code in the blinking phase; each falling edge counts, and the code-th enters the pause; the pause holds the LED off and restarts the cycle after the pause time |
| Diagnostics.ErrorBlink | src/diagnostics.cpp:13-27 | a changed error restarts the cycle with the LED off before the phase machine runs |
| Diagnostics.DiagnosticsStep | src/diagnostics.cpp:82-131 | failsafe forces the LED on, safe and armed blink at their rates, and an error blinks its code |
| Diagnostics.ErrorCodeBlinksN | src/diagnostics.cpp:34-55 | from a cycle start with calls spaced by the blink time, the LED shows exactly N pulses and then enters the pause |
| Diagnostics.CycleAdvances | src/diagnostics.cpp:36-54 | each timed call moves the blink cycle one position on |
| Diagnostics.PauseRestartsCycle | src/diagnostics.cpp:56-64 | after the pause the blink cycle starts over |
| Diagnostics.DiagnosticsControl.Init | src/diagnostics.cpp:71-80 | LED off, timer, count and phase zero |
| Diagnostics.DiagnosticsControl.BlinkErrorCode | src/diagnostics.cpp:13-65 | the blinker follows `Diagnostics.ErrorBlink` |
| Diagnostics.DiagnosticsControl.Update | src/diagnostics.cpp:82-131 | the LED state follows `Diagnostics.DiagnosticsStep` on the error, link and arming state |
| Actuators.WithDirection | src/actuators.cpp:21-38 | setting a direction drives bit 2m high and 2m+1 low for forward (the reverse otherwise), and leaves every other motor's bits alone |
| Actuators.DirectionsFollowSigns | src/actuators.cpp:81-92 | after the four direction updates the register depends only on the PWM signs, with one bit per motor set |
| Actuators.Magnitude | src/actuators.cpp:95-98 | the duty is the magnitude of the signed PWM |
| Actuators.UpdatePins | src/actuators.cpp:81-107 | each motor's A bit is set exactly when its PWM is non-negative and its B bit otherwise; duties are the magnitudes; weapon and servo are held at 0 |
| Actuators.ActuatorOutputs.SetMotorDirection | src/actuators.cpp:21-38 | the register image follows `Actuators.WithDirection` and is latched out |
| Actuators.ActuatorOutputs.Init | src/actuators.cpp:44-79 | all directions latched low, safe motor duties, weapon and servo at 0 |
| Actuators.ActuatorOutputs.Update | src/actuators.cpp:81-107 | the hardware state follows `Actuators.UpdatePins` on the PWMs in `g_state` |
| Actuators.ActuatorOutputs.EmergencyStop | src/actuators.cpp:109-132 | safe duties, 0xFF latched with the register image unchanged, and the safe values written to `g_state` |
| Actuators.EmergencyStopBrakesAll | src/actuators.cpp:116-117 | the byte 0xFF drives both direction bits of every motor high |
| ControlLoop.Wrap32 | src/main.cpp:61 | uint32_t addition wraps modulo 2^32 |
| ControlLoop.SignedDiff | src/main.cpp:41 | the signed 32-bit difference is in range and adds back to the later time modulo 2^32 |
| ControlLoop.TickAsWritten | src/main.cpp:40-61 | as written: a tick runs exactly when the counter, read as an unsigned number, has reached the deadline; the deadline moves one period with wrap; and every tick whose `next + period` wraps past 2^32 is flagged as an overrun |
| ControlLoop.TickDecision | src/main.cpp:40-61 | the corrected gate: waits exactly when the wrapped distance from the deadline to now is 2^31 or more, and flags an overrun exactly when that distance exceeds one period |
| ControlLoop.TickMatchesTrueTime | src/main.cpp:40-61 | within 2^31 us of the deadline, the loop waits exactly while the deadline is ahead, flags an overrun exactly when more than a period late, and advances by exactly one period |
| ControlLoop.AgreesAwayFromWrap | src/main.cpp:41-61 | away from the counter wrap the unsigned compares decide exactly as the signed difference does |
| ControlLoop.AsWrittenMisfiresAtWrap | src/main.cpp:41-61 | at the wrap the unsigned compares flag an on-time tick as an overrun and run the next tick early |
| ControlLoop.Scheduler.Setup | src/main.cpp:20-33 | actuators safe, disarmed with no error, LED off, first deadline one period ahead; the blinker's remembered error is untouched |
| ControlLoop.Scheduler.Loop | src/main.cpp:38-94 | an early call changes nothing; a due tick records its start, submits an overrun first-wins if late, advances the deadline one period, kicks the watchdog, updates outputs and LED, and records the duration |
| ControlLoop.Scheduler.RunTick | src/main.cpp:50-93 | the body of an executed tick, in the firmware's order |
| ControlLoop.Scheduler.UpdateOutputs | src/main.cpp:82-86 | `actuators_update` and then `diagnostics_update` |

## Left out

- Serial I/O is not modelled. `Serial.begin` is dropped; the bytes waiting on the port are the `bytes` parameter of `Input.CrsfReceiver.Update`. `Serial.write` is the byte sequence the telemetry methods return.
- Clocks are not modelled. `millis()` and `micros()` are parameters.
- Input.CrsfReceiver.Update: one `now` stands for every `millis()` call of the drain and the timeout check. The firmware reads the clock again at each accepted frame, so a frame's time stamp can differ by the drain time.
- Diagnostics.DiagnosticsControl.Update: the error blinker reads `millis()` itself in the firmware; the model passes it the same `now`.
- Floating point is not modelled; `float` values are exact reals. This affects `normalize_channel`, `apply_deadband`, the weapon level and the throttle-to-microseconds product. Rounding of IEEE single precision is not captured.
- src/mixing.cpp is not part of this model: it is float numerics.
- Hardware pin access is not modelled. `pinMode`, `digitalWrite`, `analogWrite`, `shiftOut` and `shift_register_write` are recorded as state: the latched register byte, the duties, and the LED pin level. Pin timing and the shift-out bit order are not modelled.
- `diagnostics_get_free_ram` is not modelled: it is pointer arithmetic on linker symbols. Free RAM is a parameter of the telemetry sender.
- The battery ADC branch of the telemetry sender is not modelled. The model reports the nominal 7.4 V, as the firmware does when no monitor pin is configured.
- The telemetry compile flag is taken as enabled.
- `safety_watchdog_reset` has no body in the repository. Each call is counted (`Scheduler.watchdogKicks`).
- The PROGMEM placement of the CRC table and `pgm_read_byte` are not modelled; the table is a constant.
- `g_state.input.raw_channels` and `g_state.battery` are not modelled. They appear in src/state.cpp, but the core never reads them; the raw channels live in the parser struct, as in src/input.cpp.
- `loop` in src/main.cpp has the calls to `input_update`, `mixer_update`, `weapon_update` and `servo_update` commented out. `ControlLoop.Scheduler.Loop` likewise does not call them. Those updates are modelled as separate methods.
- Actuators.Magnitude: for a PWM of -32768, `abs` on a 16-bit `int` overflows in C. The model returns 32768.
- Actuators.ActuatorOutputs.SetMotorDirection: requires motor < 4. Every caller passes 0 to 3, and larger indices shift past the register width.
- Debounce.Debounce and ControlLoop.TickDecision are the corrected routines the rest of the model runs. Their as-written forms and the discrepancies are under Findings.
- Weapon.WeaponControl.UpdateSwitchDebounce: runs the corrected `Debounce.Debounce`, which restarts the timer when a change is accepted. `debounce_switch` keeps the old timer, so on the history under Findings the firmware's arm switch falls back to released at t = 11 while the model keeps it pressed.
- Weapon.WeaponControl.Update: debounces through `UpdateSwitchDebounce`, so it differs from `weapon_update` in the same way, and its arming decision then follows the corrected switch values.
- ControlLoop.Scheduler.Loop: gates on `TickDecision`, the signed-difference compare. The firmware's unsigned compares (`TickAsWritten`) differ only near the counter wrap. At deadline = now = 2^32 - 5000 with a 10 ms period, the firmware submits ERR_LOOP_OVERRUN and the model does not. At deadline 5000 and now 2^32 - 4990, the firmware runs a tick while the model waits.
- Telemetry.TelemetrySender.UpdateTelemetry: sends the frame of `SendBatteryTelemetry`, with the corrected length byte 10 where the firmware writes 11.
- Telemetry.TelemetrySender.SendBatteryTelemetry sends the corrected length byte 10 rather than the 11 the firmware writes; see Findings.
- Crsf.NormalizeChannel: is the corrected routine, on the signed difference `raw - 992`. The firmware's `uint16_t` subtraction wraps on its 16-bit-int target, so every channel value below 992 reads +1; see Findings and `Crsf.NormalizeChannelAsWritten`.
- Crsf.RcInputs: its roll, pitch, yaw, throttle and weapon come from the corrected `NormalizeChannel`. For a channel value below 992 the firmware sets the stick to +1 and the weapon to 1, where the model gives a negative stick and a weapon level below one half. The contract states the switch decoding and the ranges of the analog inputs; the exact stick values follow from the functions above it.
- Input.CrsfReceiver.ProcessRcChannelsFrame: sets the inputs to `Crsf.RcInputs`, and so differs from `process_rc_channels_frame` below the centre in the same way.
- Input.CrsfReceiver.SetInputsFromChannels: calls the corrected `Crsf.NormalizeChannel` on the sticks and the slider, with the same difference below the centre. Every member that applies a channels frame (`Crsf.ApplyOutcome`, `Crsf.ReceivesRcChannelsFrame`, the receiver's byte handlers and `Update`) inherits it.
- The configuration constants are parameters constrained by `Types.Config.Valid`, since the configuration header of this snapshot is empty.

## Findings

| source | as written | input that shows it | evidently intended | confidence | as-written member | corrected member |
|---|---|---|---|---|---|---|
| src/utilities.cpp:15-24 | accepting a change keeps the old stability timer, so the next differing sample is judged against a stale time | debounce time 10 ms, samples false at 0, true at 5, true at 10, false at 11: the output becomes true at 10 and false again at 11 on one sample | restart the timer when a change is accepted, so the input must hold its new value for the debounce time, as include/utilities.h:16-18 promises | high, not executed | Debounce.AsWrittenFlipsOnOneSample | Debounce.DebounceFlipNeedsHold |
| src/main.cpp:41-61 | the tick gate and the overrun test compare the wrapping microsecond counter and deadline as plain unsigned numbers | period 10000 us, deadline and now both 2^32 - 5000: an on-time tick is flagged as an overrun; the deadline becomes 5000, and the call at 2^32 - 4990 runs another tick at once and flags it too | compare through the signed 32-bit difference `(int32_t)(now - next)` | high, not executed | ControlLoop.AsWrittenMisfiresAtWrap | ControlLoop.TickMatchesTrueTime |
| src/input.cpp:86-87 | `raw - CRSF_CHANNEL_VALUE_MID` subtracts from a `uint16_t` on a target whose `int` has 16 bits, so the difference is unsigned and wraps below the centre | channel value 172, the stick minimum: the difference is 64716, the quotient about 79, and the clamp returns +1; a stick held fully down reads fully up, and a slider below centre gives full weapon | the signed difference, so that values below 992 map to [-1, 0), as the function's comment promises | high, not executed | Crsf.AsWrittenBelowCentreReadsFull | Crsf.NormalizeChannel |
| src/input.cpp:394 | the battery frame's length byte is 11, but only 10 bytes (type, 8 payload bytes, CRC) follow it | any error code and RAM level: a receiver parsing as src/input.cpp does takes the CRC as payload and waits for one more byte; the 0xC8 of the next frame is a CRC mismatch | length byte 10, as the comment on that line describes | high, not executed | Telemetry.AsWrittenFrameNeedsStrayZero | Telemetry.BatteryFrameAccepted |
