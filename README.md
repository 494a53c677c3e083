# MOAT firmware core in Dafny

This project models the core of the MOAT CVT firmware (a Teensy program driving a
continuously-variable-transmission actuator) and proves properties of the model.
It has three parts.

- **The `Actuator` class** of `src/subsystem_classes/actuator_class.cpp`. This is a client
  of the ODrive motor controller's ASCII line protocol. The model covers:
  - the command lines it writes;
  - the line reader with its timeout;
  - the `run_state` idle poll;
  - `init`'s wait for the serial link;
  - the outbound homing seek;
  - the control function;
  - the eleven-register error dump.
- **The firmware globals of `src/main.cpp`.** The model covers:
  - the gear-tooth interrupt counters and the estop latch;
  - the search in `setup` for a free `log_<n>.txt` name;
  - the operating-mode `loop`, which projects `o_control` onto a 16-column record, skips status-3 records and saves the log every 1001 passes.
- **The `Constant` struct of `include/Constant.h`.** The model covers its three lookup tables, the constants read from them, the gearbox rpms derived from the engine constants and `ecvt_max_ratio`, and the encoder counts derived from the `constexpr` linear-actuator constants (include/Constant.h:104-113).

Modules:

- `Text` (`text.dfy`): decimal rendering of integers, as `Print`/`String` do it, with its inverse, and `'\n'`-separated lines.
- `OdriveProtocol` (`odrive_protocol.dfy`): the command lines, `ReadLine` (what one `read_string` returns and consumes), successive replies, and the specifications of the idle poll and of the error report.
- `Homing` (`homing.dfy`): the 32-bit `millis()` arithmetic, and the two sensor-driven waits as functions of input traces.
- `ActuatorClass` (`actuator.dfy`): a `SerialLink` class and the `Actuator` class. Its methods update the fields in place and are proved against the functions above.
- `MoatMain` (`moat_main.dfy`): the `Firmware` class holding `main.cpp`'s globals, with the record, save-cadence and log-name specifications.
- `Constants` (`constants.dfy`): `Constant.h`.

The serial link has two parts:

- a `transcript` of what crossed it: `Sent(text)` for each command written, and `Received(line)` for each line `read_string` returned;
- a `pending` stream of receive events: `Char(c)`, or `Timeout` when the 1000 ms deadline, counted from the start of the read, passes before the next character arrives.

A stream that has run dry behaves as a timeout. The hall input, the encoder, the clock and the port-ready flag are input traces. `String::toInt` is a function parameter `toInt`.

## Model

| member | source | states |
|---|---|---|
| ActuatorClass.SerialLink.Next | src/subsystem_classes/actuator_class.cpp:197-203 | The next character is taken off the stream; a port with nothing to deliver times out and stays empty. |
| ActuatorClass.Actuator.constructor | src/subsystem_classes/actuator_class.cpp:11-32 | The pins and constants are saved as given. `hasRun` is false and every other field starts at zero, since the object is a global. |
| ActuatorClass.Actuator.ReadString | src/subsystem_classes/actuator_class.cpp:193-209 | Returns exactly `ReadLine(pending).line`, leaves the stream at `ReadLine(pending).rest`, and records the line as received. |
| ActuatorClass.Actuator.ReadInt | src/subsystem_classes/actuator_class.cpp:215-217 | Returns `toInt` of the line `read_string` returns, with the same effect on the link. |
| ActuatorClass.Actuator.RunState | src/subsystem_classes/actuator_class.cpp:134-145 | Writes the `requested_state` line first. Without waiting, nothing else is exchanged and the result is `timeoutCtr > 0`. With waiting, it makes exactly `WaitForIdle(pending, timeoutCtr).polls` current-state queries, each followed by one reply read, and returns `WaitForIdle(..).reached`. |
| ActuatorClass.Actuator.PollCurrentState | src/subsystem_classes/actuator_class.cpp:140-141 | One pass of the poll: writes the current-state query, then reads one reply. Returns `toInt` of the next reply and moves the stream past it. |
| ActuatorClass.Actuator.SetVelocity | src/subsystem_classes/actuator_class.cpp:147-149 | Writes exactly one line, `v <motor> <velocity> 0.0f`. |
| ActuatorClass.Actuator.Init | src/subsystem_classes/actuator_class.cpp:34-63 | Resets `status` and `control_function_count` and sets `start`. If the link is not ready by the sample where the wait ends, it sets status 0051 (41), returns -41 and sends nothing. Otherwise it requests idle with one poll and reaches the end of the function without a return value. |
| ActuatorClass.Actuator.HomingSequence | src/subsystem_classes/actuator_class.cpp:65-89 | Sends `requested_state 8`, then velocity 0.5. On timeout (strict `>`) it sets status 0041 (33), returns 33 and sends nothing more. On success it sends velocity 0 and then `requested_state 1`, returns 0 and leaves `status` as it was. `encoderOutbound` ends as the encoder read in the last pass where the hall read 1. `encoderInbound` and the member `start` are never written. |
| ActuatorClass.Actuator.ControlFunction | src/subsystem_classes/actuator_class.cpp:91-94 | Adds exactly 1 to `control_function_count`. It requests idle with one current-state poll and one reply read, and changes no other field. |
| ActuatorClass.Actuator.AppendErrorRegister | src/subsystem_classes/actuator_class.cpp:169-171 | One register step of the dump. It appends that register's report line, and one query-then-read exchange at the register's position in the query order. |
| ActuatorClass.Actuator.AppendAxisErrors | src/subsystem_classes/actuator_class.cpp:165-188 | One axis pass. It appends the heading and the five register lines, and five exchanges in query order. |
| ActuatorClass.Actuator.DumpErrors | src/subsystem_classes/actuator_class.cpp:159-190 | Exchanges exactly the eleven `ErrorQueries()` in order, each followed by one reply read. Returns `ErrorReport` of those eleven replies. |
| OdriveProtocol.RequestStateIsOneLine | src/subsystem_classes/actuator_class.cpp:136 | The state request ends in `'\n'` and holds no other `'\n'`. |
| OdriveProtocol.StateQueryIsOneLine | src/subsystem_classes/actuator_class.cpp:140 | The current-state query is exactly one protocol line. |
| OdriveProtocol.VelocityIsOneLine | src/subsystem_classes/actuator_class.cpp:147-149 | The velocity command is one protocol line whenever the printed velocity holds no `'\n'`. |
| OdriveProtocol.ErrorQueriesAreOneLine | src/subsystem_classes/actuator_class.cpp:163-186 | Every error query is exactly one protocol line. |
| OdriveProtocol.ErrorQueryIsOneLine | src/subsystem_classes/actuator_class.cpp:169-186 | The query for register `k` of any axis is exactly one protocol line. |
| OdriveProtocol.ErrorLabelsMatchQueries | src/subsystem_classes/actuator_class.cpp:169-186 | The label printed before each register names the register queried: `.error` under `axis`, and `.<label>.error` for the other four. |
| OdriveProtocol.RequestStateLineRoundTrip | src/subsystem_classes/actuator_class.cpp:136 | The state request decodes back to exactly the axis and state it was built from. |
| OdriveProtocol.ReadLine | src/subsystem_classes/actuator_class.cpp:193-209 | The returned line never holds `'\n'`, and a read from a non-empty stream consumes at least one event. |
| OdriveProtocol.ReadLineThroughChars | src/subsystem_classes/actuator_class.cpp:197-207 | Characters other than `'\n'` are all collected, and reading continues behind them. |
| OdriveProtocol.ReadLineFramed | src/subsystem_classes/actuator_class.cpp:203-205 | A line followed by `'\n'` is read back whole. The `'\n'` is consumed and dropped, and nothing behind it is touched. |
| OdriveProtocol.ReadLineTimedOut | src/subsystem_classes/actuator_class.cpp:198-201 | On a timeout mid-line, the characters collected so far are returned, not discarded. |
| OdriveProtocol.ReadLineConsumes | src/subsystem_classes/actuator_class.cpp:193-209 | A read consumes exactly the returned characters and then the `'\n'` or timeout that ended them, or the whole stream when it runs dry. |
| OdriveProtocol.PollsFrom | src/subsystem_classes/actuator_class.cpp:138-143 | Polling from poll `j` stops at or before the budget `n`. No reply before the stopping poll reads idle, and stopping before the budget means the last reply read idle. |
| OdriveProtocol.PollingStep | src/subsystem_classes/actuator_class.cpp:138-143 | One pass of the do-while: an idle reply stops the loop with a positive counter; a non-idle reply either exhausts the counter or continues the loop. |
| OdriveProtocol.WaitForIdleBounds | src/subsystem_classes/actuator_class.cpp:134-145 | With `timeout_ctr = n >= 1` there are between 1 and `n` polls. With `n <= 0` there is exactly one poll, and the call reports failure. |
| OdriveProtocol.WaitForIdleStopsAtFirstIdle | src/subsystem_classes/actuator_class.cpp:138-143 | Polling stops at the first idle reply. A failure with a positive budget has used all `n` polls. |
| OdriveProtocol.WaitForIdleReachedIff | src/subsystem_classes/actuator_class.cpp:134-145 | `run_state` returns true iff `n >= 1` and one of the first `n` replies reads as idle (1). |
| OdriveProtocol.ErrorReportLines | src/subsystem_classes/actuator_class.cpp:159-190 | With replies free of `'\n'`, the report splits into exactly its 13 lines: system, then a heading and five labelled registers per axis. |
| OdriveProtocol.ErrorReportPairsQueriesWithReplies | src/subsystem_classes/actuator_class.cpp:163-187 | Query `1+5a+k` reads register `k` of axis `a`. Its reply is printed on report line `2+6a+k` under that register's label, and the axis heading is line `1+6a`. |
| OdriveProtocol.ErrorReportRegister | src/subsystem_classes/actuator_class.cpp:165-187 | The same pairing, stated against the reply stream. |
| Text.IntToStringRoundTrip | src/subsystem_classes/actuator_class.cpp:136 | The decimal text an `int` is streamed as reads back as that same integer. |
| Text.IntToStringInjective | src/subsystem_classes/actuator_class.cpp:136 | Different integers are streamed as different texts. |
| Text.SplitLinesAppend | src/subsystem_classes/actuator_class.cpp:166-187 | Splitting text joined by a `'\n'` gives the lines of the left part followed by the lines of the right part. |
| Text.SplitJoinLines | src/subsystem_classes/actuator_class.cpp:159-190 | Lines free of `'\n'`, joined with `'\n'`, split back into exactly those lines. |
| Homing.Elapsed | src/subsystem_classes/actuator_class.cpp:41 | `millis() - start` in 32-bit unsigned arithmetic. It is the plain difference when the clock has not wrapped, and the difference plus 2^32 when it has. |
| Homing.SeekEnd | src/subsystem_classes/actuator_class.cpp:71-78 | The outbound seek ends at the first pass where the hall does not read 1, or where the clock is more than the timeout past `start`. |
| Homing.SeekSucceedsIff | src/subsystem_classes/actuator_class.cpp:71-78 | Homing succeeds iff some pass reads the hall as not 1 while every earlier pass was within the time limit. |
| Homing.LinkWaitEnd | src/subsystem_classes/actuator_class.cpp:40-45 | The link wait ends at the first pass where the port is ready or the timeout has passed. |
| MoatMain.SlotsDistinctAndInBounds | src/main.cpp:54-72 | The 19 slot indices are 0 to 18 in order, so they are distinct and below 30. Every `o_control` read in `loop` is in bounds (the array is declared at src/main.cpp:213). |
| MoatMain.Record | src/main.cpp:226-243 | A record has 16 fields. Field `c` is read from the slot the header's column `c` names (src/main.cpp:205), and the last field is the estop pin level. |
| MoatMain.LoggedRecordsFilter | src/main.cpp:223 | Every logged record has 16 fields and a status other than 3. A run logs one record per pass iff no pass has status 3. |
| MoatMain.SaveCadence | src/main.cpp:214-252 | After pass `t >= 1`, `save_count` is `((t-1) mod 1001) + 1` and the log has been saved `(t-1) div 1001` times. |
| MoatMain.SavesAt | src/main.cpp:247-252 | Pass `t` saves the log iff `t-1` is a positive multiple of 1001. The first save comes on pass 1002, and each later one 1001 passes after the previous. |
| MoatMain.SaveStepBounds | src/main.cpp:247-252 | `save_count` stays within [1, 1001]. |
| MoatMain.LogFileNameInjective | src/main.cpp:143-147 | Different log numbers give different file names. |
| MoatMain.FreeLogNumberFrom | src/main.cpp:142-146 | The search from `n` finds a number whose file does not exist, with every smaller number's file existing. |
| MoatMain.FreeLogNumberUnique | src/main.cpp:142-146 | That least free number is unique. |
| MoatMain.Firmware.constructor | src/main.cpp:87-107 | The globals start as declared: counters 0 and estop clear, with `log.txt` (src/main.cpp:51) and `save_count` 0 (src/main.cpp:214). |
| MoatMain.Firmware.CountEngineTooth | src/main.cpp:93-95 | The engine counter grows by one, modulo 2^32, and nothing else changes. |
| MoatMain.Firmware.CountGearboxTooth | src/main.cpp:96-98 | The gearbox counter grows by one, modulo 2^32, and nothing else changes. |
| MoatMain.Firmware.OdriveEstop | src/main.cpp:110-115 | Sets the estop flag. No method of the firmware clears it. |
| MoatMain.Firmware.Setup | src/main.cpp:142-147 | The log is named `log_<n>.txt` for the least `n` whose file does not exist, so the chosen name is not an existing file. |
| MoatMain.Firmware.Loop | src/main.cpp:218-253 | Runs the control function once: one idle request, one current-state poll, and one reply read, which moves the actuator's stream past that reply. It logs `Record(o_control, estop)` iff status is not 3, and advances the save bookkeeping by one `SaveStep`. The actuator's status, encoder fields, `start` and `hasRun` are unchanged, and so are the tooth counters, the estop flag and the log name. |
| Constants.LookupsHitTheirTables | include/Constant.h:19-98 | Every key the struct looks up is in its table, so no `operator[]` inserts a default 0. Each named constant equals its table entry (for example `estop_pin` is `pins["estop"]` and `homing_timeout` is `int_constants["homing_timeout"]`). |
| Constants.PinsDistinctExceptEstop | include/Constant.h:19-30 | Inbound and outbound hall pins differ, and so do encoder A and B and the two gear-tooth pins. The estop shares pin 36 with the gearbox gear-tooth sensor. |
| Constants.EngineThresholdsOrdered | include/Constant.h:54-62 | 1000 < 1750 < 2100 < 2600 < 2700 < 3400, and the desired 2250 lies between engage and launch. |
| Constants.Truncate | include/Constant.h:96-97 | A float-to-`int` conversion drops the fraction toward zero. |
| Constants.GearboxRpms | include/Constant.h:94-97 | `gearbox_engage_rpm` is 494 (2100 / 4.25 truncated) and `gearbox_power_rpm` is exactly 800. |
| Constants.EncoderCount | include/Constant.h:103-113 | Inches become a truncated count at 4 x 2048 counts per 0.125 in. |
| Constants.EncoderCounts | include/Constant.h:103-113 | The counts are 196608, 65536 and 13107 (0.2 taken at its binary32 value). Engage distance plus buffer is less than the shift length, which fits `int32_t`. |
| Constants.ActuatorValues | include/Constant.h:41-84 | `homing_timeout` is 50,000,000 and fits `int`; the rolling window is 60 frames and the cycle period 10 ms. |

## Left out

- Concurrency: each interrupt handler is modelled as one sequential step. The interleaving of the `volatile` counters and the estop flag with `loop` is not modelled.
- Hardware and I/O that have no effect on the modelled state are not modelled. This covers:
  - `Serial.println`, `pinMode`, `attachInterrupt` and `digitalWrite`;
  - the SD card and the `Log` library, with `save_log` counted rather than performed;
  - the `while (!Serial)` wait in `setup`.
- `SD.exists` is modelled as membership in a finite set of existing names.
- Real time:
  - `millis()` readings are input samples, and `delay` is dropped;
  - the 1000 ms deadline of `read_string`, counted once from the start of the read, is the `Timeout` event: it stands for the deadline passing before the next character arrives, so the timing of the characters themselves is not modelled;
  - an empty stream also behaves as a timeout.
- Init, HomingSequence: the loop bodies read their inputs from finite sample traces. They require that some sample ends the loop, which is the assumption that time advances and the timeout eventually fires.
- Floating point:
  - `set_velocity` takes the text the float prints as: `"0.5000"` and `"0.0000"` from 4-decimal printing.
  - `run_state` takes the already converted `timeout_ctr` (`(int)(timeout*10.0f)`; every caller passes 0).
  - `get_vel`, `read_float`, `communication_speed` (a timing benchmark with uninitialised loop counters), the PID gains, `gearbox_overdrive_rpm` (0.85 is not exact in binary32) and `cycle_period_minutes` are left out.
  - Constants.GearboxRpms divides exactly in the reals and then truncates. The binary32 quotient of 2100 / 4.25 lies within one ulp of 494.117..., so truncation gives the same 494.
- RunState: `timeout_ctr` is an unbounded integer, so the 32-bit overflow of `--timeout_ctr` is not modelled. The first pass of the do-while decrements whenever the reply is not 1, whatever the counter holds, so in the source a counter of `INT_MIN` would overflow (undefined behaviour in C++). Every caller passes a timeout of 0 (src/subsystem_classes/actuator_class.cpp:47, 66, 87 and 93), so the counter starts at 0 and one decrement takes it to -1 at most.
- ControlFunction: `control_function_count` is an unbounded integer. Its declaration is in `Actuator.h`, which is not part of this model; assuming it is an `int`, it would overflow after 2^31 - 1 calls (undefined behaviour in C++), and that is not modelled.
- ReadInt: `String::toInt` is not part of this model, so it is an uninterpreted function; the poll only compares its result with 1.
- Loop:
  - `main.cpp` makes three calls that match no definition in `actuator_class.cpp`:
    - it constructs the actuator with other arguments (src/main.cpp:90);
    - it calls `control_function(o_control)` (src/main.cpp:221), but the defined `control_function` takes no array;
    - the startup homing in `setup` calls `homing_sequence(o_homing)` (src/main.cpp:190), but the defined `homing_sequence` takes no array. This code is live, but `HOME_ON_STARTUP` is 0 (src/main.cpp:33, 187-201), so it never runs and is not modelled.
  - The model runs the `control_function` that is defined, and takes the contents of `o_control` as an input.
  - The estop column is the pin level passed in.
- Diagnostic mode (`MODE 1`, the mode the file selects) calls `actuator.diagnostic`, which is defined in no file of this model.
- include/Oled.h is not part of this model (display UI).
- The commented-out parts of `init`, `setup` and `homing_sequence` are not modelled: the homing call and the timer interrupt in `init` (src/subsystem_classes/actuator_class.cpp:49-62), the inbound seek (src/subsystem_classes/actuator_class.cpp:80-84), and the `actuator.init` call in `setup` with its logging (src/main.cpp:164-175).
- The `HALL_*_PIN`, `ENC_*_PIN` and `GEARTOOTH_*_PIN` macros of `main.cpp` are unused. They disagree with `Constant.h` on every pin, and the model follows `Constant.h`:
  - `ENC_A_PIN`/`ENC_B_PIN` are 2/3 there and 3/4 in `Constant.h`;
  - `HALL_INBOUND_PIN`/`HALL_OUTBOUND_PIN` are 23/22 there and 22/23 in `Constant.h`;
  - `GEARTOOTH_ENGINE_PIN` is 41 there and 37 in `Constant.h`;
  - `GEARTOOTH_GEARBOX_PIN` is 40 there and 36 in `Constant.h`.
- Three behaviours of the code, each modelled as written:
  - A line read that hits the deadline returns the characters collected so far rather than discarding them (OdriveProtocol.ReadLineTimedOut).
  - A homing timeout returns 0041 without commanding zero velocity or idle, so the last command sent is velocity 0.5 (ActuatorClass.Actuator.HomingSequence).
  - No command is gated on the estop flag, and the estop interrupt is not attached.
- `homing_timeout` is written `50e6` in an `int` table entry; the model takes its exact value 50,000,000.
