# HLK-LD1125H radar component, modelled in Dafny

This project models `LD1125hComponent`, the ESPHome component for the
HLK-LD1125H millimetre-wave presence radar. The radar talks over a UART.
The component covers three things:

- **Line decoder** (`handle_char_`). It reads the radar's output one byte at
  a time. Lines look like `mov, dis=1.23` or `occ, dis=4.39`. At `\n` it
  publishes motion, movement, occupancy and distance to four sensors.
- **Configuration sequencer** (`setup`, `manage_config_tx`, `send_next_config`).
  `setup` renders eleven `key=value\r\n` commands from the settings. The
  sequencer sends them one per poll, each only after the radar acknowledged
  the previous one with a line starting `rec`. After that, once `millis()`
  exceeds 15000 and the radar has acknowledged the previous write, it sends
  `VER` if `log_version` is set and then `get_all` if `log_get_all` is set,
  each at most once. Both flags are off by default.
- **Motion timeout** (`motion_timeout`). It clears presence once the
  configured time has elapsed since the last published line. The elapsed
  time is computed in `uint32_t` arithmetic, so it survives the wrap of
  `millis()`.

`loop` runs these in order on every poll: the sequencer, then the timeout,
then every byte the UART has buffered.

## How the model is organised

- `ascii.dfy` (module `Ascii`): bytes, `char_to_int` and `is_valid_int_char`.
- `render.dfy` (module `Render`): the `%i` and `%0.2f` conversions used to
  render the commands, each with a parser as its partner and a round-trip
  lemma.
- `radar_state.dfy` (module `RadarState`): the state model.
  - `State` is one record. It holds the settings, the sequencer's
    variables, the decoder's variables and the last-motion timestamp, named
    as in the header.
  - `Event` is what the component does to the outside world: a
    `write_str`, or a `publish_state` on one of its sensors.
  - Also here: the object invariant `Inv`, the initial state, and the
    commands that `setup` renders.
- `decoder.dfy`, `config_tx.dfy`, `presence.dfy`, `poll.dfy`: the operations
  as functions on `State`, and the lemmas about them.
  - A function returns the new state and the events it emitted, in order.
  - `Poll.Run` chains polls. The lemmas about whole runs are stated over
    it.
- `component.dfy` (module `LD1125h`): the component as a `class`.
  - Its fields mirror the header. `motion_type_`, `center_validation_` and
    `config_strings_` are arrays that the methods update in place.
  - Each method is proved to take the object from `old(Abs())` to what the
    matching function returns. `Abs()` is the object's value as a `State`.
    So every lemma about the functions holds of the object.
  - `Loop` drains its input with a `while` loop. Its invariant ties the
    bytes handled so far to `Decoder.FeedAll`.

Other conventions:

- The clock (`millis()`) is a parameter.
- The UART's buffered bytes are a `seq<byte>`.
- Distance is an integer number of hundredths of a metre. `rmax` is too.

### Behaviour of the code worth knowing

The model follows the code in each of these cases.

- **Separator at position 8.** The comment at ld1125h.cpp:174 says the
  middle of a line should be `, dis=`. Yet a mismatch assigns `true` to the
  validity flag (ld1125h.cpp:173-174), so the separator never rejects a
  line. `Decoder.AcceptSeparator` keeps validity unchanged, and
  `Decoder.MotionLineDecoded` accepts any six separator bytes.
- **Bytes after a rejection.** Once a line is rejected, later bytes return
  before `input_position_++` (ld1125h.cpp:144-146), so they are not
  counted. See `Decoder.IgnoredWhileRejected`.
- **Timeout repeats.** The timeout publishes its clear on every poll while
  its condition holds (ld1125h.cpp:46-57), not once per expiry. See
  `Presence.TimeoutPersists` and `Poll.ClearRepeatsUntilLine`.
- **Unknown line types.** The comment at ld1125h.cpp:163 says the type is
  `occ` or `mov`. Any other type rejects the line, so it is not published
  (ld1125h.cpp:162-164), however well formed the rest is. A `rec` line
  raises the ready flag and is rejected too. See
  `Decoder.UnknownTypeNotPublished`.
- **Line length.** The comment at ld1125h.cpp:205 says a line is at most 14
  characters. The code rejects a byte at position 13 or later, so at most
  13 bytes other than `\r` are accepted (14 with the `\r`). See
  `Decoder.OverlongLineRejected`.
- **Short lines.** A line with fewer than three bytes before `\n` is still
  valid at its end. It is published as "no motion" with the previous
  distance (ld1125h.cpp:110-124, 135). See `Decoder.ShortLineAccepted`.

## Model

| member | source | states |
|---|---|---|
| Ascii.CharToInt | components/ld1125h/sensor/ld1125h.cpp:9-11 | every byte gets a value; the value passes `is_valid_int_char` exactly when the byte is an ASCII digit, and then it is that digit's value |
| Ascii.IsValidIntChar | components/ld1125h/sensor/ld1125h.cpp:13-15 | a converted value passes exactly when adding '0' back gives a digit byte; with `Ascii.CharToInt` and `Ascii.DigitClassification` it accepts exactly the bytes '0'..'9' |
| Ascii.DigitClassification | components/ld1125h/sensor/ld1125h.cpp:9-15 | a digit value converted to its byte converts back to itself; the validity test accepts exactly the ten bytes '0'..'9' |
| Render.NatToDecimal | components/ld1125h/sensor/ld1125h.cpp:20-29 | `%i` of a non-negative value: at least one char, all decimal digits, and no leading zero unless the value is 0 |
| Render.IntToDecimal | components/ld1125h/sensor/ld1125h.cpp:20-29 | `%i` of any value: at least one char; only digits for a non-negative value, and a '-' followed by digits for a negative one |
| Render.FixedPoint2 | components/ld1125h/sensor/ld1125h.cpp:19 | `%0.2f` of the range: integer digits, '.', and exactly two fraction digits |
| Render.DecimalRoundTrip | components/ld1125h/sensor/ld1125h.cpp:20-29 | reading back the decimal digits `%i` renders for a natural number gives that number |
| Render.IntRoundTrip | components/ld1125h/sensor/ld1125h.cpp:20-29 | reading back the signed text `%i` renders for any integer setting gives that setting |
| Render.DecimalLength | components/ld1125h/sensor/ld1125h.cpp:20-29 | a number below 10^k renders in at most k digits |
| Render.DecimalLengthAtLeast | components/ld1125h/sensor/ld1125h.cpp:20-29 | a number of at least 10^(k-1) renders in at least k digits |
| Render.FixedPointRoundTrip | components/ld1125h/sensor/ld1125h.cpp:19 | the `%0.2f` text of the range reads back as the range in hundredths: integer digits, '.', two fraction digits |
| RadarState.Init | components/ld1125h/sensor/ld1125h.h:72-102 | the initial state satisfies the invariant, the decoder is at a line start, the sequencer is ready and has sent nothing, both cursors are 0 and the timestamp is 0 |
| RadarState.Setup | components/ld1125h/sensor/ld1125h.cpp:17-30 | `setup` fills the table with the 11 rendered commands and sets `max_config_position_` to 11; the cursor, flags, decoder and settings are unchanged, and the invariant is kept |
| RadarState.ConfigCommands | components/ld1125h/sensor/ld1125h.cpp:19-29 | `setup` renders exactly 11 rows, one per `sprintf` |
| RadarState.ConfigCommandsLayout | components/ld1125h/sensor/ld1125h.cpp:19-29 | row i is key i, '=', value i, `\r\n`, with the keys in the fixed order rmax, mth1..3_mov, mth1..3_occ, ts_on, ts_off, output_mode, test_mode, and value i the i-th setting rendered |
| RadarState.RowsAreNotDiagnostics | components/ld1125h/sensor/ld1125h.cpp:19-29 | no configuration row equals `VER\r\n` or `get_all\r\n`, so row writes and diagnostic writes can be told apart |
| RadarState.ConfigValuesRoundTrip | components/ld1125h/sensor/ld1125h.cpp:19-29 | each rendered row value reads back as the setting it was rendered from: the integers exactly, and the range in hundredths |
| RadarState.ConfigRowsFit | components/ld1125h/sensor/ld1125h.h:73 | under the configuration schema's ranges, every rendered row plus its terminating NUL fits in a 20-char row of `config_strings_` |
| RadarState.LongestRow | components/ld1125h/sensor/ld1125h.h:73 | the bound is tight: `ts_off` at the largest `int` fills all 20 chars |
| Decoder.LineRecord | components/ld1125h/sensor/ld1125h.cpp:113-124 | a published line is four events in the order motion, movement, occupancy, distance; motion is on exactly when movement or occupancy is, and the distance is the decoded one |
| Decoder.Acknowledges | components/ld1125h/sensor/ld1125h.cpp:165-167 | a byte acknowledges exactly when it sits at position 2 and completes the type buffer to `rec` |
| Decoder.AcceptType | components/ld1125h/sensor/ld1125h.cpp:152-169 | positions 0 to 2 store the byte at its position in the type buffer and advance; before position 2 the line stays valid with no type flag; at position 2 movement iff the buffer is `mov`, occupancy iff `occ`, and valid iff one of the two; distance and separator buffer untouched; the decoder invariant is kept |
| Decoder.AcceptSeparator | components/ld1125h/sensor/ld1125h.cpp:171-177 | positions 3 to 8 store the byte at `position-3` of the separator buffer and advance, and change nothing else, validity included |
| Decoder.AcceptDistance | components/ld1125h/sensor/ld1125h.cpp:178-207 | positions 9 and on change only validity, distance and position, and advance by one; the line stays valid iff the byte is a digit at 9, 11 or 12 or '.' at 10 |
| Decoder.Accept | components/ld1125h/sensor/ld1125h.cpp:151-207 | a data byte of an acceptable line takes exactly one position and keeps the decoder invariant |
| Decoder.Reset | components/ld1125h/sensor/ld1125h.cpp:134-138 | after a line the decoder is back at a line start: position 0, valid, both type flags false |
| Decoder.HandleChar | components/ld1125h/sensor/ld1125h.cpp:102-209 | keeps the invariant (position in 0..14, position 14 means rejected, never both movement and occupancy) and changes only the decoder, the ready flag and the timestamp; it publishes exactly at `\n` of an acceptable line once all configs are sent, the record being motion = movement or occupancy, movement, occupancy and distance, and then it stamps `now`; `\r` and bytes after a rejection change nothing; other bytes advance the position by one; the ready flag is raised only by `rec` |
| Decoder.FeedAll | components/ld1125h/sensor/ld1125h.cpp:36-41 | draining bytes keeps the invariant, writes nothing and never lowers the ready flag; it publishes nothing without a `\n`; the timestamp moves to `now` exactly when something was published and is kept otherwise |
| Decoder.FeedAllAppend | components/ld1125h/sensor/ld1125h.cpp:36-41 | draining `x + y` is draining `x` and then `y` from where `x` left off, with the events concatenated |
| Decoder.IgnoredWhileRejected | components/ld1125h/sensor/ld1125h.cpp:144-146 | once a line is rejected, bytes other than `\n` change no state at all, position included |
| Decoder.RejectedLineDiscarded | components/ld1125h/sensor/ld1125h.cpp:109-141 | a rejected line publishes nothing at its `\n`, and only the decoder is reset |
| Decoder.TypeToken | components/ld1125h/sensor/ld1125h.cpp:152-169 | after three bytes from a line start: position 3, movement iff `mov`, occupancy iff `occ`, valid iff one of the two |
| Decoder.SeparatorBytes | components/ld1125h/sensor/ld1125h.cpp:171-177 | separator bytes only fill the buffer and advance the position, whatever their values |
| Decoder.DistanceDigit | components/ld1125h/sensor/ld1125h.cpp:179-190 | a digit at position 9, 11 or 12 sets the distance to 100·d, or adds 10·d or d, in hundredths |
| Decoder.DistanceBytes | components/ld1125h/sensor/ld1125h.cpp:178-201 | `a.bc` at positions 9 to 12 leaves the line valid at position 13 with distance 100a + 10b + c |
| Decoder.MotionLineDecoded | components/ld1125h/sensor/ld1125h.cpp:152-201 | `mov, dis=a.bc` or `occ, dis=a.bc` from a line start is decoded with exactly the matching type flag and distance 100a + 10b + c |
| Decoder.MotionLinePublished | components/ld1125h/sensor/ld1125h.cpp:109-138 | with its `\r\n` such a line publishes motion = true, the type flags and the distance, and stamps `now`, exactly when all configs are sent; the decoder ends at a line start |
| Decoder.RepeatedLineSameRecord | components/ld1125h/sensor/ld1125h.cpp:134-149 | the same well-formed line fed twice publishes the same record twice |
| Decoder.UnknownTypeNotPublished | components/ld1125h/sensor/ld1125h.cpp:162-167 | a line whose type is neither `mov` nor `occ` publishes nothing and keeps the timestamp; it raises the ready flag exactly when it is `rec` |
| Decoder.AcknowledgmentLine | components/ld1125h/sensor/ld1125h.cpp:165-167 | a `rec…` line raises the ready flag, is never published, and changes nothing else in the sequencer |
| Decoder.PositionalCheck | components/ld1125h/sensor/ld1125h.cpp:178-206 | at positions 9 and on a byte keeps the line valid iff it is a digit at 9, 11 or 12 or '.' at 10 |
| Decoder.RejectedByteDiscardsLine | components/ld1125h/sensor/ld1125h.cpp:178-206 | a non-digit at 9, 11 or 12, a non-'.' at 10, or any byte at 13 and on discards the whole line: nothing published, timestamp kept |
| Decoder.PositionCountsBytes | components/ld1125h/sensor/ld1125h.cpp:147-149 | while a line stays valid its position counts exactly its bytes other than `\r` |
| Decoder.OverlongLineRejected | components/ld1125h/sensor/ld1125h.cpp:203-206 | a line of 14 or more bytes other than `\r` is rejected and publishes nothing at its `\n` |
| Decoder.ShortPrefix | components/ld1125h/sensor/ld1125h.cpp:152-154 | fewer than three bytes from a line start only fill the type buffer and count positions |
| Decoder.ShortLineAccepted | components/ld1125h/sensor/ld1125h.cpp:110-124 | a line of fewer than three bytes is still valid at its `\n`: once configured it publishes no motion with the previous distance and stamps `now` |
| ConfigTx.SendNextConfig | components/ld1125h/sensor/ld1125h.cpp:86-96 | writes the row under the cursor exactly when ready and rows remain, then advances the cursor by one and waits; otherwise the cursor stays and "all sent" becomes true iff ready |
| ConfigTx.LoggerReady | components/ld1125h/sensor/ld1125h.cpp:63 | the logger is taken to be up exactly when the 32-bit clock reads 15001 ms or more (so again not in the first 15 s after `millis()` wraps); what it gates is stated by `ConfigTx.ManageConfigTx` and `Poll.DiagnosticsWaitForLogger` |
| ConfigTx.ManageConfigTx | components/ld1125h/sensor/ld1125h.cpp:62-79 | at most one write per call and only when ready, leaving ready false; the cursor never moves back, never passes the table end and moves only with its row's write; "all sent" is never cleared and is set only by a call that writes nothing with the cursor at the end; `VER` is written iff ready, all sent, its flag set and past 15 s; `get_all` the same but only when `VER` is no longer pending; each write clears its flag |
| ConfigTx.ManageConfigTxWrites | components/ld1125h/sensor/ld1125h.cpp:62-96 | one call writes exactly the rows its cursor passed over, and each diagnostic at most once, consuming its flag |
| ConfigTx.FirstPollWritesFirstRow | components/ld1125h/sensor/ld1125h.h:76 | since the component starts ready, the first call after `setup` writes row 0 at any time |
| ConfigTx.WaitsForAcknowledgment | components/ld1125h/sensor/ld1125h.cpp:94-95 | after a write the next call writes nothing unless an acknowledgment came in between |
| Presence.Elapsed | components/ld1125h/sensor/ld1125h.cpp:47 | `millis() - last_motion_time_` in `uint32_t`: the one 32-bit value that added to the timestamp gives `now`, and the plain difference when the clock has not wrapped |
| Presence.AsUnsigned | components/ld1125h/sensor/ld1125h.h:55 | the `int` timeout as the comparison converts it: equal modulo 2^32, unchanged if non-negative |
| Presence.TimedOut | components/ld1125h/sensor/ld1125h.cpp:47 | the timeout condition holds exactly when the timestamp is non-zero and (now - timestamp) mod 2^32 ≥ timeout mod 2^32 |
| Presence.MotionTimeout | components/ld1125h/sensor/ld1125h.cpp:45-58 | publishes nothing or the cleared presence, and the latter iff the timestamp is non-zero and (now - timestamp) mod 2^32 ≥ timeout mod 2^32 |
| Presence.ElapsedIsModular | components/ld1125h/sensor/ld1125h.cpp:47 | the elapsed time is the difference modulo 2^32 |
| Presence.ElapsedUnique | components/ld1125h/sensor/ld1125h.cpp:47 | no other 32-bit value brings the timestamp to `now` |
| Presence.TimeoutPersists | components/ld1125h/sensor/ld1125h.cpp:46-57 | once timed out it stays timed out d ms later, with the elapsed time grown by d, until the clock comes round to the timestamp |
| Presence.ElapsedAcrossWrap | components/ld1125h/sensor/ld1125h.cpp:47 | 256 ms before the wrap to 256 ms after it counts as 512 ms, and a 500 ms timeout fires |
| Presence.NothingBeforeFirstLine | components/ld1125h/sensor/ld1125h.cpp:47 | with a zero timestamp nothing is cleared |
| Presence.NegativeTimeout | components/ld1125h/sensor/ld1125h.h:55 | a negative timeout only fires after at least 2^31 ms |
| Presence.TimeoutExample | components/ld1125h/sensor/ld1125h.cpp:45-58 | line at 1000 ms, timeout 500 ms: nothing at 1400, a clear at 1500 and again at 1600 |
| Poll.Loop | components/ld1125h/sensor/ld1125h.cpp:32-42 | one poll keeps the invariant, the settings and the table; cursor, "all sent" and the log flags move one way only; its writes are the sequencer's and come first |
| Poll.Run | components/ld1125h/sensor/ld1125h.cpp:32-42 | any sequence of polls keeps the invariant, the settings and the table, and never moves the cursor back |
| Poll.LoopWrites | components/ld1125h/sensor/ld1125h.cpp:32-42 | a poll writes exactly the rows its cursor passed over, and each diagnostic at most once while its flag was set |
| Poll.RunRowWrites | components/ld1125h/sensor/ld1125h.cpp:62-96 | over any run the rows go out in table order, each once: exactly the rows between the start and end cursors |
| Poll.RunDiagnosticWrites | components/ld1125h/sensor/ld1125h.cpp:63-77 | over any run each diagnostic is written once if its flag was set and is gone at the end, and never otherwise |
| Poll.DiagnosticsAtMostOnce | components/ld1125h/sensor/ld1125h.cpp:63-77 | `VER` and `get_all` are each written at most once in any run |
| Poll.DiagnosticsWaitForLogger | components/ld1125h/sensor/ld1125h.cpp:63-77 | while every poll's clock reads at most 15000 ms, neither `VER` nor `get_all` is written and both flags stay as they were |
| Poll.FirstPollAfterSetup | components/ld1125h/sensor/ld1125h.cpp:17-33 | the first event of the first poll after `setup` is the write of `rmax=…` |
| Poll.ClearRepeatsUntilLine | components/ld1125h/sensor/ld1125h.cpp:45-57 | a poll whose drain publishes nothing (for instance, one without a `\n`) keeps the timestamp, so once timed out a later poll clears presence again |
| Poll.AcknowledgmentUnblocks | components/ld1125h/sensor/ld1125h.cpp:165-167 | a poll that decodes a `rec…` line leaves the sequencer ready, and the next poll first writes the row under the cursor if rows remain |
| LD1125h.LD1125hComponent.constructor | components/ld1125h/sensor/ld1125h.h:72-102 | a new component is valid and equals the initial state |
| LD1125h.LD1125hComponent.SetMotionTimeout | components/ld1125h/sensor/ld1125h.h:22 | assigns the timeout and changes nothing else |
| LD1125h.LD1125hComponent.SetRmax | components/ld1125h/sensor/ld1125h.h:29 | assigns the range and changes nothing else |
| LD1125h.LD1125hComponent.SetMth1Mov | components/ld1125h/sensor/ld1125h.h:30 | assigns its threshold and changes nothing else |
| LD1125h.LD1125hComponent.SetMth2Mov | components/ld1125h/sensor/ld1125h.h:31 | assigns its threshold and changes nothing else |
| LD1125h.LD1125hComponent.SetMth3Mov | components/ld1125h/sensor/ld1125h.h:32 | assigns its threshold and changes nothing else |
| LD1125h.LD1125hComponent.SetMth1Occ | components/ld1125h/sensor/ld1125h.h:33 | assigns its threshold and changes nothing else |
| LD1125h.LD1125hComponent.SetMth2Occ | components/ld1125h/sensor/ld1125h.h:34 | assigns its threshold and changes nothing else |
| LD1125h.LD1125hComponent.SetMth3Occ | components/ld1125h/sensor/ld1125h.h:35 | assigns its threshold and changes nothing else |
| LD1125h.LD1125hComponent.SetTsOn | components/ld1125h/sensor/ld1125h.h:36 | assigns `ts_on` and changes nothing else |
| LD1125h.LD1125hComponent.SetTsOff | components/ld1125h/sensor/ld1125h.h:37 | assigns `ts_off` and changes nothing else |
| LD1125h.LD1125hComponent.SetOutputMode | components/ld1125h/sensor/ld1125h.h:38 | assigns the output mode and changes nothing else |
| LD1125h.LD1125hComponent.SetTestMode | components/ld1125h/sensor/ld1125h.h:39 | assigns the test mode and changes nothing else |
| LD1125h.LD1125hComponent.SetLogVersion | components/ld1125h/sensor/ld1125h.h:40 | assigns the `VER` flag and changes nothing else |
| LD1125h.LD1125hComponent.SetLogGetAll | components/ld1125h/sensor/ld1125h.h:41 | assigns the `get_all` flag and changes nothing else |
| LD1125h.LD1125hComponent.Setup | components/ld1125h/sensor/ld1125h.cpp:17-30 | the object goes to `RadarState.Setup` of its old value and stays valid |
| LD1125h.LD1125hComponent.RenderConfigRows | components/ld1125h/sensor/ld1125h.cpp:19-29 | the table holds exactly the 11 commands rendered from the settings, and `max_config_position_` is 11 |
| LD1125h.LD1125hComponent.SendNextConfig | components/ld1125h/sensor/ld1125h.cpp:86-96 | changes the sequencer as `ConfigTx.SendNextConfig` does, emits its writes, and changes nothing else |
| LD1125h.LD1125hComponent.ManageConfigTx | components/ld1125h/sensor/ld1125h.cpp:62-79 | changes the sequencer as `ConfigTx.ManageConfigTx` does, emits its writes, and changes nothing else |
| LD1125h.LD1125hComponent.MotionTimeout | components/ld1125h/sensor/ld1125h.cpp:45-58 | changes nothing, and publishes the cleared presence exactly when `Presence.MotionTimeout` does |
| LD1125h.LD1125hComponent.HandleChar | components/ld1125h/sensor/ld1125h.cpp:102-209 | takes the object to `Decoder.HandleChar` of its old value and emits the same events |
| LD1125h.LD1125hComponent.HandleLineEnd | components/ld1125h/sensor/ld1125h.cpp:108-141 | the `\n` branch: the same new state and events as `Decoder.HandleChar` on `\n` |
| LD1125h.LD1125hComponent.HandleDataByte | components/ld1125h/sensor/ld1125h.cpp:151-207 | the decoder goes to `Decoder.Accept` of its old value; the ready flag is raised iff the byte completes `rec` |
| LD1125h.LD1125hComponent.HandleTypeByte | components/ld1125h/sensor/ld1125h.cpp:152-169 | writes `motion_type_` in place and goes to `Decoder.AcceptType`; raises the ready flag iff the byte completes `rec` |
| LD1125h.LD1125hComponent.ClassifyMotionType | components/ld1125h/sensor/ld1125h.cpp:156-167 | movement iff the buffer is `mov`, occupancy iff `occ`, valid iff one of them, and the ready flag raised by `rec` |
| LD1125h.LD1125hComponent.HandleSeparatorByte | components/ld1125h/sensor/ld1125h.cpp:171-177 | writes `center_validation_` in place and goes to `Decoder.AcceptSeparator` |
| LD1125h.LD1125hComponent.HandleDistanceByte | components/ld1125h/sensor/ld1125h.cpp:178-207 | goes to `Decoder.AcceptDistance` |
| LD1125h.LD1125hComponent.Loop | components/ld1125h/sensor/ld1125h.cpp:32-42 | one poll with a `while` loop over the buffered bytes takes the object to `Poll.Loop` of its old value, with the same events |

## Left out

- UART I/O. `available` and `read_byte` become the byte sequence a poll is
  given, and that poll drains all of it. `write_str` becomes a `Write` event.
  Bytes that arrive while a poll is draining are not modelled.
- `millis()` is a parameter. One poll uses one clock value for the
  sequencer, the timeout and every byte. The source reads the clock
  separately for each.
- The sensor objects: `publish_state` becomes an event. The `nullptr` checks
  are left out, and all four sensors are taken to be present. The
  sub-sensor setters (ld1125h.h:44-47) are not modelled.
- Logging: `log_sensor_output_`, `rx_message_`, `set_log_sensor_output`,
  the `ESP_LOG*` calls and `dump_config` only log. The setup priority
  only orders start-up. None of them is modelled.
- Floating point: `distance_` is a `float`, built with `val / 10.0f` and
  `val / 100.0f`. The model keeps it as exact integer hundredths. `rmax_`
  is likewise kept as hundredths, so the rounding of `%0.2f` on a `float`
  is not modelled.
- LD1125h.LD1125hComponent.SetRmax: takes a natural number of hundredths, not
  a `float`. Negative ranges are excluded, as the configuration schema
  excludes them.
- LD1125h.LD1125hComponent.Setup: requires `max_config_position_` to be 0 and
  the configuration not yet sent, which means `setup` runs once, before any
  poll. A second `setup` would write past the 11-row table, and that
  overflow is not modelled.
- The table rows are strings of any length. The 20-char limit of
  `config_strings_` is stated as a property instead (`RadarState.ConfigRowsFit`
  under the schema ranges). A setting outside those ranges, such as a
  negative `ts_off` of 10 digits, would overflow its row; that overflow is
  not modelled.
- The code-generation glue in `__init__.py` is not part of this model. Its
  value ranges appear only as `RadarState.SchemaRanges`.
