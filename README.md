# Battery discharge tester — a Dafny model

This project models the Arduino sketch `arduino-code.c` of a two-channel
battery discharge tester. Lines arrive on the serial port. A `START:<list>[:<seconds>]`
line runs a timed test on the listed channels. A `FULLTEST:<list>` line
discharges them until each reads 3.0 V or less. While a test runs, the
sketch switches each channel's load relay and measures the battery voltage
and the two ends of a 0.8 Ω shunt through the 10-bit ADC. It reports one
`BATT:<n>|SEC:<s>|...|mAh:<c>` line per measurement.

The model keeps the sketch's imperative shape. Its globals become the
fields of the class `Tester.Bench`:

- `activeBatteries` becomes the array `active`;
- `battData` becomes the array `data`;
- the relay pin levels become the array `relay`;
- `testDuration` stays `testDuration`.

Each routine becomes a method that changes those fields. Each loop carries
the invariants that prove it. The hardware enters only as parameters:

- The ADC is a fixed function `adc(pin, n)`. It gives the raw count (0..1023) of the `n`-th `analogRead`, and `clock` counts the reads.
- The serial output and the relay writes form one event sequence, `trace`.
- A ghost log, `readings`, keeps every filtered reading a channel obtained, with `at`, the read number of its first `analogRead`. The class invariant `Valid` ties each logged reading to the ADC: it is the filtered value of the counts the ADC gives from read number `at` on (`Tester.Sampled`). `Valid` also keeps each channel's log spaced: a measurement takes 33 reads (three pins, eleven reads each), each reading began after the previous one's 33 reads and all of them ended by `clock`.
- Every method states how far `clock` moves: 33 reads for each measurement it makes, none for an ignored line. The timed test pins the read number of every reading it takes (`Tester.Paced`): the k-th reading of the test on active channel i begins 33·(A·k + R) reads after the test began (the model counts A·k by passes, `Tester.Passes`, and `Tester.PassesProduct` shows it is A·k), where A is the number of active channels and R the number of active channels before i. The full-discharge test pins its no-load readings in the same way and each tick reading to 33 reads per record sent before it (`Tester.Stamped`). So no two readings of one channel claim the same `analogRead` (`Tester.SpacedApart`), and within one test no two readings of any channels do (`Tester.PacedApart`, `Tester.StampedApart`). Readings of different channels taken in different tests are not compared.

Modules, in dependency order:

- `Config`: the constants and the pin table. Uno pins A0..A5 are 14..19. `directVoltagePin` is left zero by the four-value initialisers.
- `ArduinoString`: the parts of Arduino `String` that the parser uses. These are `indexOf`, `trim` with C `isspace`, and `toInt`, which is `atol`: skip whitespace, one optional sign, then as many digits as follow, else 0.
- `Commands`: the comma split, the plan a command yields (`ParsePlan`), and the prefix dispatch of `loop` (`Classify`).
- `Measurement`: the per-channel record, the filtered-read value, the update `takeMeasurements` makes, and the capacity laws.
- `Trace`: the events, and the shapes both tests give the trace. The timed test's events are stated exactly, values included (`TimedEvents`). The full-discharge test's are stated by their order, ownership and prompt closing (`FullRun`), with per-channel views of both.
- `Tester`: the class `Bench` and its methods, with the lemmas that tie the tick loop of the full-discharge test together.

Where the code and the sketch's stated intent differ, the model follows the code:

- **The post-test reading is a loaded reading.** The timed test measures every active channel at second `testDuration + 3` after the relays go off. That second is positive. So `takeMeasurements` reads the loaded-voltage pin, not the unloaded one, and it adds `current/3600` to the capacity. `Tester.VoltagePin` and `Tester.TimedCapacity` state this.
- **The no-load reads use pin 0.** The readings before the test, at second −2, come from `directVoltagePin`. The pin table never sets that field, so it is 0.
- **The full-discharge test keeps `lastCurrent`.** It clears `capacity` only (line 209). The timed test clears both (lines 157-158). See `Tester.LoadingLastCurrent`.
- **`FULLTEST` lines are parsed for a duration too.** `parseCommand` reads the duration from them as well, and the full-discharge test never uses it.

## Model

| member | source | states |
|---|---|---|
| ArduinoString.IndexOf | arduino-code.c:102 | `indexOf` returns −1 exactly when the character is absent. Otherwise it returns a position holding the character with no earlier occurrence. |
| ArduinoString.Trim | arduino-code.c:105-106 | `trim` leaves a result that neither starts nor ends with whitespace. The result sits right after the leading whitespace, every character outside it is whitespace, and text without whitespace is unchanged. |
| ArduinoString.ToInt | arduino-code.c:124 | On text made of digits only, `toInt` gives the decimal value of those digits. |
| ArduinoString.ToIntDecimal | arduino-code.c:124 | `toInt` reads back the decimal notation of every natural number. |
| ArduinoString.ToIntSigned | arduino-code.c:124 | A leading `-` negates the value and a leading `+` is accepted. |
| ArduinoString.ToIntSpaced | arduino-code.c:124 | Leading whitespace does not change the value. |
| ArduinoString.ToIntNoDigits | arduino-code.c:136 | Text without a digit converts to 0, so it selects no channel and no duration. |
| Commands.JoinSplit | arduino-code.c:121-132 | The token loop's split at commas loses nothing: joining the tokens with commas gives back the text. |
| Commands.SplitJoin | arduino-code.c:121-132 | Comma-free pieces (at least one) joined with commas split back into exactly those pieces. |
| Commands.DurationOf | arduino-code.c:134-138 | The duration is always in 1..3600. It is the value of the duration text when that text is non-empty and its value is in 1..3600, and the default 30 otherwise. |
| Commands.ParsePlan | arduino-code.c:98-103 | One flag per channel and a duration in 1..3600. A command without a colon activates nothing and keeps 30. |
| Commands.NamesOfList | arduino-code.c:120-132 | In a written list, channel k+1 is named exactly when k+1 is one of the list's entries. Order and repetition do not matter. |
| Commands.ParseWellFormed | arduino-code.c:98-139 | For `<kind>:<n1>,...[:<d>]`, the plan activates exactly the listed channel numbers that exist. It uses `d` exactly when 1 ≤ d ≤ 3600 and uses 30 otherwise. |
| Commands.Classify | arduino-code.c:84-91 | A line is a timed test exactly when it starts with `START:`, a full test exactly when it starts with `FULLTEST:`, and ignored otherwise. |
| Measurement.FilteredValue | arduino-code.c:271-282 | With counts in 0..1023, a filtered read lies in 0..V_REF. |
| Measurement.FilteredOfConstant | arduino-code.c:271-282 | Ten equal counts give that count scaled by V_REF/1023. |
| Measurement.MeasureOnce | arduino-code.c:253-265 | One measurement keeps the voltage read. Its current times the shunt resistance is the shunt drop, and its capacity gains current/3600 exactly when the second is positive. Of the old record only the capacity and `lastCurrent` matter. |
| Measurement.TestRecordPrefix | arduino-code.c:144-176 | The record a channel shows after m+1 readings of a test depends on those readings only. Later readings do not change it. |
| Measurement.CapacityOfConstantCurrent | arduino-code.c:263-265 | Under a constant current i, capacity grows by i/3600 for each measurement at a positive second and for no other. |
| Measurement.LoadedCapacity | arduino-code.c:263-265 | N measurements at positive seconds with constant current i add N·i/3600 Ah. |
| Measurement.NoLoadKeepsCapacity | arduino-code.c:263-265 | Measurements at seconds ≤ 0 never change the capacity, whatever the current. |
| Measurement.CapacityMonotone | arduino-code.c:263-265 | With non-negative currents the capacity never decreases. |
| Measurement.ReplayLast | arduino-code.c:253-261 | After any measurements, voltage, shunt difference and current are those of the last one. |
| Measurement.ReplayKeepsLastCurrent | arduino-code.c:248-266 | No measurement changes `lastCurrent`. |
| Trace.ReportIdentifies | arduino-code.c:287-305 | A report line belongs to its channel and carries its second. Two reports are equal exactly when channel, second, the five readings and the capacity are equal, so the line determines the values reported. |
| Trace.PhaseEventsTags | arduino-code.c:146-151 | A pass over the active channels, values dropped, is one record per active channel in channel order. |
| Trace.PhaseEventsSame | arduino-code.c:146-151 | What a pass reports depends only on the active channels' records. |
| Trace.TimedEventsTags | arduino-code.c:144-193 | The exact events of a timed test, values dropped, have the timed-test shape. |
| Trace.PreludeGrow | arduino-code.c:146-160 | Readings taken later do not change the prelude already sent. |
| Trace.SampleEventsGrow | arduino-code.c:165-176 | Readings taken later do not change the sampling seconds already sent. |
| Trace.PromptTurn | arduino-code.c:223-235 | After each turn, every record at or below 3.0 V is still followed at once by its relay-off and its `TEST_COMPLETE:<n>`. |
| Trace.LateCloseRejected | arduino-code.c:227-231 | A run in which a channel at 2.0 V gets its relay-off and `TEST_COMPLETE:<n>` only after another channel's record of a later second is not a full-discharge run. |
| Trace.TimedChannelView | arduino-code.c:144-193 | Per channel, a timed test of d seconds gives an active channel a record at −2, its relay on, one record for each second 0..d−1, its relay off and a record at d+3. An inactive channel only sees its relay switched off. |
| Trace.TimedEndsOnce | arduino-code.c:192 | A timed test emits `TEST_COMPLETE` exactly once, as its last event. |
| Trace.ProgressTurn | arduino-code.c:223-235 | A channel's turn adds one record. The channel finishes on this turn exactly when the record reads ≤ 3.0 V, and then its relay-off and `TEST_COMPLETE:<n>` follow. |
| Trace.RunTurn | arduino-code.c:222-236 | Each turn keeps the records ordered tick by tick and, within a tick, in channel order. Every event belongs to a channel, and every record at or below 3.0 V is followed at once by that channel's relay-off and `TEST_COMPLETE:<n>`. |
| Tester.Sampled | arduino-code.c:248-255 | The reading a measurement takes at a second from a given read number: the filtered values of the three pins in turn. Each lies in 0..V_REF and the current they give lies in ±V_REF/0.8. |
| Tester.GenuineSnoc | arduino-code.c:248-255 | Appending a reading sampled from the ADC keeps a channel's log tied to the ADC. |
| Tester.SpacedSnoc | arduino-code.c:248-255 | A reading that begins at or after the clock and whose 33 reads are done keeps a channel's log spaced. |
| Tester.SpacedApart | arduino-code.c:248-255 | In a spaced log, readings k < l begin at least 33·(l−k) reads apart, so no two share an `analogRead`. |
| Tester.SpacedPast | arduino-code.c:248-255 | Every reading of a spaced log finished its 33 reads by the clock. |
| Tester.SharedReadRejected | arduino-code.c:248-255 | Two readings of a log that claim the same first read make the log not spaced, whatever the clock. |
| Tester.RankGrows | arduino-code.c:146-151 | In a pass over the channels, an active channel is measured before every later active channel, and before the pass ends. |
| Tester.PacedPass | arduino-code.c:165-176 | A pass m passes into the test extends every active channel's paced log by a reading at its place in the pass. |
| Tester.PassesProduct | arduino-code.c:165-176 | m passes over w active channels are w·m measurements, so the pass count in `Paced` is the product A·k. |
| Tester.PassesApart | arduino-code.c:165-176 | A later pass begins only once an earlier pass has made all of its w measurements. |
| Tester.PacedApart | arduino-code.c:146-190 | In a timed test, any reading of one active channel and any reading of another begin at least 33 reads apart. |
| Tester.FinalPass | arduino-code.c:183-190 | The pass at d+3 keeps the logs paced and ends d+2 passes after the test began. |
| Tester.MeasuredPass | arduino-code.c:146-151 | One active channel's measurement in a pass extends the pass: its log and record take the reading, stamped after the active channels before it. |
| Tester.SkippedPass | arduino-code.c:147 | An inactive channel's turn in a pass leaves every log, record and stamp as it was, and its rank in the pass does not grow. |
| Tester.SecondAdvance | arduino-code.c:165-176 | One second of the timed test extends each active channel's history, its paced log and the events by one pass. |
| Tester.StampedApart | arduino-code.c:219-236 | In the tick loop, the reading behind a later record began at least 33 reads after the reading behind an earlier one, whichever channels sent them. |
| Tester.StampTurn | arduino-code.c:223-235 | A channel's turn, whose reading begins after the reads of every record so far, keeps every channel's tick readings stamped. |
| Tester.FullStamps | arduino-code.c:198-240 | A full test's no-load readings are paced in the prelude and its tick readings stamped from the end of the prelude. |
| Trace.RecordsInPrefix | arduino-code.c:223-235 | A longer part of a run holds at least the records of a shorter one, and one more when a record lies between them. |
| Trace.RecordsInTurn | arduino-code.c:223-235 | A channel's turn sends exactly one record. |
| Tester.VoltagePin | arduino-code.c:249-251 | Before the test (second < 0) the voltage comes from pin 0. From second 0 on it comes from the channel's loaded pin. |
| Tester.LoadingLastCurrent | arduino-code.c:209 | The timed test leaves `lastCurrent` at 0. The full test keeps its value from before the test. |
| Tester.LoadingCapacity | arduino-code.c:154-176 | Under a constant current i, n seconds into a test the capacity is (n−1)·i/3600, or 0 when n = 0. |
| Tester.TimedCapacity | arduino-code.c:144-193 | Under a constant current i, a timed test of d seconds (the parser makes d ≥ 1) ends with capacity d·i/3600: seconds 1..d−1 plus the reading at d+3. |
| Tester.TimedAssemble | arduino-code.c:144-193 | The prelude, the sampling seconds, the relays off and the final pass, each as sent, make up `TimedEvents` of the test's whole logs. |
| Tester.TimedFinish | arduino-code.c:183-192 | The reading at d+3 completes each active channel's timed history and leaves inactive channels unchanged. |
| Tester.ReportedTurn | arduino-code.c:222-236 | After a turn, every record a channel has sent shows its record after exactly the readings up to that tick. |
| Tester.LoadingTicking | arduino-code.c:198-240 | The prelude followed by n ticks gives the channel's log and record for the whole test. Its k-th record as sent shows the record after the first k+1 readings of the test. |
| Tester.FullAssemble | arduino-code.c:198-240 | Put together for every channel: log and records for the whole full test, reports matching the records, and the prelude unchanged by later readings. |
| Tester.FullOutcomeOf | arduino-code.c:198-240 | The prelude followed by the tick loop gives every channel its `FullOutcome`: its whole history and reports, its relay on exactly while unfinished, inactive channels untouched, and every active relay off once the loop stopped by itself. |
| Tester.TurnAdvance | arduino-code.c:223-235 | A turn advances one channel's log, record, relay and events together, one tick further. |
| Tester.FullRunOf | arduino-code.c:215-240 | When the tick loop stops, each active channel is discharged or still above the cutoff on every tick. It is left out of the trace when inactive. |
| Tester.CompletedFinished | arduino-code.c:219-240 | A loop that stopped by itself has finished every active channel. |
| Tester.Bench.constructor | arduino-code.c:58-74 | Zeroed globals, every relay written LOW in channel order (`AllOffEvents`), and one ADC read of A0. |
| Tester.Bench.ReadFilteredAnalog | arduino-code.c:271-282 | One read discarded, then the mean of the next ten scaled to volts, in 0..V_REF. It takes exactly eleven reads. |
| Tester.Bench.TakeMeasurements | arduino-code.c:248-266 | The measured channel's record becomes the update of its old record by the three filtered reads, which are logged with the read number they began at. It takes exactly 33 reads. No other channel changes. |
| Tester.Bench.SendSerialData | arduino-code.c:287-305 | Appends one record with battery number channel+1, the second, the readings and capacity×1000 as mAh. |
| Tester.Bench.SetRelay | arduino-code.c:229 | Sets one relay and logs the write. No other relay changes. |
| Tester.Bench.MeasureActive | arduino-code.c:146-151 | Every active channel, in order, is measured and reported once at the given second, and each report carries the record just measured. Each active channel's reading begins 33 reads after the start of the pass for every active channel before it, and the pass takes 33 reads per active channel. Inactive channels are untouched. |
| Tester.Bench.MeasureChannel | arduino-code.c:147-150 | Channel i's turn in a pass: when active, measured 33 reads after the active channels before it and reported once; otherwise nothing changes. Either way the pass so far now covers channels 0..i. |
| Tester.Bench.EnableRelays | arduino-code.c:154-160 | The active relays go on in channel order and their capacity is cleared. With `clearLast`, `lastCurrent` is cleared too. |
| Tester.Bench.SwitchLoadOn | arduino-code.c:155-159 | One channel's relay goes on and its record restarts. |
| Tester.Bench.DisableRelays | arduino-code.c:179-181 | Every relay goes off, active or not, in channel order (`AllOffEvents`). |
| Tester.Bench.BeginTest | arduino-code.c:146-160 | The no-load records come first, then the relays on. Each active channel holds its no-load reading and its restarted record. Each report shows the record after the channel's first test reading. The no-load readings are paced: one pass of 33 reads per active channel. |
| Tester.Bench.SampleSeconds | arduino-code.c:165-176 | One pass over the active channels for each second 0..d−1. Each active channel gets one reading per second, and the report at second s shows its record after the readings up to s. Every reading is paced and the clock is d+1 passes past the start of the test. |
| Tester.Bench.StartTesting | arduino-code.c:144-193 | The trace grows by exactly `TimedEvents` of the test's logs: every record, with its values, then the relay writes and `TEST_COMPLETE`. It has the timed-test shape and every relay ends off. Each active channel's record is its no-load reading, restart, d loaded readings and the reading at d+3. Every reading the test took is paced from the test's first read, and the test takes d+2 passes of 33 reads per active channel. Inactive channels are untouched. |
| Tester.Bench.CloseTest | arduino-code.c:178-192 | Every relay off in channel order, then one pass at d+3 with the relays off, paced, after which the clock is d+2 passes past the start of the test, and `TEST_COMPLETE`. |
| Tester.Bench.SampleSecond | arduino-code.c:165-176 | One second of the timed test: every active channel measured and reported once more, paced, and its record showing its test log up to then. |
| Tester.Bench.FinishTesting | arduino-code.c:178-192 | After the sampling seconds: the relays off, one record per active channel at d+3 and `TEST_COMPLETE`, giving the whole timed test, still paced, after d+2 passes. |
| Tester.Bench.DischargeStep | arduino-code.c:223-235 | A channel gets the reading the ADC gives at the current read number, and the report of its new record. At or below 3.0 V its relay goes off and `TEST_COMPLETE:<n>` follows. It takes 33 reads. |
| Tester.Bench.ChannelTurn | arduino-code.c:223-235 | A channel takes its turn only if it is active and not finished. Otherwise nothing changes. The reading of a turn begins 33 reads per record sent so far after the loop began, so every channel's tick readings stay stamped. |
| Tester.Bench.FullTick | arduino-code.c:220-236 | One tick advances every unfinished active channel. The flag says whether any of them stayed above the cutoff. |
| Tester.Bench.TickLoop | arduino-code.c:219-240 | The loop keeps running while some active channel is unfinished. It stops only after a tick on which no channel was above the cutoff. The clock moves 33 reads per record sent and every tick reading is stamped. |
| Tester.Bench.RunTicks | arduino-code.c:215-240 | Each active channel ends discharged, or above the cutoff on every tick when the tick bound is hit. Its k-th record as sent shows its record after the readings of ticks 0..k. Each relay is on exactly while its channel is unfinished. The reading behind each record began 33 reads per earlier record after the loop began, and the loop takes 33 reads per record. |
| Tester.Bench.StartFullTest | arduino-code.c:198-243 | The exact prelude comes first, then the tick loop. A record at or below 3.0 V is followed at once by its relay-off and `TEST_COMPLETE:<n>`. Every channel ends with its `FullOutcome`: each active channel's record is its no-load reading, restart and one reading per record it sent, every record sent shows the values of those readings, and its relay is on exactly while it is unfinished; inactive channels are untouched. On completion every active relay is off. The no-load readings are paced, the tick readings stamped from the end of the prelude (`FullStamped`), and the test takes 33 reads per active channel plus 33 per record sent. |
| Tester.Bench.FinishFullTest | arduino-code.c:215-243 | The tick loop after the prelude, with its meaning for the whole full test (`FullOutcome` of every channel, the exact trace and its shape), read numbers included. |
| Tester.Bench.AnalogRead | arduino-code.c:272-277 | One `analogRead` returns the ADC's count for that pin at the current read number and advances the read number. |
| Tester.Bench.HandleLine | arduino-code.c:79-93 | A trimmed `START:` line is parsed and runs the timed test: its exact events are appended, every channel ends with its `TimedOutcome` (an active channel's `TimedHistory`, an inactive one untouched), the readings are paced and the test takes d+2 passes. A `FULLTEST:` line is parsed and runs the full test: its exact prelude and run, every channel's `FullOutcome` (histories, reports, relays, inactive channels untouched, active relays off on completion), the readings stamped, with its read count. Any other line changes nothing, emits nothing and takes no read. |
| Tester.Bench.TimedCommand | arduino-code.c:83-85 | A `START:` command leaves the plan of the command, the exact events of the timed test and every channel's `TimedOutcome`: an active channel's no-load reading, d loaded readings and the reading at d+3, with its record replayed from them; an inactive channel's log and record untouched. The readings are paced, after d+2 passes. |
| Tester.Bench.FullCommand | arduino-code.c:87-89 | A `FULLTEST:` command leaves the plan of the command, the exact events of the full test and every channel's `FullOutcome`: an active channel's no-load reading and one reading per record, every record showing its record then, its relay on exactly while unfinished; an inactive channel untouched; on completion every active relay off. The readings are stamped, with the test's read count. |
| Tester.Bench.ParseCommand | arduino-code.c:98-139 | The flags and the duration become the plan of the command alone. The first thing it does is clear what the previous command set, so parsing again changes nothing. |
| Tester.Bench.ResetPlan | arduino-code.c:99-100 | Every activation flag is cleared and the duration is back at its default of 30 s. |
| Tester.Bench.ParseBody | arduino-code.c:108-118 | The text after the first colon is split at its own first colon into the channel list and the duration text. |
| Tester.Bench.OverrideDuration | arduino-code.c:134-138 | The duration becomes `DurationOf` of the duration text. |
| Tester.Bench.ActivateListed | arduino-code.c:120-132 | A flag is set exactly when some comma-separated token names its channel. |
| Tester.Bench.ActivateToken | arduino-code.c:122-128 | One token sets the flag of the channel it names and no other. |

## Left out

- Serial I/O is not modelled. This covers `Serial.begin`, `available`, `readStringUntil`, the banner lines of `setup` and the printed value of the A0 read. `HandleLine` receives the line as a parameter. It is foreign I/O.
- Decimal formatting of the report line is not modelled (3 or 4 decimals, mAh with 1). A report carries the values themselves. Float-to-text is library behaviour.
- `delay`, `delayMicroseconds`, `millis` and the one-second busy wait are not modelled. A second of the test is one pass of its loop, because wall-clock timing cannot be verified.
- `pinMode` is not modelled. `digitalWrite` is a `RelayWrite` event plus the `relay` array, and `analogRead` is the injected `adc` function. These are hardware primitives.
- `analogRead`'s translation of channel numbers is not modelled: on the Uno, pin 0 reads A0. The no-load pin 0 stays a pin of its own, whose count the `adc` function gives. That translation is board-specific.
- IEEE single-precision rounding is not modelled. Quantities are `real`, so the 3.0 V cutoff comparison and the capacity sums are exact.
- Integer widths are not modelled: `toInt`'s `long`, the 16-bit `int` it is stored in, and the 16-bit `int sec` are unbounded integers. On the Uno this hides these behaviours of the code. First, in a full test `sec` wraps to −32768 after 32767 ticks (about nine hours); from then on `takeMeasurements` reads the no-load pin 0 and adds no capacity. Second, `toInt()-1` is truncated to 16 bits, so a token such as `65537` selects channel 1; likewise a duration text such as `65566` is stored as 30. The timed test's seconds stay below 3604 and cannot wrap. The model sees none of this.
- Tester.Bench.StartFullTest: the source loops without bound until every active channel has read 3.0 V or less. The model stops after `maxTicks` ticks and returns whether the loop ended by itself. When cut off after at least one tick, some active channel has read above the cutoff on every tick. Real termination depends on the battery and is not a property of the code.
- `lastCurrent` is written, but no routine ever reads it. The model keeps the value and proves only how the two tests reset it.
