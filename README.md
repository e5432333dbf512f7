# Swegon ventilation bridge: register-table engine and main-loop scheduler

This project models the two sequential cores of the Swegon-to-MQTT bridge and
proves properties of them in Dafny.

**The register-table engine** is the `Swegon` class of `swegon-to-mqtt/swegon.py`.
- Four register tables (status, sensors, alarms, settings) hold rows
  `[register, functioncode, name, decimals, current, last_reading]`.
- The class polls the controller over Modbus and updates the rows in place.
- It copies the last readings into the current values.
- It projects the tables into four name-to-value views. The status view gains a
  derived `Mode` label and the alarms view an `Alarms` summary.
- It translates fan-mode and temperature commands into register writes.

In the model:
- `SwegonUnit.Swegon` is a class whose four tables are `array<Entry>` fields.
  Its methods mutate those arrays and append to a debug log.
- Each method is proved against a specification function on sequences:
  - `TableRead.ReadTable` for `_read`;
  - `Views.Committed` for `_register_new_measurements`;
  - `Views.TableView`, `Views.StatusView` and `Views.AlarmsView` for the projections;
  - `SwegonUnit.ReadAll` and `SwegonUnit.ProcessAll` for the whole poll.
- Lemmas then state what the source promises about those functions.
- The serial instrument is `Modbus.Instrument`:
  - an abstract register image answers block reads;
  - an opaque decoder stands for the library's single-register signed read;
  - every request is logged.

**The bridge scheduler** is `process_message`, `update_sensors`,
`subscribe_topics` and the body of the `while True` loop of `main` in
`swegon-to-mqtt/swegon-to-mqtt.py`.
- `Bridge.ProcessMessage` dispatches an inbound message by topic to the unit.
- `Bridge.UpdateSensors` polls the unit and makes four retained publications.
- `Bridge.Iteration` is one pass of the main loop as a step over the queue and
  `sensor_counter`. It emits a trace of `Apply(message)` and `Update` events.
- `Bridge.MainLoop` runs finitely many iterations with the counter bound as a
  loop invariant.

Python semantics that matter are modelled explicitly:
- A Python table value is `Number = Int | Float(real)`. Python compares ints
  and floats by value, and so does the model (`Real()`).
- Truthiness of a value is `Truthy()`.
- Negative list indexing (`FAN_MODES[-1]`) is modelled.
- `round(x, d)` rounds to nearest with ties to even, exactly.
- Exceptions the code raises (`ValueError` from `list.index`, `KeyError`,
  `IndexError`, `TypeError`) are `Err` values of `Faults.Result`. Each ends
  the call it occurs in.
- `None` returned by the lookups is `Faults.Option.None`.

Behaviour of the code that the model keeps as written:
- `_unsigned_to_signed` maps words above 32768 to negative values and keeps
  32768 itself, so every decoded value lies in [-32767, 32768].
- An out-of-range `Operating Mode`, or an unknown fan-mode label, raises. The
  model returns `Err`.
- Python's negative indexing makes `Operating Mode` values -5..-1 yield a label.
  The model keeps that rather than restricting the index to 0..4.
- `get_swegon_data` has no real retry: its loop body always runs once.
- In the main loop, each processed message is followed at once by its own
  full update, provided the command returns (see "## Left out").

One behaviour the model corrects: the alarm summary loop indexes the summary
string where it means the alarm row (listed under "## Findings").
`Views.AlarmSummaryAsWritten` models that code as written. The poll
(`Views.AlarmsView`, `SwegonUnit.ProcessAll`) uses the corrected
`Views.AlarmSummary`.

## Model

| member | source | states |
|---|---|---|
| Registers.UnsignedToSigned | swegon-to-mqtt/swegon.py:198-202 | the result lies in [-32767, 32768], is congruent to the word modulo 65536, and equals the word exactly when the word is at most 32768 |
| Registers.RoundHalfEven | swegon-to-mqtt/swegon.py:193 | Python `round` to an integer: within 0.5 of the argument, and even on a tie |
| Registers.RoundTo | swegon-to-mqtt/swegon.py:193 | Python `round(x, d)`: the result times 10^d is the integer nearest to x times 10^d, ties to even (by `RoundHalfEven`), so it has d decimals; it is within half a unit of the d-th decimal of x |
| Registers.Rescale | swegon-to-mqtt/swegon.py:192-193 | with no decimals the value is kept; with d decimals the result is a float whose value times 10^d is the integer nearest to the original value, ties to even, and which is within half a unit of the d-th decimal of value / 10^d |
| Registers.Decode | swegon-to-mqtt/swegon.py:189-193 | the decoded word is an int exactly when there are no decimals, and multiplied back by 10^decimals it gives the signed word |
| Registers.RescaleDecodes | swegon-to-mqtt/swegon.py:192-193 | rescaling a signed word for a single row is exact: the word divided by 10^decimals as a float when decimals > 0, the int itself otherwise |
| Registers.RescaleExact | swegon-to-mqtt/swegon.py:193 | for an integer k and d > 0, `round(k / 10**d, d)` is exactly k / 10^d |
| Registers.CatalogTablesAreBatched | swegon-to-mqtt/swegon.py:12-31 | every static table has a first row, is read by one batched request, and has unique registers and names; the sensors span 14 registers, 6201 + i in row i, all with function code 4 |
| Registers.SensorNames | swegon-to-mqtt/swegon.py:14-27 | the fourteen sensor names are pairwise distinct |
| Modbus.Block | swegon-to-mqtt/swegon.py:95-96 | a block read returns `count` words, the i-th being the image at address + i under the given function code |
| Modbus.Instrument.ReadRegisters | swegon-to-mqtt/swegon.py:95-96 | returns the block from the device image and logs one `ReadBlock` request |
| Modbus.Instrument.ReadRegister | swegon-to-mqtt/swegon.py:92-93 | returns the library's decoded value and logs one `ReadOne` request |
| Modbus.Instrument.WriteRegister | swegon-to-mqtt/swegon.py:88-89 | logs one `WriteOne` request and changes nothing else |
| TableRead.Updated | swegon-to-mqtt/swegon.py:194-196 | afterwards the row's reading equals the value numerically; the row is unchanged exactly when its old reading already equalled the value, and otherwise it stores the value itself, kind included; no other field changes |
| TableRead.ScanEntries | swegon-to-mqtt/swegon.py:190-196 | the inner loop over the rows keeps the number of rows, only appends to the debug log, and every line it appends is a changed reading |
| TableRead.ScanWords | swegon-to-mqtt/swegon.py:187-196 | the loop over the words keeps the number of rows, only appends to the debug log, and every line it appends is a changed reading |
| TableRead.SingleReads | swegon-to-mqtt/swegon.py:180-183 | per-register path: every row's last reading becomes the decoded read of wire address register - 1 with the row's own function code and decimals; all other fields are kept |
| TableRead.SingleRequests | swegon-to-mqtt/swegon.py:180-183 | per-register path: one single-register read per row, in table order, at register - 1 |
| TableRead.ReadTable | swegon-to-mqtt/swegon.py:174-196 | `_read` keeps the number of rows and only appends to the debug log |
| TableRead.TableRequests | swegon-to-mqtt/swegon.py:178-185 | `_read` sends one block read exactly when the span does not exceed the row count, at wire address base - 1 for the whole span with the first row's function code; otherwise one single-register read per row, in order, at register - 1 with the row's decimals and function code; it never writes |
| TableRead.ScanEntriesFrame | swegon-to-mqtt/swegon.py:190-196 | the inner loop over the rows changes only last readings and only appends to the debug log |
| TableRead.ScanWordsFrame | swegon-to-mqtt/swegon.py:187-196 | the loop over the words changes only last readings and only appends to the debug log |
| TableRead.ReadTableFrame | swegon-to-mqtt/swegon.py:174-196 | `_read` preserves the length and every field except last readings, only appends to the debug log, and logs nothing on the per-register path |
| TableRead.ScanEntriesUnique | swegon-to-mqtt/swegon.py:190-196 | with unique registers, the row at the word's register (from position j on) takes the rescaled value by the change-only rule, the others are kept, and the log grows exactly when the table changes |
| TableRead.ScanWordsUnique | swegon-to-mqtt/swegon.py:187-196 | with unique registers, each row inside the remaining span takes its decoded word by the change-only rule, the others are kept, and the log grows exactly when the table changes |
| TableRead.BatchReadEffect | swegon-to-mqtt/swegon.py:185-196 | batched path with unique registers: a row whose register lies in [base, base + count) gets the signed word, divided by 10^decimals when decimals > 0, if it differs from the old reading; other rows are kept; the log only grows, every appended line is a changed reading, and a line is emitted exactly when something changed |
| TableRead.BatchReadIdempotent | swegon-to-mqtt/swegon.py:187-196 | scanning the same words again writes nothing and emits no debug line |
| TableRead.SameRowsReadAlike | swegon-to-mqtt/swegon.py:174-185 | tables that differ only in readings take the same path, send the same requests and read the same words |
| TableRead.SameRowsSameRequests | swegon-to-mqtt/swegon.py:180-183 | the per-register requests depend only on the layout of the rows |
| TableRead.SameRowsSameSingleReads | swegon-to-mqtt/swegon.py:180-183 | the per-register results depend only on the layout of the rows |
| TableRead.ReadTableIdempotent | swegon-to-mqtt/swegon.py:174-196 | reading a table with unique registers a second time from the same device state changes nothing, logs nothing and sends the same requests |
| Views.Committed | swegon-to-mqtt/swegon.py:135-137 | after the commit every row's current value equals its last reading and nothing else changes |
| Views.CommittedIdempotent | swegon-to-mqtt/swegon.py:135-137 | committing twice is committing once, and a synchronised table is left as it is |
| Views.TableView | swegon-to-mqtt/swegon.py:139-143 | every row name is a key, and every key maps to a number |
| Views.TableViewSpec | swegon-to-mqtt/swegon.py:139-143 | the map's keys are exactly the row names, each bound to the current value of the last row with that name |
| Views.TableViewKeys | swegon-to-mqtt/swegon.py:139-143 | every row name is a key and every key is a row name |
| Views.TableViewValues | swegon-to-mqtt/swegon.py:139-143 | a name is bound to the current value of the last row carrying it |
| Views.UniqueNamesView | swegon-to-mqtt/swegon.py:139-143 | with unique names, the keys are the set of row names and each is bound to its row's current value |
| Views.UniqueNamesLookup | swegon-to-mqtt/swegon.py:139-143 | with unique names, every row's name looks up that row's current value |
| Views.IndexOf | swegon-to-mqtt/swegon.py:57 | `list.index`: the first position holding the label, or -1 exactly when it is absent |
| Views.FanModeIndex | swegon-to-mqtt/swegon.py:57 | a label has an index exactly when it is in `FAN_MODES`, and that index holds the label; any other label is a `ValueError` |
| Views.FanModeAt | swegon-to-mqtt/swegon.py:118 | `FAN_MODES[v]` succeeds exactly for an int v in [-5, 5), counting from the end for negative v; anything else raises |
| Views.FanModeRoundTrip | swegon-to-mqtt/swegon.py:56-58 | label to index to label is the identity on `FAN_MODES`, and index to label to index is the identity on 0..4 |
| Views.StatusView | swegon-to-mqtt/swegon.py:115-120 | on success the keys are the table's keys plus `Mode` and `Controller uptime`, `Mode` is a label of `FAN_MODES`, the uptime is the given text, and every other key keeps its table value; the only failures are the missing `Operating Mode` key, an index out of range and a non-int index |
| Views.StatusViewOutcome | swegon-to-mqtt/swegon.py:115-120 | with unique names, the status map is built exactly when `Operating Mode` holds an int in [-5, 5) |
| Views.StatusViewMode | swegon-to-mqtt/swegon.py:115-120 | for a mode index in 0..4, the status map has the table's keys plus `Mode` and `Controller uptime`, `Mode` is the label at that index, and every other row keeps its current value |
| Views.ActiveNames | swegon-to-mqtt/swegon.py:147-148 | a name is listed exactly when some row with that name has a truthy current value; there are at most as many names as rows |
| Views.AlarmSummary | swegon-to-mqtt/swegon.py:145-153 | with no truthy alarm the summary is "None" (the corrected loop) |
| Views.AlarmSummaryJoins | swegon-to-mqtt/swegon.py:145-153 | with the entry's own name, the summary is the comma-joined names of the truthy alarms in table order, and it is "None" exactly when no alarm is active |
| Views.AlarmSummaryAsWritten | swegon-to-mqtt/swegon.py:145-153 | the loop as written can only fail with `IndexError` at index 2 |
| Views.AlarmSummaryAsWrittenOutcome | swegon-to-mqtt/swegon.py:145-153 | as written, the summary is "None" with no active alarm, "n" with one, and `IndexError` with two or more |
| Views.AlarmSummaryAsWrittenOneAlarm | swegon-to-mqtt/swegon.py:149-150 | the default alarm row, active, gives "n" as written and "Active Alarms" corrected |
| Views.AlarmSummaryAsWrittenTwoAlarms | swegon-to-mqtt/swegon.py:151-152 | the alarms (A, 0), (B, 1), (C, 1) raise `IndexError` as written and give "B, C" corrected |
| Views.AlarmsView | swegon-to-mqtt/swegon.py:122-126 | the alarms map has the table's keys plus `Alarms`, bound to the alarm summary; every other key keeps its table value |
| Views.FanModeWriteReadBack | swegon-to-mqtt/swegon.py:56-58 | if the device holds at wire 5000 the index written for a label, the next status read and commit yields that label as `Mode` |
| SwegonUnit.CatalogueLayout | swegon-to-mqtt/swegon.py:44-48 | a new unit's tables have the catalogue layout |
| SwegonUnit.ReadAll | swegon-to-mqtt/swegon.py:72-77 | the four reads keep each table's row count and only append to the debug log |
| SwegonUnit.ReadAllRequests | swegon-to-mqtt/swegon.py:72-77 | a poll sends only reads, never a write |
| SwegonUnit.ReadAllFrame | swegon-to-mqtt/swegon.py:72-77 | the four reads keep the catalogue layout, change only last readings and only append to the debug log |
| SwegonUnit.CatalogueRequests | swegon-to-mqtt/swegon.py:74-77 | a poll sends exactly four block reads: 1 word at wire 5000 (fc 3), 14 from 6200 (fc 4), 1 at 6131 (fc 4), 1 at 5100 (fc 3) |
| SwegonUnit.ProcessAll | swegon-to-mqtt/swegon.py:103-108 | settings and status are always committed; the result is `Ok` exactly when the status view is; on `Ok`, sensors and alarms equal their committed tables and the result is the four views of the new tables; on `Err`, sensors and alarms are untouched |
| SwegonUnit.SensorsReadWords | swegon-to-mqtt/swegon.py:187-196 | after a read of the sensors, each row's reading equals, numerically, its device word signed and scaled by its decimals, and it is either that decoded value itself or the row's old reading |
| SwegonUnit.SensorsView | swegon-to-mqtt/swegon.py:128-133 | the committed sensors map has exactly the fourteen sensor names as keys, each bound to its row's last reading |
| SwegonUnit.PollPublishesSensorWords | swegon-to-mqtt/swegon.py:70-82 | after a successful poll, the sensors view has exactly the sensor names as keys, each bound to its device word signed and scaled |
| SwegonUnit.Swegon.constructor | swegon-to-mqtt/swegon.py:44-53 | a new unit starts from the static tables in fresh arrays and performs one full poll |
| SwegonUnit.Swegon.WriteRegister | swegon-to-mqtt/swegon.py:88-90 | a write goes to wire address register - 1 with function code 6 |
| SwegonUnit.Swegon.ReadRegister | swegon-to-mqtt/swegon.py:92-93 | a single read goes to wire address register - 1 and returns the decoded value |
| SwegonUnit.Swegon.ReadRegisters | swegon-to-mqtt/swegon.py:95-96 | a block read goes to wire address base - 1 and returns the words there |
| SwegonUnit.Swegon.SetFanMode | swegon-to-mqtt/swegon.py:56-58 | a known label writes its index to wire 5000; an unknown label is a `ValueError` and writes nothing |
| SwegonUnit.Swegon.SetTemperature | swegon-to-mqtt/swegon.py:61-63 | the rounded target is written to wire 5100 with no decimals |
| SwegonUnit.Swegon.ResetAlarms | swegon-to-mqtt/swegon.py:65-67 | only the debug line "Clearing all alarms" is emitted; no register is written |
| SwegonUnit.Swegon.GetSwegonData | swegon-to-mqtt/swegon.py:70-82 | the new tables, the result, the debug log and the requests are those of reading all four tables in order and then processing them |
| SwegonUnit.Swegon.ReadTables | swegon-to-mqtt/swegon.py:72-77 | the four reads in the order status, sensors, alarms, settings, with the catalogue layout kept |
| SwegonUnit.Swegon.Read | swegon-to-mqtt/swegon.py:174-196 | the table, the debug log and the requests after `_read` are those of `ReadTable` and `TableRequests` |
| SwegonUnit.Swegon.ReadBatch | swegon-to-mqtt/swegon.py:185-196 | one block read of the span at base - 1, then every word scanned against every row in order |
| SwegonUnit.Swegon.ReadEach | swegon-to-mqtt/swegon.py:180-183 | the per-register path leaves the table as `SingleReads` and sends `SingleRequests` |
| SwegonUnit.Swegon.ReadRow | swegon-to-mqtt/swegon.py:182 | one row's reading is replaced by the decoded read of its register; the other rows are kept |
| SwegonUnit.Swegon.ScanWord | swegon-to-mqtt/swegon.py:188-196 | the inner loop for one word leaves the table and log as `ScanEntries` |
| SwegonUnit.Swegon.ProcessData | swegon-to-mqtt/swegon.py:103-108 | the tables and result are those of `ProcessAll`, and the layout is kept |
| SwegonUnit.Swegon.ProcessSettings | swegon-to-mqtt/swegon.py:110-113 | commits the settings and returns their map |
| SwegonUnit.Swegon.ProcessStatus | swegon-to-mqtt/swegon.py:115-120 | commits the status and returns the status view, or the error of the label lookup |
| SwegonUnit.Swegon.ProcessAlarms | swegon-to-mqtt/swegon.py:122-126 | commits the alarms and returns their map with the summary |
| SwegonUnit.Swegon.ProcessSensors | swegon-to-mqtt/swegon.py:128-133 | commits the sensors and returns their map |
| SwegonUnit.Swegon.RegisterNewMeasurements | swegon-to-mqtt/swegon.py:135-137 | the table becomes `Committed` of the old table |
| SwegonUnit.Swegon.ConvertRawTable | swegon-to-mqtt/swegon.py:139-143 | returns `TableView` of the table and changes nothing |
| SwegonUnit.Swegon.GetAlarmsString | swegon-to-mqtt/swegon.py:145-153 | returns the corrected alarm summary of the alarms table |
| SwegonUnit.Swegon.GetValue | swegon-to-mqtt/swegon.py:164-167 | `None` exactly when no row has the register; otherwise the current value of the first row that has it |
| SwegonUnit.Swegon.GetLastReading | swegon-to-mqtt/swegon.py:169-172 | `None` exactly when no row has the register; otherwise the last reading of the first row that has it |
| SwegonUnit.FirstRow | swegon-to-mqtt/swegon.py:165-166 | the position of the first row with the register, or the length when there is none |
| SwegonUnit.CommittedLookup | swegon-to-mqtt/swegon.py:164-172 | after a commit, `_get_value` returns what `_get_last_reading` returned before it |
| Bridge.Dispatch | swegon-to-mqtt/swegon-to-mqtt.py:108-116 | exactly the three subscribed topics lead to an action (fan mode, temperature, alarm reset) with the payload as given; any other topic does nothing |
| Bridge.VacationIgnored | swegon-to-mqtt/swegon-to-mqtt.py:47-51 | the vacation topic is not subscribed and its messages do nothing; the three subscriptions are distinct |
| Bridge.Publications | swegon-to-mqtt/swegon-to-mqtt.py:119-125 | four retained publications in the order settings, status, sensors, alarms, each with its view; keys are sorted for all but the sensors |
| Bridge.Client.Subscribe | swegon-to-mqtt/swegon-to-mqtt.py:49 | appends one subscription |
| Bridge.Client.Publish | swegon-to-mqtt/swegon-to-mqtt.py:122 | appends one publication |
| Bridge.SubscribeTopics | swegon-to-mqtt/swegon-to-mqtt.py:47-51 | subscribes to the fan, temperature and alarm-reset topics, in that order |
| Bridge.ProcessMessage | swegon-to-mqtt/swegon-to-mqtt.py:108-116 | per topic: the fan-mode write or a `ValueError`, the setpoint write or an unparsable payload, the reset's debug line, or nothing for any other topic |
| Bridge.UpdateSensors | swegon-to-mqtt/swegon-to-mqtt.py:119-125 | polls the unit: its tables, debug log and requests become those of reading all four tables and processing them; on success the four publications of its views are appended, and on failure nothing is published |
| Bridge.Publish | swegon-to-mqtt/swegon-to-mqtt.py:122-125 | appends exactly `Publications` of the views |
| Bridge.DrainTrace | swegon-to-mqtt/swegon-to-mqtt.py:190-195 | draining a queue applies each message in FIFO order, each followed at once by one update |
| Bridge.Drain | swegon-to-mqtt/swegon-to-mqtt.py:190-195 | the drain loop empties the queue, emits `DrainTrace` and sets the counter to 4 when any message was processed |
| Bridge.Iteration | swegon-to-mqtt/swegon-to-mqtt.py:184-201 | while disconnected nothing happens; a connected iteration empties the queue |
| Bridge.IterationCounter | swegon-to-mqtt/swegon-to-mqtt.py:195-200 | after a connected iteration the counter lies in 1..15 |
| Bridge.MessageIteration | swegon-to-mqtt/swegon-to-mqtt.py:190-200 | an iteration with queued messages emits only the drain trace, with no periodic update, and leaves the counter at 3 |
| Bridge.FirstIterationPublishes | swegon-to-mqtt/swegon-to-mqtt.py:182-200 | from the initial counter 0, the first connected iteration performs an update |
| Bridge.IdlePeriod | swegon-to-mqtt/swegon-to-mqtt.py:197-200 | with an empty queue, the periodic updates happen first at iteration counter - 1 and then exactly every 15 iterations |
| Bridge.UpdateSchedule | swegon-to-mqtt/swegon-to-mqtt.py:195-200 | after a message, idle updates come 3 iterations later and then every 15; from the start they come at iterations 0, 15, 30, … |
| Bridge.IdleRun | swegon-to-mqtt/swegon-to-mqtt.py:197-200 | n idle iterations give n flags, and the first one updates exactly when the counter is at most 1 |
| Bridge.AppliedConcat | swegon-to-mqtt/swegon-to-mqtt.py:190-192 | the messages applied in two traces are those of the first followed by those of the second |
| Bridge.AppliedDrain | swegon-to-mqtt/swegon-to-mqtt.py:190-195 | a drain applies exactly its queue, and each application is followed by an update |
| Bridge.AnsweredConcat | swegon-to-mqtt/swegon-to-mqtt.py:190-195 | two traces in which every application is followed by an update join into one that has that property |
| Bridge.Run | swegon-to-mqtt/swegon-to-mqtt.py:182-201 | while never connected nothing is applied or published: the counter stays 0 and the queue holds every arrival in order |
| Bridge.IterationOrder | swegon-to-mqtt/swegon-to-mqtt.py:184-201 | an iteration applies a prefix of the queue in order and keeps the rest; every application is followed by an update, and the trace ends in an update |
| Bridge.RunStep | swegon-to-mqtt/swegon-to-mqtt.py:184-201 | a run of k + 1 iterations is the run of k iterations followed by one more |
| Bridge.RunOrder | swegon-to-mqtt/swegon-to-mqtt.py:190-195 | over any run, the applied messages followed by those still queued are all arrivals in arrival order |
| Bridge.RunAnswered | swegon-to-mqtt/swegon-to-mqtt.py:190-195 | over any run, every applied message is followed at once by an update |
| Bridge.RunCounter | swegon-to-mqtt/swegon-to-mqtt.py:182-201 | the counter is 0 until the first connected iteration and in 1..15 from then on |
| Bridge.MainLoop | swegon-to-mqtt/swegon-to-mqtt.py:182-201 | the loop emits the trace of `Run` and keeps the counter in 1..15 after any connected iteration |

## Left out

- Transport construction and baud rate (`swegon-to-mqtt/swegon.py:51-52`): these are device I/O. The instrument is a parameter of the unit.
- The library's signed decoding on the per-register path is an opaque function, `Instrument.decoded`. It is foreign code.
- Modbus.Instrument.WriteRegister: a write is logged but does not change the device image. How the controller reacts to a write is outside the code. `Views.FanModeWriteReadBack` therefore takes the written value as a hypothesis.
- The MQTT client, its callbacks, the network thread and the connection retry of `mqtt_init` (`swegon-to-mqtt/swegon-to-mqtt.py:55-102`) are network I/O and concurrency.
  - The inbound queue is a plain sequence given by the caller.
  - Messages that arrive during a drain are picked up in the next iteration.
  - A disconnected step stands for one pass of the wait loop at lines 186-187.
- `sleep` calls are not modelled.
- `_get_controller_uptime` reads the wall clock. Its text becomes an `uptime` parameter.
- `json.dumps` is not modelled. A publication is a record of topic, map, sorted-keys flag and retain flag. The insertion order of the sensors map is not modelled, because maps are unordered.
- `register_sensors` and `register_climate` (`swegon-to-mqtt/swegon-to-mqtt.py:128-166`) build discovery payloads through a foreign module.
- SwegonUnit.Swegon.SetTemperature: takes the already-rounded integer. `round(float(payload))` is float parsing. In `Bridge.ProcessMessage` it is the `parse` parameter, and a payload it rejects stands for the `ValueError`.
- Float rounding error in `round(value / 10 ** d, d)` is not modelled. The model computes exactly on reals.
- The retry loop of `get_swegon_data` is vacuous (`success` is always true), so the model reads once.
- An exception in the main loop ends the Python process. The model returns `Err` from the affected call but does not model termination of the loop. An unknown fan label (`swegon-to-mqtt/swegon.py:57`) or an unparsable setpoint raised inside `process_message` ends the process before the `update_sensors` call that follows it. The scheduler traces (`Bridge.DrainTrace`, `Bridge.RunAnswered`, `Bridge.RunOrder`) assume instead that every applied command returns and is followed by its update.
- The `while True` loop is infinite. `Bridge.MainLoop` runs any finite number of iterations.
- The module-level default tables are shared by every `Swegon` instance in the source. The model gives each unit fresh arrays, so aliasing between instances is not captured.
- The debug text `"Read " + name + ": " + str(value)` becomes a `ReadChanged(name, value)` record.
- The `True` returned by `_write_register` is not modelled; no caller uses it.
- SwegonUnit.Swegon.Read: requires a table with a first row and a last register not below the first. On an empty table the source raises `IndexError`, and on a reversed one the transport rejects the count. Neither case arises for the four tables.
- SwegonUnit.Swegon.GetAlarmsString: returns the corrected summary of `Views.AlarmSummary`, and so do `ProcessAlarms`, `Views.AlarmsView`, `GetSwegonData` and `Bridge.UpdateSensors` in the poll. The source as written publishes "n" for one active alarm and raises `IndexError` for two; `Views.AlarmSummaryAsWritten` models that (see "## Findings").
- SwegonUnit.Swegon.constructor: always yields a unit and discards the result of its first poll. In the source, an `Operating Mode` lookup that raises in `__init__` (`swegon-to-mqtt/swegon.py:53`, through line 118) propagates, and no object is created.
- TableRead.BatchReadEffect: states that every appended line is a changed reading, but not which names and values they carry, nor their order.
- TableRead.BatchReadEffect: assumes unique registers, as do `ScanEntriesUnique`, `ScanWordsUnique`, `BatchReadIdempotent` and `ReadTableIdempotent`. With duplicate registers the source rescales the already-scaled value again for each later row; `ScanEntries` models that, but these lemmas do not characterise it.
- Views.StatusViewMode: states the map for indices 0..4 only. The negative indices are covered by `Views.FanModeAt` and `Views.StatusViewOutcome`.
- Views.AlarmSummaryJoins: assumes no active alarm is named "None". The source's `== "None"` test would restart the list at such a name.
- Views.TableViewSpec: states the map's content, not the insertion order of keys.

## Findings

| source | as written | input that shows it | evidently intended | confidence | as-written member | corrected member |
|---|---|---|---|---|---|---|
| swegon-to-mqtt/swegon.py:149-152 | the loop indexes the summary string `alarms[NAME_INDEX]` instead of the entry | one active alarm gives "n" (the third letter of "None"); alarms (A, 0), (B, 1), (C, 1) make the second active alarm index "n" at position 2 and raise `IndexError` | the comma-joined names of the active alarms (`alarm[NAME_INDEX]`), "B, C" for the second input | not executed | Views.AlarmSummaryAsWrittenOutcome | Views.AlarmSummaryJoins |
