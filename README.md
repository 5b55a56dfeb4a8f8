# energy2mqtt polling core in Dafny

energy2mqtt polls an energy meter over Modbus TCP and republishes the readings
to an MQTT broker. This project models the two pieces of `index.js` that hold
logic:

- **The Modbus polling state machine** (module `Polling`, class `Poller`). The
  module-level `mbsState` takes one of seven values (`MbsState`). Each timer
  tick (`runModbus`, here `Tick`) picks at most one action: connect, read or
  nothing. If it dispatches one, it writes `Idle` at once. The action's promise
  callbacks (`CompleteConnect`, `CompleteRead`) later write the real outcome.
  `isOpen` stands for `modbusClient.isOpen`. The ghost field `inFlight` records
  the action whose promise has not settled. The invariant `Valid` says:
  - the state is `Idle` exactly while an action is in flight, so at most one
    connect or read is outstanding and no state is a dead end;
  - `Next` never survives a tick;
  - a connect starts only after the old session is closed;
  - a read is issued only on an open session.
- **Result assembly and topic generation** (module `Readings`, with `JsNumber`
  for `parseInt`, number `+` and `toString`). The read callback pushes one
  `{id, value, unit}` per mapping element, in order. It then sums `parseInt` of
  every `W` value into `powerTotal` and appends a `powerTotal` entry. Once MQTT
  connects, each result is published as `prefix/id/value` and then
  `prefix/id/unit`.

The `FAIL_READ` case of the switch writes `MBS_STATE_NEXT` when
`modbusClient.isOpen` (index.js:199-201), apparently so that the next tick
reads again without reconnecting. But the same case has already set
`nextAction` to `connectModbusClient` (index.js:198), so the action runs and
the `MBS_STATE_IDLE` write at index.js:210 overwrites `NEXT`. A failed read
therefore always reconnects. The model follows the code: `Tick` writes `Next`
and then `Idle`, and `Valid` proves that `Next` never survives a tick. The
`MBS_STATE_NEXT` case of the switch (index.js:181-183) is therefore
unreachable.

Modelling choices:
- The register read always asks for 50 registers from address 0, so the buffer
  holds 100 bytes.
- A mapping element decodes only when its 4-byte float lies inside that buffer
  (`0 <= register <= 96`) and its `toFixed` digit count is 0 to 100. Otherwise
  `readFloatBE` or `toFixed` throws a RangeError, the promise's `catch` runs,
  and the state becomes `FailRead`. This follows the current Node.js
  `readFloatBE(offset)`, which ignores the second argument.
- A successful register read is given as `FloatText`, a function that maps
  `(offset, digits)` to the formatted text of the float at that offset. A
  rejected read is `None`.
- `powerTotal` is a JavaScript number (`JsNumber.Number`), so NaN is modelled.
  A `W` value with no leading digits makes the total, and its published text,
  `"NaN"`.

## Model

| member | source | states |
|---|---|---|
| `JsNumber.Add` | index.js:137 | `powerTotal += …` on JavaScript numbers: the sum is NaN exactly when either side is NaN, and otherwise the sum of the two values (accumulation over runs in `PowerSumAppend`, NaN propagation in `PowerSumNaN`) |
| `JsNumber.ParseInt` | index.js:137 | `parseInt(s, 10)`: NaN exactly when no digit follows the optional sign; a negative result only after a leading `-`; its value on sign + digits + non-digit tail is `ParseIntTruncates` |
| `JsNumber.ToString` | index.js:143 | `toString` of the total: never empty, starts with `-` exactly for a negative value, digits after the sign; `ParseIntRoundTrip` reads it back to the same number |
| `JsNumber.LeadingDigits` | index.js:137 | the digits `parseInt` reads are a prefix of the text, all decimal digits, and stop at the first non-digit |
| `JsNumber.NatToString` | index.js:143 | `toString` of a non-negative integer gives decimal digits whose value is that integer, with no leading zero (`"0"` for zero) |
| `JsNumber.LeadingDigitsOf` | index.js:137 | a run of digits followed by a non-digit, or by nothing, is read exactly up to its end |
| `JsNumber.ParseIntTruncates` | index.js:137 | `parseInt(sign + digits + rest, 10)` is the signed value of the digits whenever `rest` does not start with a digit |
| `JsNumber.ParseIntRoundTrip` | index.js:137-143 | `parseInt` of what `toString` wrote gives the same number back, NaN included |
| `JsNumber.ParseIntOfFixed` | index.js:129-137 | `parseInt` of a `toFixed` text (optional minus, integer digits, point, fraction) is its signed integer part, so `"-0.30"` gives 0; with `toFixed(0)`, which writes no point (`"230"`, `"-0"`), the text reads back as the same signed integer |
| `Readings.Decodable` | index.js:129 | an element fails to decode exactly when `readFloatBE` throws (offset below 0 or above buffer length − 4 = 96) or `toFixed` throws (digits outside 0 to 100) |
| `Readings.Measure` | index.js:129-130 | the entry pushed for a mapping element carries the element's id and unit and the float at its offset formatted with its digit count (per element, in order, in `ResultsShape`) |
| `Readings.PowerTotal` | index.js:141-145 | the appended entry has id `powerTotal` and unit `W`, and its text reads back through `parseInt` as the accumulated total (by `ParseIntRoundTrip`) |
| `Readings.PowerSum` | index.js:134-139 | the accumulated `powerTotal` is NaN only if some `W` value has no leading number (both directions in `PowerSumNaN`; appending and the no-`W` case in the lemmas below) |
| `Readings.Results` | index.js:127-145 | the result list exists exactly when every element decodes, and then holds one entry per element plus a final entry in unit `W` (entry by entry in `ResultsShape`) |
| `Readings.BuildResults` | index.js:127-145 | the push loops and the `powerTotal` accumulation loop build exactly `Results`: None if some element throws, otherwise the mapped entries followed by the total |
| `Readings.ResultsShape` | index.js:127-145 | results exist iff every element decodes; then there is one entry per mapping element, in order, with its id, its unit and the formatted float at its offset, followed by a `powerTotal` entry in `W` |
| `Readings.PowerSumAppend` | index.js:134-139 | accumulating over two runs of results adds their totals (NaN absorbing) |
| `Readings.PowerSumWithoutWatts` | index.js:134-139 | with no `W` entry the accumulated total stays 0 |
| `Readings.PowerSumNaN` | index.js:134-139 | the total is NaN exactly when some `W` value has no leading number |
| `Readings.NoWattsTotalIsZero` | index.js:134-145 | a mapping with no `W` element publishes `powerTotal` as `"0"` in unit `W` |
| `Readings.VoltageOnlyCycle` | index.js:127-145 | a single voltage element reading `"230.46"` gives that entry and a `powerTotal` of `"0"` |
| `Readings.PowerTotalOfTwoPhases` | index.js:134-145 | power readings `"1200.50"` and `"-300.75"` plus a voltage give a `powerTotal` of `"900"` |
| `Readings.Outbox` | index.js:153-158 | publishing sends 2 messages per result: for result k, message 2k is its value under `prefix/id/value` and message 2k+1 is its unit under `prefix/id/unit` |
| `Readings.Topic` | index.js:155-156 | the topic `prefix/id/field` is as long as its parts plus two slashes, and the id sits right after the prefix and its slash; `TopicInjective` shows a topic determines its id and field |
| `Readings.TopicInjective` | index.js:155-156 | under one prefix, a value or unit topic determines the id and the field |
| `Readings.OutboxTopicsDistinct` | index.js:153-158 | results with distinct ids are published under pairwise distinct topics |
| `Readings.CycleTopicsDistinct` | index.js:127-158 | a mapping with distinct ids, none `powerTotal`, publishes 2 × (mapping length + 1) messages under pairwise distinct topics |
| `Polling.Poller.constructor` | index.js:61-75 | the machine starts in `Init` with no session open and nothing in flight |
| `Polling.Poller.ConnectModbusClient` | index.js:97-109 | a connect closes any open session first, so at most one session exists, and leaves the connect in flight |
| `Polling.Poller.ReadModbusData` | index.js:123-125 | a read leaves the state and the session untouched and puts the read in flight |
| `Polling.Poller.Tick` | index.js:173-211 | `Init`, `FailConnect` and `FailRead` dispatch connect, with the session closed; `GoodConnect` and `GoodRead` dispatch read, on an open session; a dispatching tick leaves `Idle`, so the `Next` write in `FailRead` never survives; `Idle` dispatches nothing and changes nothing; whenever nothing is in flight, the tick dispatches |
| `Polling.Poller.CompleteConnect` | index.js:110-120 | a connect settles as `GoodConnect` with the session open, or `FailConnect` with none, and nothing stays in flight |
| `Polling.Poller.CompleteRead` | index.js:124-170 | a rejection or a decode RangeError gives `FailRead` with nothing to publish; otherwise `GoodRead`, and the outbox holds the value and unit topics of every result |
| `Polling.RepeatedConnectFailures` | index.js:110-120 | with every connect failing, n ticks make exactly n connect attempts and no read, ending in `FailConnect` |
| `Polling.GoodReadKeepsReading` | index.js:149-195 | after a good read the next tick reads again rather than reconnecting, and the cycle hands 2 × (mapping length + 1) messages to MQTT |
| `Polling.DecodeErrorReconnects` | index.js:166-198 | a mapping that does not fit the buffer publishes nothing, and the next tick reconnects |
| `Polling.TicksWhileInFlight` | index.js:204-211 | ticks that fire while the first connect is pending dispatch nothing more |

## Left out

- Command-line and environment parsing with yargs, and building the MQTT options (index.js:6-54, 84-95): configuration. The mapping and the topic prefix are constructor parameters.
- The mapping file `./mapping/sdm630.json` is not part of this model. It is a parameter sequence.
- Modbus TCP and MQTT I/O (`connectTCP`, `readInputRegisters`, `setID`, `setTimeout`, `close`, `mqtt.connect`, `publish`, `end`): network clients. They appear only as success or failure events and as the outbox of messages handed to the MQTT client. Whether MQTT connects or a publish fails does not affect the state, so it is not modelled.
- A synchronous exception from `mqtt.connect` (for example a broker URL with an unknown protocol) would reach the read's `catch` after `GOOD_READ` was written and turn it into `FAIL_READ`. The model assumes `mqtt.connect` does not throw.
- `isOpen` changes only through the close before a connect and the connect's outcome. A transport that drops the socket on its own is not modelled. The invariant that reads run only on an open session depends on this.
- `readFloatBE` and `toFixed` (index.js:129): floating-point decoding and formatting. Their output is the input `FloatText`.
- JavaScript numbers are doubles. The model uses unbounded integers, so precision loss above 2^53 is not modelled. Neither is the exponential `toString` form from 1e21 upwards.
- `JsNumber.ParseInt`: does not skip leading whitespace, because `toFixed` never produces any.
- The timer and its rescheduling with `setTimeout(runModbus, mbsScan)` (index.js:214, 217): scheduling. Each tick and each promise settlement is a separate method call.
- `mbsStatus`, `debug` and `console.log` (index.js:64, 98, 112-118, 147, 162-168): logging only.
