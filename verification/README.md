# Wizkers: USB Geiger driver and output manager, in Dafny

This project models two pieces of the Wizkers server:

- The **Medcom USB Geiger driver** (`wizkers/server/parsers/usb_geiger.js`):
  - its line decoder `format`;
  - the `openPort` / `closePort` / `status` state machine that attaches and detaches the driver's two handlers on its serial port;
  - the `output` command path with its `TAG` interception;
  - `sendUniqueID`.
- The **output manager** (`server/server/outputs/outputmanager.js`):
  - the per-output decisions `check_alarm`, `alarm` and `regular`;
  - the dispatch loop `output`;
  - the driver registry `register`, `enableOutputs` and `disconnectOutputs`;
  - the asynchronous `sendData` completion that stamps `last`.

Everything is a pure function over immutable state.

- **Time.** Time is a parameter `now` in milliseconds.
- **Records.** A decoded record is the `Record` datatype. An absent JavaScript property is `None`, and a `parseInt` failure is `NaN`.
- **JavaScript objects.** Objects the source compares by identity get numbers drawn from a counter: serial ports, driver callbacks, and live outputs. Those numbers are what lets the model say "a handler left on the old port", "the same callback", or "an output discarded by a later enable".
- **Asynchronous callbacks.** The two asynchronous callbacks of `enableOutputs` (the database query) and `output` (`sendData`) are separate steps. They are `QueryAnswered` and `Completion`, each taking the answer as input.

Modules, one per concern:

| module | file | what it holds |
|---|---|---|
| `Wrappers` | `wrappers.dfy` | `Option`, `Result` |
| `Lexical` | `lexical.dfy` | JavaScript `split`, one-character `replace`, `parseInt`, `String(n)` |
| `UsbGeigerFormat` | `usb_geiger_format.dfy` | `Record`, `Decode` (= `format`), its inverse `Encode`, the round trip |
| `UsbGeigerPort` | `usb_geiger_port.dfy` | the driver's listener state machine and commands |
| `OutputGates` | `output_gates.dfy` | loose comparison, `check_alarm`, `alarm`, `regular`, debounce |
| `OutputManager` | `output_manager.dfy` | registry, enable/disconnect, dispatch, completion, invariant |
| `Scenarios` | `scenarios.dfy` | end-to-end runs across the decoder and the manager |

Behaviours of the code the model keeps, which a reader might not expect:

- **Handlers after a close.** After `openPort`, and before the first status, both handlers are attached even though the port is not reported open. After a clean close that the driver did not request (no error, no pending request), both handlers stay attached to the closed port (`UsbGeigerPort.UnrequestedCleanCloseKeepsHandlers`). So a port that is not open, with no close pending, can still have handlers.
- **Query errors.** The query callback of `enableOutputs` returns quietly only on a 404. Any other error reaches `outputs.rows` on an undefined result and throws (`OutputManager.QueryAnswered` gives `Failure(RowsOfUndefined)`).
- **A stale close request.** `closePort` on a port that has already closed still sets `port_close_requested`, and no status handler is left to clear it. `openPort` keeps the flag. The next clean close of the new port is then taken as requested, although nobody asked for it: only the status handler goes, and `format` stays attached to the closed port (`UsbGeigerPort.StaleCloseRequest`).
- **Opening over a held port.** `openPort` replaces `port` without detaching anything from the port it held. Afterwards every handler is on the new port if and only if none was attached before (`UsbGeigerPort.OpenPortNoLeakIff`); otherwise the old port's handlers stay on it.
- **Overlapping enables.** Rows are appended to the list current when the answer arrives, not to the list the enable emptied. Two enables whose queries overlap therefore both append.

## Model

| member | source | states |
|---|---|---|
| Lexical.Split | wizkers/server/parsers/usb_geiger.js:91 | `split(':')` yields at least one field, no field contains the separator, and joining the fields gives the line back |
| Lexical.SplitJoin | wizkers/server/parsers/usb_geiger.js:91 | splitting the join of separator-free fields returns exactly those fields (split is the inverse of join) |
| Lexical.JoinInjective | wizkers/server/parsers/usb_geiger.js:91 | two lists of separator-free fields with the same join are equal |
| Lexical.RemoveFirstSplices | wizkers/server/parsers/usb_geiger.js:89 | `replace('\n', '')` removes only the first newline: unchanged without one, otherwise the text before and after the first one |
| Lexical.RemoveFirstTerminator | wizkers/server/parsers/usb_geiger.js:89 | a line ending in its only newline loses exactly that newline |
| Lexical.RemoveFirstLeading | wizkers/server/parsers/usb_geiger.js:89 | a line starting with its only newline loses exactly that newline |
| Lexical.TrimStart | wizkers/server/parsers/usb_geiger.js:94 | the white space `parseInt` skips: what is kept is a suffix of the input that does not start with white space |
| Lexical.TrimStartSkipsSpace | wizkers/server/parsers/usb_geiger.js:94 | everything dropped before the number is white space |
| Lexical.DigitRun | wizkers/server/parsers/usb_geiger.js:94 | the digits `parseInt` reads: a prefix of digits followed by a non-digit or the end |
| Lexical.ParseIntOfIntToString | wizkers/server/parsers/usb_geiger.js:94-97 | `parseInt` reads back any integer written in decimal, whatever non-digit text follows |
| Lexical.ParseIntUnsigned | wizkers/server/parsers/usb_geiger.js:94-97 | text starting with a digit is read as the value of its leading run of digits |
| Lexical.ParseIntNegated | wizkers/server/parsers/usb_geiger.js:94-97 | text starting with a minus sign is read as the negated value of the digits after it |
| Lexical.ParseIntEmpty | wizkers/server/parsers/usb_geiger.js:129-135 | `parseInt` of an empty field is NaN |
| Lexical.ParseIntNaNIff | wizkers/server/parsers/usb_geiger.js:94-97 | `parseInt` is NaN exactly when no digit follows the leading white space and the optional sign, and otherwise it is the value of those digits, negated after a minus sign. A garbled count field is therefore NaN, so `inputs == 2` fails |
| Lexical.NatToStringValue | wizkers/server/parsers/usb_geiger.js:94-97 | the decimal rendering of a count has that count as its digit value |
| UsbGeigerFormat.Decode | wizkers/server/parsers/usb_geiger.js:84-88 | a line shorter than 2 characters gives no record; a decoded line never yields the driver's own `devicetag`/`uniqueID` records |
| UsbGeigerFormat.DecodeCpm | wizkers/server/parsers/usb_geiger.js:93-123 | `CPM`: count from field 2, valid exactly for flag `V`, invalid exactly for `X`, unset for any other flag; a second input exactly when field 1 reads 2, from fields 4 and 5 |
| UsbGeigerFormat.DecodeBanner | wizkers/server/parsers/usb_geiger.js:124-125 | a non-`CPM` line whose first 10 characters are `USB Geiger` is a version record holding the line minus its first newline |
| UsbGeigerFormat.DecodeCounts | wizkers/server/parsers/usb_geiger.js:126-136 | `COUNTS`: input 1 from field 2; with two inputs, input 2 from field 3 and uptime from field 4; otherwise uptime from field 3 |
| UsbGeigerFormat.DecodeHz | wizkers/server/parsers/usb_geiger.js:137-145 | `HZ1`: the raw strings of fields 1, 3, 5, 7 and 9 |
| UsbGeigerFormat.DecodeUnknown | wizkers/server/parsers/usb_geiger.js:146-148 | any other leading token without the banner gives no record |
| UsbGeigerFormat.EncodeIntRoundTrip | wizkers/server/parsers/usb_geiger.js:97 | a count written by the encoder reads back through `parseInt`, NaN included |
| UsbGeigerFormat.FlagRoundTrip | wizkers/server/parsers/usb_geiger.js:99-108 | the validity flag written by the encoder reads back through the flag switch |
| UsbGeigerFormat.FramedLine | wizkers/server/parsers/usb_geiger.js:87-91 | an encoded line, with or without its terminator, reaches the frame dispatch with exactly the encoded fields |
| UsbGeigerFormat.CpmFieldsRead | wizkers/server/parsers/usb_geiger.js:93-123 | the `CPM` field layout reads back to the record it was written from, with one or two inputs |
| UsbGeigerFormat.CountsFieldsRead | wizkers/server/parsers/usb_geiger.js:126-136 | the `COUNTS` field layout reads back to its record, including the shifted uptime position |
| UsbGeigerFormat.DecodeEncodeCpm | wizkers/server/parsers/usb_geiger.js:93-123 | decoding the line of any `CPM` record gives the record back |
| UsbGeigerFormat.DecodeEncodeCounts | wizkers/server/parsers/usb_geiger.js:126-136 | decoding the line of any `COUNTS` record gives the record back |
| UsbGeigerFormat.DecodeEncodeHz | wizkers/server/parsers/usb_geiger.js:137-145 | decoding the line of an `HZ1` record with plain fields gives the record back |
| UsbGeigerFormat.DecodeEncodeVersion | wizkers/server/parsers/usb_geiger.js:124-125 | decoding a banner line gives the version record back |
| UsbGeigerFormat.DecodeEncode | wizkers/server/parsers/usb_geiger.js:84-157 | round trip: every record the dongle can send decodes from its line: bare, with the newline after it, or with the newline in front of it |
| UsbGeigerFormat.LeadingNewlineIgnored | wizkers/server/parsers/usb_geiger.js:87-89 | a newline-free line decodes the same with a newline in front of it, as lines split on carriage returns arrive |
| UsbGeigerPort.OpenPort | wizkers/server/parsers/usb_geiger.js:185-192 | opening records the instrument id and attaches `format` and `status` to a new port, leaving other ports' handlers as they were; a missing instrument document makes no port |
| UsbGeigerPort.ClosePort | wizkers/server/parsers/usb_geiger.js:194-200 | closing fails without a port; otherwise it detaches only `format` from the held port and flags the close, keeping the port, the open flag, the instrument id and the port counter |
| UsbGeigerPort.OnStatus | wizkers/server/parsers/usb_geiger.js:59-80 | The port, the port counter and the instrument id never change. Handlers on other ports are untouched, and without the status handler on the held port nothing changes. Otherwise the status sets `isopen`, and an open status changes nothing else. A closed status always clears the close request. With an error it takes both handlers off the held port. Without an error, a requested close takes off only the status handler, and an unrequested one keeps both |
| UsbGeigerPort.OnLine | wizkers/server/parsers/usb_geiger.js:189 | a line on the held port is decoded exactly when `format` is attached there; otherwise it is dropped |
| UsbGeigerPort.Command | wizkers/server/parsers/usb_geiger.js:230-239 | `TAG` emits the not-supported tag and writes nothing. Any other command throws without a port, and otherwise is written with a newline, emitting and returning nothing |
| UsbGeigerPort.SendUniqueId | wizkers/server/parsers/usb_geiger.js:212-216 | the unique id is the fixed non-empty placeholder record |
| UsbGeigerPort.CloseThenClosedStatus | wizkers/server/parsers/usb_geiger.js:69-77 | `closePort` then a closed status leaves no handler on that port, and clears the close flag when the status handler was attached |
| UsbGeigerPort.ErrorStatusDetachesBoth | wizkers/server/parsers/usb_geiger.js:73-77 | while the status handler is attached, a closed status with an error detaches both handlers and clears the flags, requested or not |
| UsbGeigerPort.OpenStatusOnlyRecords | wizkers/server/parsers/usb_geiger.js:62-66 | an open status changes nothing but `isopen` |
| UsbGeigerPort.UnrequestedCleanCloseKeepsHandlers | wizkers/server/parsers/usb_geiger.js:67-79 | a clean close the driver did not request keeps both handlers attached |
| UsbGeigerPort.NoRecordAfterClose | wizkers/server/parsers/usb_geiger.js:197 | once `closePort` returned, no line becomes a record |
| UsbGeigerPort.StepsKeepValid | wizkers/server/parsers/usb_geiger.js:185-200 | every step keeps every port number below the counter |
| UsbGeigerPort.ClosingKeepsNoLeak | wizkers/server/parsers/usb_geiger.js:60-80 | closing and status changes never leave a handler on a port other than the held one |
| UsbGeigerPort.OpenPortNoLeakIff | wizkers/server/parsers/usb_geiger.js:185-192 | opening keeps all handlers on the held port if and only if none was attached before |
| UsbGeigerPort.CycleDetachesAll | wizkers/server/parsers/usb_geiger.js:185-200 | one open / opened / close / closed session starting clean ends with no handler attached |
| UsbGeigerPort.CyclesDetachAll | wizkers/server/parsers/usb_geiger.js:185-200 | any number of such sessions leaves no handler attached anywhere |
| UsbGeigerPort.StaleCloseRequest | wizkers/server/parsers/usb_geiger.js:185-200 | after a closed session, `closePort` sets the close request with no status handler left to clear it; after reopening, an unrequested clean close then removes only the status handler and leaves `format` on the closed port |
| UsbGeigerPort.TagNeverWrites | wizkers/server/parsers/usb_geiger.js:232-237 | `TAG` emits the not-supported record, returns a newline, and writes nothing, even without a port |
| UsbGeigerPort.OtherCommandsWritten | wizkers/server/parsers/usb_geiger.js:238 | any other command is written to the port followed by one newline |
| UsbGeigerPort.SyntheticRecordsNotDecoded | wizkers/server/parsers/usb_geiger.js:212-237 | the driver's own records can never come out of the decoder |
| OutputGates.Coerce | server/server/outputs/outputmanager.js:58-63 | `parseFloat` coercion: a number stays itself, a string that parses becomes the parsed number, and a string that does not parse is kept as it was |
| OutputGates.DisabledNeverTriggers | server/server/outputs/outputmanager.js:53-55 | an alarm with field `_unused` or empty, or with a field the plugin cannot resolve, never triggers |
| OutputGates.NumericComparators | server/server/outputs/outputmanager.js:65-77 | with both sides numeric, `less`, `moreeq` and `eq` are `<`, `>=` and `==`; any other comparator is false |
| OutputGates.LevelWriteBackInvisible | server/server/outputs/outputmanager.js:61-63 | writing the coerced level back into the alarm changes no later check |
| OutputGates.StrLessAsymmetric | server/server/outputs/outputmanager.js:67 | string `<` is asymmetric and irreflexive |
| OutputGates.StrLessTotal | server/server/outputs/outputmanager.js:67 | any two different strings are ordered one way or the other |
| OutputGates.LessMoreEqSplit | server/server/outputs/outputmanager.js:65-71 | `less` and `moreeq` are complementary on two numbers and on two strings; a non-numeric string against a number satisfies neither, nor `eq` |
| OutputGates.StringEqIsOrderEq | server/server/outputs/outputmanager.js:72-73 | `eq` on strings holds exactly when neither is less than the other |
| OutputGates.AndOrTable | server/server/outputs/outputmanager.js:115-124 | `and` needs both conditions, `or` either, any other combiner never alarms |
| OutputGates.AlarmGate | server/server/outputs/outputmanager.js:106-140 | the alarm gate changes nothing but `last_alarm`, sets it to now when it fires, and changes nothing when it does not |
| OutputGates.ZeroAlarmFrequencyNeverFires | server/server/outputs/outputmanager.js:129-131 | a zero re-fire interval disables alarms whatever the conditions |
| OutputGates.UnknownOperatorNeverFires | server/server/outputs/outputmanager.js:122-127 | a combiner other than `and`/`or` never fires |
| OutputGates.Debounce | server/server/outputs/outputmanager.js:132-139 | after an alarm at `t`, no refire up to `t + freq*1000`; strictly after, it fires exactly when the conditions hold |
| OutputGates.FirstAlarm | server/server/outputs/outputmanager.js:132-137 | with no alarm on record, the gate fires exactly when the conditions hold and alarms are enabled |
| OutputGates.RegularSchedule | server/server/outputs/outputmanager.js:142-149 | the regular gate is off for a zero interval and otherwise open exactly when more than the interval passed since the last success |
| OutputGates.Evaluate | server/server/outputs/outputmanager.js:94 | an output sends when its alarm fires or, failing that, its schedule is due; only the alarm gate's bookkeeping is kept |
| OutputGates.FiringsSpaced | server/server/outputs/outputmanager.js:132-136 | over any stream of records, successive alarm firings are more than the re-fire interval apart, and the first is more than the interval after the last alarm on record |
| OutputManager.Detach | server/server/outputs/outputmanager.js:160 | `removeListener` removes exactly the callbacks of that driver and callback |
| OutputManager.Register | server/server/outputs/outputmanager.js:156-166 | registering files the driver and callback under the driver's instrument id, detaching the callback registered there before, if any |
| OutputManager.Build | server/server/outputs/outputmanager.js:199-217 | each document of a known type, in order, becomes a fresh output stamped with the setup time and no alarm yet; unknown types are skipped |
| OutputManager.EnableOutputs | server/server/outputs/outputmanager.js:183-184 | enabling empties the instrument's output list at once and touches nothing else |
| OutputManager.Rebuild | server/server/outputs/outputmanager.js:199-232 | Other instruments' output lists are untouched, and so are registrations other than the driver's own. An attached callback is removed only if it is the one registered under the driver's instrument or under `insid`. An added one belongs to this driver and forwards to `insid` |
| OutputManager.RebuildKeepsOthers | server/server/outputs/outputmanager.js:199-232 | under the invariant, the rows step keeps every other instrument's registration and attached callback |
| OutputManager.QueryAnswered | server/server/outputs/outputmanager.js:194-200 | a 404 leaves everything as it was; any other error fails (reading `rows` of the absent result); rows give the rebuild of the list |
| OutputManager.DisconnectOutputs | server/server/outputs/outputmanager.js:236-243 | an unknown instrument is a no-op; otherwise exactly its registration is removed, its registered callback detached, and the output lists are untouched |
| OutputManager.DispatchAll | server/server/outputs/outputmanager.js:91-101 | every output is updated by its own evaluation, and every call carries the record and the instrument |
| OutputManager.DispatchSends | server/server/outputs/outputmanager.js:92-100 | every call goes to an output whose gate opened, every output whose gate opens gets a call, and none gets two |
| OutputManager.CallsOnlyOpen | server/server/outputs/outputmanager.js:94-96 | the loop calls `sendData` only on outputs whose verdict is to send |
| OutputManager.CallsEveryOpen | server/server/outputs/outputmanager.js:94-96 | the loop calls `sendData` on every output whose verdict is to send |
| OutputManager.CallsOnce | server/server/outputs/outputmanager.js:92-96 | with distinct output names, no output is called twice for one record |
| OutputManager.Output | server/server/outputs/outputmanager.js:86-102 | a record for an instrument without outputs is dropped; otherwise each of its outputs is replaced by its own evaluated binding, other instruments and the registry are untouched, and every call carries the instrument and the record |
| OutputManager.Completion | server/server/outputs/outputmanager.js:96-99 | a failed send changes nothing; a successful one stamps `last` with the callback's time on the output the call names as its stamp target (the output called, in `Output`), leaving the rest of the list, the other instruments and the registry as they were |
| OutputManager.StampLast | server/server/outputs/outputmanager.js:97-98 | the stamp lands on the output with that name and on no other |
| OutputManager.AtMostOneCallback | server/server/outputs/outputmanager.js:156-166 | under the invariant, an instrument has at most one attached data callback |
| OutputManager.EnableOutputsKeepsInv | server/server/outputs/outputmanager.js:183-184 | enabling keeps the registry invariant |
| OutputManager.RebuildKeepsInv | server/server/outputs/outputmanager.js:199-232 | the query's rows keep the registry invariant: one callback per instrument, fresh distinct names |
| OutputManager.QueryAnsweredKeepsInv | server/server/outputs/outputmanager.js:194-233 | whatever the query answers, the registry invariant survives |
| OutputManager.DisconnectOutputsKeepsInv | server/server/outputs/outputmanager.js:236-243 | disconnecting keeps the registry invariant |
| OutputManager.OutputKeepsInv | server/server/outputs/outputmanager.js:86-102 | dispatch keeps the registry invariant |
| OutputManager.CompletionKeepsInv | server/server/outputs/outputmanager.js:96-99 | a completion keeps the registry invariant |
| OutputManager.SupportedAreKnown | server/server/outputs/outputmanager.js:202-205 | only documents whose type is `safecast` or `rest` are kept |
| OutputManager.EnableReplacesWholesale | server/server/outputs/outputmanager.js:183-184 | between an enable and its answer, no record for the instrument is sent anywhere |
| OutputManager.QueryAppendsSupported | server/server/outputs/outputmanager.js:200-217 | the answer appends the known-type documents after the current outputs, in order, stamped with the setup time and no alarm |
| OutputManager.OneCallbackAfterRows | server/server/outputs/outputmanager.js:218-226 | when at least one output binds, the driver's instrument ends with exactly one attached callback, the new one, forwarding to this instrument |
| OutputManager.NoSinksDetachesCallback | server/server/outputs/outputmanager.js:227-231 | when no output binds, no callback stays attached for the instrument, and its registration stays |
| OutputManager.DisconnectDetaches | server/server/outputs/outputmanager.js:236-243 | disconnecting leaves no callback for the instrument and keeps every other instrument's; an unknown instrument is a no-op |
| OutputManager.LateCompletionIgnored | server/server/outputs/outputmanager.js:96-99 | an answer for an output no longer in the list changes nothing |
| OutputManager.SuccessRestartsSchedule | server/server/outputs/outputmanager.js:97-98 | after a successful send, the output's regular schedule is not due again until its interval has passed |
| OutputManager.OutputSendsEachOpenOnce | server/server/outputs/outputmanager.js:86-102 | under the invariant, calls go exactly to the outputs whose gates open, one call each per record |
| OutputManager.OutputAsWritten | server/server/outputs/outputmanager.js:92-99 | as written, the calls are exactly those of the corrected dispatch (each open output's plugin is called), but every call's success callback stamps the last output of the list |
| OutputManager.ClosureStampsLastOutput | server/server/outputs/outputmanager.js:92-99 | as written, the call at 5000 ms goes to the first output but its success stamps the second, so the first keeps its old stamp and sends again one second later |
| OutputManager.StampOnSenderWaits | server/server/outputs/outputmanager.js:96-99 | stamping the output that sent restarts its schedule, so it does not send one second later |
| OutputManager.SingleOutput | server/server/outputs/outputmanager.js:91-101 | one record through a single output: one call exactly when its gates open |
| OutputManager.PairOutput | server/server/outputs/outputmanager.js:91-101 | one record through two outputs: each is replaced by its own evaluated binding, and their calls come in list order |
| Scenarios.CpmLine | wizkers/server/parsers/usb_geiger.js:93-108 | the 150 CPM valid reading is written `CPM:1:150:V` |
| Scenarios.LineDecodes | wizkers/server/parsers/usb_geiger.js:84-157 | that line with its newline decodes to the reading |
| Scenarios.AlarmOnlyEvaluates | server/server/outputs/outputmanager.js:106-149 | an output alarming at `cpm.value >= 100` sends the 150 CPM reading exactly when its debounce window is open |
| Scenarios.EnabledHasOneOutput | server/server/outputs/outputmanager.js:180-233 | enabling with one document yields one output and one attached callback |
| Scenarios.AlarmScenario | server/server/outputs/outputmanager.js:86-140 | the reading sends at `t0`, not 10 s later, and again 61 s after `t0` |
| Scenarios.NoOutputsScenario | server/server/outputs/outputmanager.js:227-231 | re-enabling with no documents detaches the callback, and later records are sent nowhere |

## Left out

- Serial-port settings (`portSettings`), the readline framing of the serial stream, and the serial connection itself. A line is the decoder's input; port events are the inputs of `OnStatus` and `OnLine`.
- The instrument and output databases. Their answers are inputs: `found` for `openPort`, `QueryResult` for the outputs query. The query's `enabled == true` filter is the database's concern, so the model's rows are the enabled documents.
- The plugins (`setup`, `sendData`, `resolveMapping`). `resolveMapping` is the `Resolver` parameter. The success or failure of `sendData` is an input of `Completion`.
- `debug` logging.
- The `try`/`catch` in `format` (usb_geiger.js:84-157). `self.emit('data', …)` runs the `data` listeners synchronously inside it, so an exception thrown by the output manager's callback is caught and logged there. A throwing plugin (`resolveMapping` or `sendData`) therefore aborts the rest of the dispatch loop for that record. The model's plugins do not throw.
- `isOpen`, `getInstrumentId`, `isStreaming`, `startLiveStream` and `stopLiveStream`. They return a flag or a constant, or do nothing.
- Events from a port the driver no longer holds. Those handlers call the closure with the driver's current state, which the model does not follow.
- Lexical.ParseInt: reads decimal integers only. Hexadecimal prefixes, and white space beyond space, tab, newline and carriage return, are not modelled.
- Lexical.ParseInt: the result is an exact integer. JavaScript's `parseInt` returns a double, so above 2^53 it rounds (`parseInt("9007199254740993")` is 9007199254740992), and `eq`/`less` on such large fields can differ from the model.
- Lexical.IntToString: writes every integer in plain decimal. JavaScript writes integers of magnitude 10^21 and above with an exponent (`1e+21`), so the encoder is faithful only below that.
- OutputGates.StrLess: compares characters as Unicode scalar values. JavaScript compares UTF-16 code units, and the two orders differ once a character lies outside the Basic Multilingual Plane (`"\u{10000}" < "\uFFFF"` holds in JavaScript but not in the model).
- OutputManager.Build: skips exactly the types outside `SupportedKinds`. In the source, `availableOutputs[type]` also finds `Object.prototype` members such as `constructor` or `toString`. For such a document, `new pluginType()` or `plugin.setup` throws, and the query callback aborts instead of skipping it.
- OutputGates.Coerce: models `parseFloat` as the integer prefix. A fraction or an exponent is dropped, and `Infinity` is not recognised, because values are integers in this model.
- OutputGates.ToNumber: covers numbers and strings only. Booleans, objects and `undefined` are not resolved values here.
- OutputGates.RegularSchedule: `frequency` and `alrmfrequency` are integers. A document holding them as strings (compared with `==` and multiplied in JavaScript) is not modelled.

## Findings

| source | as written | input that shows it | evidently intended | confidence | as-written member | corrected member |
|---|---|---|---|---|---|---|
| server/server/outputs/outputmanager.js:92-99 | The `sendData` success callback closes over the loop's function-scoped `var output`. `sendData` answers after the loop ends, so every success stamps `last` on the last output of the list. | Two outputs: the first sends every second, the second has no schedule, both set up at 0 ms. The first sends at 5000 ms and succeeds. Its `last` stays 0, and it sends again at 6000 ms. | The success stamps the output that sent, whose schedule then restarts, so nothing is sent at 6000 ms. | high that the stamp misses when `sendData` answers asynchronously; not executed | OutputManager.ClosureStampsLastOutput | OutputManager.StampOnSenderWaits |

`OutputManager.OutputAsWritten` is the dispatch as written: it calls the same plugins as `OutputManager.Output`, and only the stamp target of each call differs. The rest of the model uses `OutputManager.Output` and `OutputManager.Completion`, which stamp the output that sent.
